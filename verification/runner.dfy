/**
 * `run(cmd, args, cwd, requestId)`: launch an external command and settle
 * on its outcome. The process itself is not modelled; what it does is given
 * as a trace: the output chunks in arrival order, then how it ended. Every
 * chunk is trimmed and relayed on the log channel; stderr chunks are also
 * collected, each followed by a newline, into the text a failure carries.
 */
module ProcessRunner {
  import opened Wrappers
  import opened JsStrings
  import opened LogChannel

  datatype Chunk = Stdout(text: string) | Stderr(text: string)

  /**
   * How the process ended: a close with an exit code, a close with no code
   * (killed by a signal), or a launch error, after which the process still
   * closes, with the negated error number as its code.
   */
  datatype Ending = Exited(code: nat) | Signaled | LaunchFailed(message: string, closeCode: int)

  datatype Trace = Trace(chunks: seq<Chunk>, ending: Ending)

  /** How the returned promise settles. */
  datatype Outcome = Resolved | Rejected(message: string)

  /** The line relayed for one output chunk. */
  function ChunkLine(ch: Chunk): string {
    match ch
    case Stdout(text) => "[stdout] " + Trim(text)
    case Stderr(text) => "[stderr] " + Trim(text)
  }

  function ChunkLines(chunks: seq<Chunk>): seq<string> {
    seq(|chunks|, i requires 0 <= i < |chunks| => ChunkLine(chunks[i]))
  }

  /** What one chunk adds to `stderrLog`. */
  function StderrPiece(ch: Chunk): string {
    if ch.Stderr? then Line(ch.text) else ""
  }

  /** A trimmed text and its newline. */
  function Line(text: string): string {
    Trim(text) + "\n"
  }

  /** The texts `f` gives for `xs`, concatenated as a handler accumulates them: the last one appended last. */
  function ConcatBack<T>(xs: seq<T>, f: T -> string): string
    decreases |xs|
  {
    if |xs| == 0 then "" else ConcatBack(xs[..|xs| - 1], f) + f(xs[|xs| - 1])
  }

  /** The same concatenation, read from the front. */
  function ConcatFront<T>(xs: seq<T>, f: T -> string): string
    decreases |xs|
  {
    if |xs| == 0 then "" else f(xs[0]) + ConcatFront(xs[1..], f)
  }

  /** `stderrLog` after the given chunks, as the stderr handler accumulates it. */
  function StderrLog(chunks: seq<Chunk>): string {
    ConcatBack(chunks, StderrPiece)
  }

  /** The stderr chunks only, in order. */
  function StderrOnly(chunks: seq<Chunk>): (r: seq<Chunk>)
    ensures forall i :: 0 <= i < |r| ==> r[i].Stderr?
  {
    if |chunks| == 0 then []
    else (if chunks[0].Stderr? then [chunks[0]] else []) + StderrOnly(chunks[1..])
  }

  function Texts(chunks: seq<Chunk>): (r: seq<string>)
    ensures |r| == |chunks| && forall i :: 0 <= i < |r| ==> r[i] == chunks[i].text
  {
    if |chunks| == 0 then [] else [chunks[0].text] + Texts(chunks[1..])
  }

  function SuccessLine(cmd: string): string {
    "[" + cmd + "] Completed successfully"
  }

  /** `[cmd] Failed with code N`, where a missing code renders as `null`. */
  function FailureLine(cmd: string, ending: Ending): string
    requires !ending.LaunchFailed?
  {
    "[" + cmd + "] Failed with code " + (if ending.Exited? then NatToDecimal(ending.code) else "null")
  }

  /** The `close` handler's line for a numeric code: success on 0, otherwise the code in decimal. */
  function CloseLine(cmd: string, code: int): string {
    if code == 0 then SuccessLine(cmd) else "[" + cmd + "] Failed with code " + IntToDecimal(code)
  }

  /** The `error` handler's line. */
  function ErrorLine(cmd: string, message: string): string {
    "[" + cmd + "] error: " + message
  }

  /** The lines relayed when the process ends: the `close` line, preceded by the `error` line after a launch error. */
  function EndLines(cmd: string, ending: Ending): seq<string> {
    match ending
    case Exited(code) => [CloseLine(cmd, code)]
    case Signaled => [FailureLine(cmd, ending)]
    case LaunchFailed(message, code) => [ErrorLine(cmd, message), CloseLine(cmd, code)]
  }

  /** Every line `run` relays, in order: one per chunk, then the ending's lines. */
  function RelayedLines(cmd: string, trace: Trace): seq<string> {
    ChunkLines(trace.chunks) + EndLines(cmd, trace.ending)
  }

  /**
   * One line per chunk, in arrival order, each the chunk's trimmed text
   * behind its stream's tag. Then a close ends with one line, which is the
   * success line exactly on exit code 0 and otherwise carries the code or
   * `null`; a launch error ends with the error's line and then the line for
   * the code the process closes with.
   */
  lemma RelayedLinesShape(cmd: string, trace: Trace)
    ensures var r := RelayedLines(cmd, trace);
      var n := |trace.chunks|;
      (forall i :: 0 <= i < n ==> r[i] == ChunkLine(trace.chunks[i])) &&
      (!trace.ending.LaunchFailed? ==>
         |r| == n + 1 &&
         (r[n] == SuccessLine(cmd) <==> trace.ending == Exited(0)) &&
         (trace.ending.Exited? && trace.ending.code != 0 ==> r[n] == "[" + cmd + "] Failed with code " + NatToDecimal(trace.ending.code)) &&
         (trace.ending.Signaled? ==> r[n] == "[" + cmd + "] Failed with code null")) &&
      (trace.ending.LaunchFailed? ==>
         |r| == n + 2 && r[n] == "[" + cmd + "] error: " + trace.ending.message &&
         r[n + 1] == CloseLine(cmd, trace.ending.closeCode))
  {
    var n := |trace.chunks|;
    var r := RelayedLines(cmd, trace);
    assert r[n..] == EndLines(cmd, trace.ending);
    if trace.ending.Signaled? {
      assert |SuccessLine(cmd)| != |FailureLine(cmd, trace.ending)|;
    } else if trace.ending.Exited? && trace.ending.code != 0 {
      FailureIsNotSuccess(cmd, trace.ending.code);
    }
  }

  /** A failure line for a non-zero exit code is never the success line. */
  lemma FailureIsNotSuccess(cmd: string, code: nat)
    requires code != 0
    ensures CloseLine(cmd, code) != SuccessLine(cmd)
  {
    var fail := CloseLine(cmd, code);
    var ok := SuccessLine(cmd);
    var at := |"[" + cmd + "] "|;
    assert fail[at] == 'F' && ok[at] == 'C';
  }

  /** How `run` settles: it resolves exactly on exit code 0; a launch error rejects with its message, whatever the close after it. */
  function RunOutcome(cmd: string, trace: Trace): (r: Outcome)
    ensures r.Resolved? <==> trace.ending == Exited(0)
    ensures trace.ending.LaunchFailed? ==> r == Rejected(trace.ending.message)
  {
    match trace.ending
    case Exited(0) => Resolved
    case LaunchFailed(message, _) => Rejected(message)
    case _ => Rejected(FailureLine(cmd, trace.ending) + "\n" + StderrLog(trace.chunks))
  }

  /** A failed close rejects with the line it relayed last, a newline, and `stderrLog`. */
  lemma RejectionRepeatsLastLine(cmd: string, trace: Trace)
    requires !trace.ending.LaunchFailed? && trace.ending != Exited(0)
    ensures var r := RelayedLines(cmd, trace);
      RunOutcome(cmd, trace) == Rejected(r[|r| - 1] + "\n" + StderrLog(trace.chunks))
  {
    var r := RelayedLines(cmd, trace);
    assert r[|r| - 1] == EndLines(cmd, trace.ending)[0];
  }

  // ---------------------------------------------------------------------------
  // Properties
  // ---------------------------------------------------------------------------

  lemma {:induction false} ConcatBackAppend<T>(xs: seq<T>, ys: seq<T>, f: T -> string)
    ensures ConcatBack(xs + ys, f) == ConcatBack(xs, f) + ConcatBack(ys, f)
    decreases |ys|
  {
    if |ys| == 0 {
      assert xs + ys == xs;
    } else {
      var init := ys[..|ys| - 1];
      assert (xs + ys)[..|xs + ys| - 1] == xs + init;
      assert (xs + ys)[|xs + ys| - 1] == ys[|ys| - 1];
      ConcatBackAppend(xs, init, f);
    }
  }

  /** Accumulating from the back and reading from the front give the same text. */
  lemma {:induction false} ConcatBackIsFront<T>(xs: seq<T>, f: T -> string)
    ensures ConcatBack(xs, f) == ConcatFront(xs, f)
    decreases |xs|
  {
    if |xs| > 0 {
      ConcatBackIsFront(xs[1..], f);
      ConcatBackAppend(xs[..1], xs[1..], f);
      assert xs[..1] + xs[1..] == xs;
      assert xs[..1][..0] == [];
    }
  }

  /** Only stderr chunks contribute to the front-to-back concatenation, each as its trimmed line. */
  lemma {:induction false} PiecesAreStderrLines(chunks: seq<Chunk>)
    ensures ConcatFront(chunks, StderrPiece) == ConcatFront(Texts(StderrOnly(chunks)), Line)
    decreases |chunks|
  {
    if |chunks| > 0 {
      PiecesAreStderrLines(chunks[1..]);
      var rest := StderrOnly(chunks[1..]);
      if chunks[0].Stderr? {
        assert StderrOnly(chunks) == [chunks[0]] + rest;
        var t := Texts([chunks[0]] + rest);
        assert t[0] == chunks[0].text;
        assert t[1..] == Texts(rest);
      } else {
        assert StderrOnly(chunks) == rest;
      }
    }
  }

  /**
   * The accumulated `stderrLog` is the stderr chunks' texts, each trimmed and
   * followed by a newline, in arrival order; stdout chunks contribute nothing.
   */
  lemma StderrLogIsStderrLines(chunks: seq<Chunk>)
    ensures StderrLog(chunks) == ConcatFront(Texts(StderrOnly(chunks)), Line)
  {
    ConcatBackIsFront(chunks, StderrPiece);
    PiecesAreStderrLines(chunks);
  }

  /** Two runs that end alike and write the same stderr chunks settle alike, whatever they print on stdout. */
  lemma OutcomeIgnoresStdout(cmd: string, t1: Trace, t2: Trace)
    requires t1.ending == t2.ending && StderrOnly(t1.chunks) == StderrOnly(t2.chunks)
    ensures RunOutcome(cmd, t1) == RunOutcome(cmd, t2)
  {
    StderrLogIsStderrLines(t1.chunks);
    StderrLogIsStderrLines(t2.chunks);
  }

  /**
   * A failed exit: the rejection text is the failure line, then a newline,
   * then `stderrLog`; the digits after `Failed with code ` read back as the
   * exit code.
   */
  lemma FailureCarriesCode(cmd: string, chunks: seq<Chunk>, code: nat)
    requires code != 0
    ensures var prefix := "[" + cmd + "] Failed with code ";
      var digits := NatToDecimal(code);
      RunOutcome(cmd, Trace(chunks, Exited(code))) == Rejected(prefix + digits + "\n" + StderrLog(chunks)) &&
      DecimalValue(digits) == code && '\n' !in digits
  {
    DecimalRoundTrip(code);
    var digits := NatToDecimal(code);
    assert forall i :: 0 <= i < |digits| ==> digits[i] != '\n';
  }

  // ---------------------------------------------------------------------------
  // The procedure
  // ---------------------------------------------------------------------------

  /** The stdout and stderr handlers over all chunks: relays each chunk's line and returns `stderrLog`. */
  method RelayChunks(broker: LogBroker, requestId: string, chunks: seq<Chunk>) returns (stderrLog: string)
    requires broker.Valid()
    modifies broker
    ensures broker.Valid() && broker.clients == old(broker.clients) && broker.open == old(broker.open)
    ensures stderrLog == StderrLog(chunks)
    ensures broker.sent == if requestId != "" then DeliverAll(old(broker.sent), broker.clients, broker.open, requestId, ChunkLines(chunks))
                           else old(broker.sent)
  {
    stderrLog := "";
    for i := 0 to |chunks|
      invariant broker.Valid() && broker.clients == old(broker.clients) && broker.open == old(broker.open)
      invariant stderrLog == StderrLog(chunks[..i])
      invariant broker.sent == if requestId != "" then DeliverAll(old(broker.sent), broker.clients, broker.open, requestId, ChunkLines(chunks[..i]))
                               else old(broker.sent)
    {
      assert chunks[..i + 1][..i] == chunks[..i];
      ghost var lines := ChunkLines(chunks[..i + 1]);
      assert lines[..i] == ChunkLines(chunks[..i]);
      var log := Trim(chunks[i].text);
      if chunks[i].Stdout? {
        if requestId != "" {
          broker.SendLog(requestId, "[stdout] " + log);
        }
      } else {
        if requestId != "" {
          broker.SendLog(requestId, "[stderr] " + log);
        }
        stderrLog := stderrLog + log + "\n";
      }
    }
    assert chunks[..|chunks|] == chunks;
  }

  /**
   * The `close` and `error` handlers: the lines they relay, and how the
   * promise settles, given the `stderrLog` collected from the chunks.
   */
  method Settle(cmd: string, trace: Trace, stderrLog: string) returns (endLines: seq<string>, outcome: Outcome)
    requires stderrLog == StderrLog(trace.chunks)
    ensures endLines == EndLines(cmd, trace.ending)
    ensures outcome == RunOutcome(cmd, trace)
  {
    match trace.ending {
      case Exited(code) =>
        if code == 0 {
          endLines := ["[" + cmd + "] Completed successfully"];
          outcome := Resolved;
        } else {
          var errMsg := "[" + cmd + "] Failed with code " + NatToDecimal(code);
          endLines := [errMsg];
          outcome := Rejected(errMsg + "\n" + stderrLog);
          assert IntToDecimal(code) == NatToDecimal(code);
        }
      case Signaled =>
        var errMsg := "[" + cmd + "] Failed with code null";
        endLines := [errMsg];
        outcome := Rejected(errMsg + "\n" + stderrLog);
        assert FailureLine(cmd, trace.ending) == errMsg;
      case LaunchFailed(message, code) =>
        // `error` rejects first; the `close` that follows still relays its line, but cannot settle again.
        var closeLine := if code == 0 then "[" + cmd + "] Completed successfully"
                         else "[" + cmd + "] Failed with code " + IntToDecimal(code);
        endLines := ["[" + cmd + "] error: " + message, closeLine];
        outcome := Rejected(message);
    }
  }

  /** `sendLog` of each line in turn, when there is a request id. */
  method SendLines(broker: LogBroker, requestId: string, lines: seq<string>, ghost sent0: map<ConnId, seq<string>>, ghost done: seq<string>)
    requires broker.Valid()
    requires broker.sent == if requestId != "" then DeliverAll(sent0, broker.clients, broker.open, requestId, done) else sent0
    modifies broker
    ensures broker.Valid() && broker.clients == old(broker.clients) && broker.open == old(broker.open)
    ensures broker.sent == if requestId != "" then DeliverAll(sent0, broker.clients, broker.open, requestId, done + lines) else sent0
  {
    assert done + lines[..0] == done;
    for i := 0 to |lines|
      invariant broker.Valid() && broker.clients == old(broker.clients) && broker.open == old(broker.open)
      invariant broker.sent == if requestId != "" then DeliverAll(sent0, broker.clients, broker.open, requestId, done + lines[..i])
                               else sent0
    {
      if requestId != "" {
        broker.SendLog(requestId, lines[i]);
        ghost var all := done + lines[..i + 1];
        assert all[..|all| - 1] == done + lines[..i];
        assert DeliverAll(sent0, broker.clients, broker.open, requestId, all) ==
          Deliver(DeliverAll(sent0, broker.clients, broker.open, requestId, all[..|all| - 1]), broker.clients, broker.open, requestId, lines[i]);
      }
    }
    assert lines[..|lines|] == lines;
  }

  /**
   * `run`: relays each chunk's line as it arrives and appends each stderr
   * chunk to `stderrLog`, then relays the ending's lines and settles. With an
   * empty request id nothing is relayed.
   */
  method Run(broker: LogBroker, cmd: string, requestId: string, trace: Trace) returns (outcome: Outcome)
    requires broker.Valid()
    modifies broker
    ensures broker.Valid() && broker.clients == old(broker.clients) && broker.open == old(broker.open)
    ensures outcome == RunOutcome(cmd, trace)
    ensures broker.sent == if requestId != "" then DeliverAll(old(broker.sent), broker.clients, broker.open, requestId, RelayedLines(cmd, trace))
                           else old(broker.sent)
  {
    ghost var sent0 := broker.sent;
    var stderrLog := RelayChunks(broker, requestId, trace.chunks);
    var endLines;
    endLines, outcome := Settle(cmd, trace, stderrLog);
    SendLines(broker, requestId, endLines, sent0, ChunkLines(trace.chunks));
  }
}
