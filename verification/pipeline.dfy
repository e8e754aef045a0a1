/**
 * What the three upload endpoints share: the request's workspace under
 * `uploads/`, external tools launched one after another until one fails,
 * and build artifacts looked up in a directory listing by suffix. What
 * lies outside the server (the tools, `glob`, directory listings, file
 * reads) is an `Env` of functions.
 */
module Pipeline {
  import opened Wrappers
  import opened JsStrings
  import opened PosixPath
  import opened Files
  import opened ZipExtract
  import opened LogChannel
  import opened ProcessRunner

  /** One `run(cmd, args, cwd, requestId)`. */
  datatype Invocation = Invocation(cmd: string, args: seq<string>, cwd: string)

  /** The world outside the server, as functions of their inputs. */
  datatype Env = Env(
    run: Invocation -> Trace,                         // what a launched command prints and how it ends
    glob: string -> seq<string>,                      // the matches of a pattern, in the order `glob` returns them
    readdir: string -> Result<seq<string>, string>,   // `fs.readdir`: entry names, or the error's message
    readText: string -> Result<string, string>,       // `fs.readFile(p, 'utf8')`
    readBytes: string -> Result<Bytes, string>,       // `fs.readFile(p)`
    fsMessage: FsError -> string)                     // the message of a failed `fs.mkdirp`

  /** How the promise of one launch settles. */
  function Settles(env: Env, inv: Invocation): Outcome {
    RunOutcome(inv.cmd, env.run(inv))
  }

  /** `req.query.requestId || uuidv4()`: an empty query value counts as absent. */
  function RequestId(queryId: string, freshId: string): (r: string)
    ensures freshId != "" ==> r != ""
  {
    if queryId != "" then queryId else freshId
  }

  /** `path.join(__dirname, 'uploads', requestId)`. */
  function ProjectPath(serverDir: string, requestId: string): string {
    JoinPaths([serverDir, "uploads", requestId])
  }

  // ---------------------------------------------------------------------------
  // Stages
  // ---------------------------------------------------------------------------

  /** The first stage that fails, if any. */
  function FirstFailure(env: Env, stages: seq<Invocation>): (r: Option<nat>)
    ensures r.Some? ==> r.value < |stages| && Settles(env, stages[r.value]).Rejected? &&
                        forall j :: 0 <= j < r.value ==> Settles(env, stages[j]).Resolved?
    ensures r.None? ==> forall j :: 0 <= j < |stages| ==> Settles(env, stages[j]).Resolved?
    decreases |stages|
  {
    if |stages| == 0 then None
    else if Settles(env, stages[0]).Rejected? then Some(0)
    else match FirstFailure(env, stages[1..])
      case None => None
      case Some(i) => Some(i + 1)
  }

  /** The lines each launched stage relays, in launch order. */
  function StageLines(env: Env, invoked: seq<Invocation>): seq<string>
    decreases |invoked|
  {
    if |invoked| == 0 then []
    else
      var last := invoked[|invoked| - 1];
      StageLines(env, invoked[..|invoked| - 1]) + RelayedLines(last.cmd, env.run(last))
  }

  /** What a run of steps did: the commands launched, the lines relayed, and its value or the thrown error's message. */
  datatype Job<R> = Job(invoked: seq<Invocation>, logs: seq<string>, result: Result<R, string>)

  /** `await run(...)` for each stage in turn: the first rejection is thrown and nothing after it is launched. */
  function RunAll(env: Env, stages: seq<Invocation>): Job<()> {
    match FirstFailure(env, stages)
    case Some(i) => Job(stages[..i + 1], StageLines(env, stages[..i + 1]), Err(Settles(env, stages[i]).message))
    case None => Job(stages, StageLines(env, stages), Ok(()))
  }

  /**
   * Short-circuit: the launched stages are a prefix of the list; every one
   * but the last resolved; the run fails exactly when some stage fails, with
   * the message of the last one launched, and otherwise launches them all.
   */
  lemma StagesShortCircuit(env: Env, stages: seq<Invocation>)
    ensures var r := RunAll(env, stages);
      var n := |r.invoked|;
      n <= |stages| && r.invoked == stages[..n] && r.logs == StageLines(env, r.invoked) &&
      (forall k :: 0 <= k < n - 1 ==> Settles(env, stages[k]).Resolved?) &&
      (r.result.Err? <==> exists k :: 0 <= k < |stages| && Settles(env, stages[k]).Rejected?) &&
      (r.result.Err? ==> n >= 1 && Settles(env, stages[n - 1]) == Rejected(r.result.error)) &&
      (r.result.Ok? ==> r.invoked == stages)
  {
    var r := RunAll(env, stages);
    if FirstFailure(env, stages).None? {
      assert stages[..|stages|] == stages;
    }
  }

  /** The first `n` stages all resolve. */
  ghost predicate ResolvedBefore(env: Env, stages: seq<Invocation>, n: nat)
    requires n <= |stages|
    decreases n
  {
    n == 0 || (ResolvedBefore(env, stages, n - 1) && Settles(env, stages[n - 1]).Resolved?)
  }

  lemma {:induction false} ResolvedBeforeMeans(env: Env, stages: seq<Invocation>, n: nat)
    requires n <= |stages| && ResolvedBefore(env, stages, n)
    ensures forall j :: 0 <= j < n ==> Settles(env, stages[j]).Resolved?
    decreases n
  {
    if n > 0 {
      ResolvedBeforeMeans(env, stages, n - 1);
    }
  }

  /** The first stage that fails is the rejected one that every earlier stage precedes by resolving. */
  lemma FirstFailureAt(env: Env, stages: seq<Invocation>, k: nat)
    requires k < |stages| && Settles(env, stages[k]).Rejected? && ResolvedBefore(env, stages, k)
    ensures FirstFailure(env, stages) == Some(k)
  {
    ResolvedBeforeMeans(env, stages, k);
  }

  lemma StageLinesStep(env: Env, stages: seq<Invocation>, i: nat)
    requires i < |stages|
    ensures StageLines(env, stages[..i + 1]) ==
            StageLines(env, stages[..i]) + RelayedLines(stages[i].cmd, env.run(stages[i]))
  {
    assert stages[..i + 1][..i] == stages[..i];
  }

  /** One `await run(...)`, its relayed lines appended to the request's log. */
  method RunStage(broker: LogBroker, env: Env, inv: Invocation, requestId: string,
                  ghost sent0: map<ConnId, seq<string>>, logs: seq<string>)
    returns (outcome: Outcome, logs': seq<string>)
    requires broker.Valid() && requestId != ""
    requires broker.sent == DeliverAll(sent0, broker.clients, broker.open, requestId, logs)
    modifies broker
    ensures broker.Valid() && broker.clients == old(broker.clients) && broker.open == old(broker.open)
    ensures outcome == Settles(env, inv)
    ensures logs' == logs + RelayedLines(inv.cmd, env.run(inv))
    ensures broker.sent == DeliverAll(sent0, broker.clients, broker.open, requestId, logs')
  {
    outcome := Run(broker, inv.cmd, requestId, env.run(inv));
    var lines := RelayedLines(inv.cmd, env.run(inv));
    DeliverAllAppend(sent0, broker.clients, broker.open, requestId, logs, lines);
    logs' := logs + lines;
  }

  lemma ConcatAssoc<T>(a: seq<T>, b: seq<T>, c: seq<T>)
    ensures a + b + c == a + (b + c)
  {
  }

  /** The lines of launches followed by one more launch. */
  lemma StageLinesSnoc(env: Env, init: seq<Invocation>, last: Invocation)
    ensures StageLines(env, init + [last]) == StageLines(env, init) + RelayedLines(last.cmd, env.run(last))
  {
    assert (init + [last])[..|init|] == init;
  }

  /** The lines of a launch followed by those of later launches. */
  lemma {:induction false} StageLinesCons(env: Env, inv: Invocation, rest: seq<Invocation>)
    ensures StageLines(env, [inv] + rest) == RelayedLines(inv.cmd, env.run(inv)) + StageLines(env, rest)
    decreases |rest|
  {
    var head := RelayedLines(inv.cmd, env.run(inv));
    if |rest| == 0 {
      assert [inv] + rest == [] + [inv];
      StageLinesSnoc(env, [], inv);
    } else {
      var init := rest[..|rest| - 1];
      var last := rest[|rest| - 1];
      StageLinesCons(env, inv, init);
      assert rest == init + [last];
      assert [inv] + rest == ([inv] + init) + [last];
      StageLinesSnoc(env, [inv] + init, last);
      StageLinesSnoc(env, init, last);
      ConcatAssoc(head, StageLines(env, init), RelayedLines(last.cmd, env.run(last)));
    }
  }

  /** The chain of awaits, one stage at a time: a rejection stops it; a resolution leaves the rest to run. */
  lemma RunAllCons(env: Env, stages: seq<Invocation>)
    requires |stages| >= 1
    ensures var first := stages[0];
      var lines := RelayedLines(first.cmd, env.run(first));
      var rest := RunAll(env, stages[1..]);
      RunAll(env, stages) ==
        if Settles(env, first).Rejected? then Job([first], lines, Err(Settles(env, first).message))
        else Job([first] + rest.invoked, lines + rest.logs, rest.result)
  {
    var first := stages[0];
    assert stages == [first] + stages[1..];
    assert [first][..0] == [];
    if Settles(env, first).Rejected? {
      assert stages[..1] == [first];
      StageLinesCons(env, first, []);
    } else {
      match FirstFailure(env, stages[1..])
      case Some(i) =>
        assert stages[..i + 2] == [first] + stages[1..][..i + 1];
        StageLinesCons(env, first, stages[1..][..i + 1]);
      case None =>
        StageLinesCons(env, first, stages[1..]);
    }
  }

  /** A run depends on the outside world only through what the listed stages do. */
  lemma {:induction false} RunAllAgrees(env1: Env, env2: Env, stages: seq<Invocation>)
    requires forall k :: 0 <= k < |stages| ==> env1.run(stages[k]) == env2.run(stages[k])
    ensures RunAll(env1, stages) == RunAll(env2, stages)
    decreases |stages|
  {
    if |stages| > 0 {
      var tail := stages[1..];
      forall k | 0 <= k < |tail|
        ensures env1.run(tail[k]) == env2.run(tail[k])
      {
        assert tail[k] == stages[k + 1];
      }
      RunAllAgrees(env1, env2, tail);
      assert env1.run(stages[0]) == env2.run(stages[0]);
      RunAllCons(env1, stages);
      RunAllCons(env2, stages);
    }
  }

  /** A run that succeeds launched every stage. */
  lemma RunAllOkLaunchesAll(env: Env, stages: seq<Invocation>)
    ensures RunAll(env, stages).result.Ok? ==> RunAll(env, stages).invoked == stages
  {
  }

  /** When every listed stage runs in `dir`, so does every stage launched. */
  lemma RunAllInDir(env: Env, stages: seq<Invocation>, dir: string)
    requires forall k :: 0 <= k < |stages| ==> stages[k].cwd == dir
    ensures forall k :: 0 <= k < |RunAll(env, stages).invoked| ==> RunAll(env, stages).invoked[k].cwd == dir
  {
    StagesShortCircuit(env, stages);
  }

  /** The stage runner: launches stages in order until one rejects. */
  method RunStages(broker: LogBroker, env: Env, stages: seq<Invocation>, requestId: string,
                   ghost sent0: map<ConnId, seq<string>>, before: seq<string>)
    returns (job: Job<()>)
    requires broker.Valid() && requestId != ""
    requires broker.sent == DeliverAll(sent0, broker.clients, broker.open, requestId, before)
    modifies broker
    ensures broker.Valid() && broker.clients == old(broker.clients) && broker.open == old(broker.open)
    ensures job == RunAll(env, stages)
    ensures broker.sent == DeliverAll(sent0, broker.clients, broker.open, requestId, before + job.logs)
    decreases |stages|
  {
    if |stages| == 0 {
      assert before + [] == before;
      return Job([], [], Ok(()));
    }
    RunAllCons(env, stages);
    var first := stages[0];
    var outcome, all := RunStage(broker, env, first, requestId, sent0, before);
    var lines := RelayedLines(first.cmd, env.run(first));
    if outcome.Rejected? {
      return Job([first], lines, Err(outcome.message));
    }
    var rest := RunStages(broker, env, stages[1..], requestId, sent0, all);
    ConcatAssoc(before, lines, rest.logs);
    job := Job([first] + rest.invoked, lines + rest.logs, rest.result);
  }

  /** `sendLog(requestId, line)`, with the line recorded in the request's log. */
  method Relay(broker: LogBroker, requestId: string, line: string,
               ghost sent0: map<ConnId, seq<string>>, logs: seq<string>)
    returns (logs': seq<string>)
    requires broker.Valid()
    requires broker.sent == DeliverAll(sent0, broker.clients, broker.open, requestId, logs)
    modifies broker
    ensures broker.Valid() && broker.clients == old(broker.clients) && broker.open == old(broker.open)
    ensures logs' == logs + [line]
    ensures broker.sent == DeliverAll(sent0, broker.clients, broker.open, requestId, logs')
  {
    broker.SendLog(requestId, line);
    logs' := logs + [line];
    assert logs'[..|logs'| - 1] == logs;
  }

  // ---------------------------------------------------------------------------
  // Artifacts
  // ---------------------------------------------------------------------------

  /** `files.find(f => f.endsWith(suffix))`, as an index: the first listed name with that suffix. */
  function FindSuffix(files: seq<string>, suffix: string): (r: Option<nat>)
    ensures r.Some? ==> r.value < |files| && EndsWith(files[r.value], suffix) &&
                        forall j :: 0 <= j < r.value ==> !EndsWith(files[j], suffix)
    ensures r.None? ==> forall j :: 0 <= j < |files| ==> !EndsWith(files[j], suffix)
    decreases |files|
  {
    if |files| == 0 then None
    else if EndsWith(files[0], suffix) then Some(0)
    else match FindSuffix(files[1..], suffix)
      case None => None
      case Some(i) => Some(i + 1)
  }

  /** The first listed name with a suffix, or the error thrown when there is none. */
  function Artifact(files: seq<string>, suffix: string, missing: string): (r: Result<string, string>)
    ensures r.Err? <==> forall j :: 0 <= j < |files| ==> !EndsWith(files[j], suffix)
    ensures r.Err? ==> r.error == missing
    ensures r.Ok? ==> exists i :: 0 <= i < |files| && files[i] == r.value && EndsWith(r.value, suffix) &&
                                  forall j :: 0 <= j < i ==> !EndsWith(files[j], suffix)
  {
    match FindSuffix(files, suffix)
    case None => Err(missing)
    case Some(i) => Ok(files[i])
  }

  // ---------------------------------------------------------------------------
  // The workspace
  // ---------------------------------------------------------------------------

  /** The file system after `fs.mkdirp(projectPath)` and `extractZipStripRoot`, and the message either threw. */
  datatype Workspace = Workspace(nodes: map<Path, Node>, failure: Option<string>)

  function Prepare(env: Env, m: map<Path, Node>, archive: Archive, projectPath: string): Workspace {
    match MakeDirsIn(m, Segments(projectPath))
    case Err(e) => Workspace(m, Some(env.fsMessage(e)))
    case Ok(m1) =>
      match archive
      case Unreadable(reason) => Workspace(m1, Some(reason))
      case Loaded(entries) => Workspace(ExtractAll(m1, entries, RootPrefix(Names(entries)), projectPath), None)
  }

  /** `await fs.mkdirp(projectPath); await extractZipStripRoot(zipBuffer, projectPath);` */
  method PrepareWorkspace(fs: FileSystem, env: Env, archive: Archive, projectPath: string) returns (failure: Option<string>)
    requires fs.Valid()
    modifies fs
    ensures fs.Valid()
    ensures Workspace(fs.nodes, failure) == Prepare(env, old(fs.nodes), archive, projectPath)
  {
    var err := fs.MakeDirs(Segments(projectPath));
    if err.Some? {
      return Some(env.fsMessage(err.value));
    }
    failure := ExtractZipStripRoot(fs, archive, projectPath);
  }

  /**
   * Preparing the workspace of a project directory `ts` keeps the tree
   * closed and deletes nothing. It adds only the missing ancestors of `ts`
   * and paths the extraction guard admits. It changes no existing path that
   * the guard does not admit.
   */
  lemma WorkspaceStaysInReach(env: Env, m: map<Path, Node>, archive: Archive, ts: seq<string>)
    requires TreeClosed(m) && AllNames(ts) && |ts| >= 1
    ensures var r := Prepare(env, m, archive, Render(ts)).nodes;
      TreeClosed(r) &&
      (forall q :: q in m ==> q in r) &&
      (forall q :: q in r && q !in m ==> IsPrefix(q, ts) || PrefixAdmits(q, ts)) &&
      (forall q :: q in m && !PrefixAdmits(q, ts) ==> r[q] == m[q])
  {
    RenderRoundTrip(ts);
    match MakeDirsIn(m, ts)
    case Err(_) =>
    case Ok(m1) =>
      MakeDirsKeepsTree(m, ts);
      assert ts[..|ts|] == ts;
      if archive.Loaded? {
        ExtractionStaysInReach(m1, archive.entries, RootPrefix(Names(archive.entries)), ts);
      }
  }

  /**
   * The `finally` cleanup removes `ts` and everything under it. What the
   * request leaves behind is only the ancestors `mkdirp` created and the
   * siblings of `ts` that the guard let through. Everything else keeps its
   * place and content.
   */
  lemma CleanupLeavesOnlyStrays(env: Env, m: map<Path, Node>, archive: Archive, ts: seq<string>)
    requires TreeClosed(m) && AllNames(ts) && |ts| >= 1
    ensures var r := RemoveIn(Prepare(env, m, archive, Render(ts)).nodes, ts);
      TreeClosed(r) &&
      (forall q :: q in r ==> !Within(q, ts)) &&
      (forall q :: q in r && q !in m ==> (IsPrefix(q, ts) && |q| < |ts|) || (PrefixAdmits(q, ts) && !Within(q, ts))) &&
      (forall q :: q in m && !Within(q, ts) && !PrefixAdmits(q, ts) ==> q in r && r[q] == m[q])
  {
    var w := Prepare(env, m, archive, Render(ts)).nodes;
    WorkspaceStaysInReach(env, m, archive, ts);
    RemoveKeepsTree(w, ts);
    var r := RemoveIn(w, ts);
    forall q | q in r && q !in m && IsPrefix(q, ts)
      ensures |q| < |ts|
    {
      assert !Within(q, ts);
      assert q[..|q|] == q;
    }
  }

  // ---------------------------------------------------------------------------
  // The project path
  // ---------------------------------------------------------------------------

  /** `path.join(t, a, b)` for three non-empty arguments normalizes their slash-joined text. */
  lemma JoinThree(t: string, a: string, b: string)
    requires t != "" && a != "" && b != ""
    ensures JoinPaths([t, a, b]) == Normalize(t + "/" + (a + "/" + b))
  {
    assert [t, a, b][1..] == [a, b] && [a, b][1..] == [b] && [b][1..] == [];
    assert NonEmpty([b]) == [b];
    assert NonEmpty([a, b]) == [a] + NonEmpty([b]);
    assert NonEmpty([t, a, b]) == [t, a, b];
    assert Join([a, b]) == a + "/" + b;
    assert Join([t, a, b]) == t + "/" + Join([a, b]);
  }

  /** The segments of an absolute rendering followed by two more slash-separated segments. */
  lemma SegmentsOfTwoMore(ds: seq<string>, a: string, b: string)
    requires AllNames(ds) && '/' !in a && '/' !in b
    ensures Segments(Render(ds) + "/" + (a + "/" + b)) == Resolve(ds, [a, b], false)
  {
    var t := Render(ds);
    var s := a + "/" + b;
    SplitAppend(t, s);
    SplitJoin([a, b]);
    assert Join([a, b]) == s;
    RenderRoundTrip(ds);
    ResolveAppend([], Split(t), Split(s), false);
  }

  /** For a request id that is a plain name, the project directory is `uploads/<id>` under the server's directory. */
  lemma ProjectPathOfName(ds: seq<string>, rid: string)
    requires AllNames(ds) && IsName(rid)
    ensures ProjectPath(Render(ds), rid) == Render(ds + ["uploads", rid])
  {
    var joined := Render(ds) + "/" + ("uploads" + "/" + rid);
    JoinThree(Render(ds), "uploads", rid);
    assert Segments(joined) == ds + ["uploads", rid] by {
      SegmentsOfTwoMore(ds, "uploads", rid);
      ResolveTwoNames(ds, "uploads", rid);
    }
    NormalizeAbsolute(joined);
    assert joined[|joined| - 1] == rid[|rid| - 1];
  }

  /**
   * The request id is taken from the query string unchecked: the id `..`
   * makes the project directory the server's own directory, which the
   * `finally` cleanup of `/compile` and `/generate-proof` then removes.
   */
  lemma ParentIdIsServerDir(ds: seq<string>)
    requires AllNames(ds) && |ds| >= 1
    ensures ProjectPath(Render(ds), "..") == Render(ds)
  {
    var joined := Render(ds) + "/" + ("uploads" + "/" + "..");
    JoinThree(Render(ds), "uploads", "..");
    SegmentsOfTwoMore(ds, "uploads", "..");
    assert Resolve(ds, ["uploads", ".."], false) == ds by {
      assert Step(ds, "uploads", false) == ds + ["uploads"];
      assert Step(ds + ["uploads"], "..", false) == ds;
      assert ["uploads", ".."][1..] == [".."];
      assert [".."][1..] == [];
    }
    NormalizeAbsolute(joined);
    assert joined[|joined| - 1] == '.';
  }
}
