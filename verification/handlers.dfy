/**
 * The three upload endpoints. Each takes the uploaded archive (absent when
 * the form carried no file) and makes the workspace `uploads/<requestId>`
 * under the server's directory. It extracts the archive there and runs the
 * tools one after another. It answers with the artifacts or with the first
 * error thrown, and relays progress lines on the log channel under the
 * request id.
 *
 * Each endpoint's `try` block is a function from the outside world to a
 * `Job`: the commands launched, the lines relayed, and the value or the
 * error. Its handler method relays and answers as the `catch` block does,
 * and cleans up as the `finally` block does.
 */
module Handlers {
  import opened Wrappers
  import opened JsStrings
  import opened PosixPath
  import opened Files
  import opened ZipExtract
  import opened LogChannel
  import opened ProcessRunner
  import opened ZipWriter
  import opened Pipeline

  /** The HTTP answer. */
  datatype Response =
    | BadRequest(error: string)                                                       // 400, JSON
    | Compiled(requestId: string, compiledJson: string, proverToml: string)            // 200, JSON
    | Proved(requestId: string, proof: string, vk: string, verifier: string)           // 200, JSON
    | ZipDownload(filename: string, names: seq<string>, contents: map<string, ZipWriter.Entry>)  // 200, application/zip
    | ServerError(error: string)                                                       // 500, JSON

  const NoFile := "No file provided"
  const NoProver := "Prover.toml not found in uploaded zip"
  const NoCairo := "No Cairo verifier files found"

  /** The lines a request relays: its job's, then the `catch` block's line when the job failed. */
  function CatchLogs<R>(job: Job<R>, prefix: string): seq<string> {
    job.logs + (if job.result.Err? then [prefix + job.result.error] else [])
  }

  /** `/compile`'s answer: 200 with the circuit and Prover.toml, or 500 with the error's message. */
  function CompileResponse(requestId: string, result: Result<(string, string), string>): Response {
    match result
    case Ok(found) => Compiled(requestId, found.0, found.1)
    case Err(e) => ServerError(e)
  }

  /** `/generate-proof`'s answer: 200 with the three artifacts, or 500 with the error's message. */
  function ProofResponse(requestId: string, result: Result<(string, string, string), string>): Response {
    match result
    case Ok(texts) => Proved(requestId, texts.0, texts.1, texts.2)
    case Err(e) => ServerError(e)
  }

  /** `/generate-proof-with-verifier`'s answer: the archive as `verifier_<requestId>.zip`, or 500 with the error's message. */
  function VerifierResponse(requestId: string, result: Result<Listing, string>): Response {
    match result
    case Ok(listing) => ZipDownload("verifier_" + requestId + ".zip", listing.names, listing.contents)
    case Err(e) => ServerError(e)
  }

  /** A character Node accepts in a header value: tab, printable ASCII, or `\u0080` to `\u00FF`. */
  predicate HeaderChar(c: char) {
    c == '\t' || (' ' <= c <= '~') || ('\U{80}' <= c <= '\U{FF}')
  }

  /** Node's `setHeader` accepts a value exactly when every character is a header character. */
  predicate HeaderSafe(value: string) {
    forall i :: 0 <= i < |value| ==> HeaderChar(value[i])
  }

  /** The message of the `TypeError` `setHeader` throws for a refused value. */
  const InvalidDisposition := "Invalid character in header content [\"Content-Disposition\"]"

  /** The `Content-Disposition` value the verifier endpoint sets. */
  function Disposition(requestId: string): string {
    "attachment; filename=verifier_" + requestId + ".zip"
  }

  /**
   * The last step of the verifier `try` block: `res.set('Content-Disposition', ...)`
   * throws, after everything else has run, when the value holds a character
   * Node refuses.
   */
  function SetDisposition(requestId: string, job: Job<Listing>): Job<Listing> {
    if job.result.Ok? && !HeaderSafe(Disposition(requestId)) then Job(job.invoked, job.logs, Err(InvalidDisposition))
    else job
  }

  /** The fixed parts of the header value are accepted, so the value is refused exactly when the request id holds a refused character. */
  lemma DispositionSafe(requestId: string)
    ensures HeaderSafe(Disposition(requestId)) <==> HeaderSafe(requestId)
  {
    var pre := "attachment; filename=verifier_";
    var v := Disposition(requestId);
    assert forall i :: 0 <= i < |pre| ==> HeaderChar(pre[i]);
    assert forall i :: 0 <= i < |".zip"| ==> HeaderChar(".zip"[i]);
    assert forall i :: 0 <= i < |requestId| ==> v[|pre| + i] == requestId[i];
    assert forall i :: 0 <= i < |v| ==> (i < |pre| ==> v[i] == pre[i]) && (|pre| + |requestId| <= i ==> v[i] == ".zip"[i - |pre| - |requestId|]);
  }

  /**
   * How the verifier endpoint answers a `try` block that got as far as the
   * archive: the download when the request id is a valid header value,
   * otherwise 500 with the `TypeError`'s message, relayed by the `catch`;
   * a failure earlier answers 500 with its own message.
   */
  lemma VerifierAnswer(requestId: string, job: Job<Listing>)
    ensures var done := SetDisposition(requestId, job);
      var r := VerifierResponse(requestId, done.result);
      done.invoked == job.invoked &&
      (job.result.Ok? && HeaderSafe(requestId) ==>
         r == ZipDownload("verifier_" + requestId + ".zip", job.result.value.names, job.result.value.contents) &&
         CatchLogs(done, "generate-proof failed: ") == job.logs) &&
      (job.result.Ok? && !HeaderSafe(requestId) ==>
         r == ServerError(InvalidDisposition) &&
         CatchLogs(done, "generate-proof failed: ") == job.logs + ["generate-proof failed: " + InvalidDisposition]) &&
      (job.result.Err? ==> r == ServerError(job.result.error))
  {
    DispositionSafe(requestId);
  }

  /** The `catch` block: relays the error's line when the job failed. */
  method Catch<R>(broker: LogBroker, requestId: string, job: Job<R>, prefix: string, ghost sent0: map<ConnId, seq<string>>)
    returns (logs: seq<string>)
    requires broker.Valid() && broker.sent == DeliverAll(sent0, broker.clients, broker.open, requestId, job.logs)
    modifies broker
    ensures broker.Valid() && broker.clients == old(broker.clients) && broker.open == old(broker.open)
    ensures logs == CatchLogs(job, prefix)
    ensures broker.sent == DeliverAll(sent0, broker.clients, broker.open, requestId, logs)
  {
    logs := job.logs;
    if job.result.Err? {
      logs := Relay(broker, requestId, prefix + job.result.error, sent0, logs);
    }
  }

  // ---------------------------------------------------------------------------
  // The commands
  // ---------------------------------------------------------------------------

  function CompileStages(dir: string): seq<Invocation> {
    [Invocation("nargo", ["compile"], dir), Invocation("nargo", ["check"], dir)]
  }

  function ExecuteStage(dir: string): Invocation {
    Invocation("nargo", ["execute"], dir)
  }

  function ProveStages(dir: string, jsonFile: string, gzFile: string): (r: seq<Invocation>)
    ensures |r| == 3 && forall k :: 0 <= k < 3 ==> r[k].cmd == "bb" && r[k].cwd == dir
  {
    [Invocation("bb", ["prove", "-b", "target/" + jsonFile, "-w", "target/" + gzFile, "-o", "target"], dir),
     Invocation("bb", ["write_vk", "-b", "target/" + jsonFile, "-o", "target", "--oracle_hash", "keccak"], dir),
     Invocation("bb", ["write_solidity_verifier", "-k", "target/vk", "-o", "target/Verifier.sol"], dir)]
  }

  const GaragaPath := "/home/ubuntu/garaga-venv/bin/garaga"

  function GaragaStage(dir: string): Invocation {
    Invocation(GaragaPath, ["gen", "--system", "ultra_keccak_honk", "--vk", "target/vk", "--project-name", "verifier"], dir)
  }

  // ---------------------------------------------------------------------------
  // /compile
  // ---------------------------------------------------------------------------

  /** After the two `nargo` stages: the first `.json` listed in `target/`, and `Prover.toml`, as text. */
  function CompileArtifacts(env: Env, projectPath: string): Result<(string, string), string> {
    var targetDir := JoinPaths([projectPath, "target"]);
    var files :- env.readdir(targetDir);
    var jsonFile :- Artifact(files, ".json", "Compiled JSON file not found");
    var json :- env.readText(JoinPaths([targetDir, jsonFile]));
    var prover :- env.readText(JoinPaths([projectPath, "Prover.toml"]));
    Ok((json, prover))
  }

  /** The `try` block of `/compile`, given how preparing the workspace went. */
  function CompileJob(env: Env, prepared: Option<string>, projectPath: string): Job<(string, string)> {
    if prepared.Some? then Job([], [], Err(prepared.value))
    else
      var stages := RunAll(env, CompileStages(projectPath));
      if stages.result.Err? then Job(stages.invoked, stages.logs, Err(stages.result.error))
      else match CompileArtifacts(env, projectPath)
        case Err(e) => Job(stages.invoked, stages.logs, Err(e))
        case Ok(found) => Job(stages.invoked, stages.logs + ["Compilation succeeded!"], Ok(found))
  }

  method TryCompile(fs: FileSystem, broker: LogBroker, env: Env, archive: Archive, projectPath: string,
                    requestId: string, ghost sent0: map<ConnId, seq<string>>)
    returns (job: Job<(string, string)>)
    requires fs.Valid() && broker.Valid() && requestId != "" && broker.sent == sent0
    modifies fs, broker
    ensures fs.Valid() && broker.Valid() && broker.clients == old(broker.clients) && broker.open == old(broker.open)
    ensures var ws := Prepare(env, old(fs.nodes), archive, projectPath);
      fs.nodes == ws.nodes && job == CompileJob(env, ws.failure, projectPath)
    ensures broker.sent == DeliverAll(sent0, broker.clients, broker.open, requestId, job.logs)
  {
    var failure := PrepareWorkspace(fs, env, archive, projectPath);
    if failure.Some? {
      return Job([], [], Err(failure.value));
    }
    var stages := RunStages(broker, env, CompileStages(projectPath), requestId, sent0, []);
    assert [] + stages.logs == stages.logs;
    if stages.result.Err? {
      return Job(stages.invoked, stages.logs, Err(stages.result.error));
    }
    var found := CompileArtifacts(env, projectPath);
    if found.Err? {
      return Job(stages.invoked, stages.logs, Err(found.error));
    }
    var logs := Relay(broker, requestId, "Compilation succeeded!", sent0, stages.logs);
    job := Job(stages.invoked, logs, Ok(found.value));
  }

  /**
   * `POST /compile`. Without a file: 400 and nothing else. Otherwise the
   * `try` block runs; an error is relayed as `Compilation failed: ...` and
   * answered with 500; either way the workspace is removed at the end.
   */
  method Compile(fs: FileSystem, broker: LogBroker, env: Env, serverDir: string, queryId: string, freshId: string,
                 upload: Option<Archive>)
    returns (response: Response, invoked: seq<Invocation>, logs: seq<string>)
    requires fs.Valid() && broker.Valid() && freshId != ""
    modifies fs, broker
    ensures fs.Valid() && broker.Valid() && broker.clients == old(broker.clients) && broker.open == old(broker.open)
    ensures broker.sent == DeliverAll(old(broker.sent), broker.clients, broker.open, RequestId(queryId, freshId), logs)
    ensures upload.None? ==> response == BadRequest(NoFile) && invoked == [] && logs == [] && fs.nodes == old(fs.nodes)
    ensures upload.Some? ==>
      var requestId := RequestId(queryId, freshId);
      var projectPath := ProjectPath(serverDir, requestId);
      var ws := Prepare(env, old(fs.nodes), upload.value, projectPath);
      var job := CompileJob(env, ws.failure, projectPath);
      invoked == job.invoked &&
      response == CompileResponse(requestId, job.result) &&
      logs == CatchLogs(job, "Compilation failed: ") &&
      fs.nodes == RemoveIn(ws.nodes, Segments(projectPath))
  {
    var requestId := RequestId(queryId, freshId);
    var projectPath := ProjectPath(serverDir, requestId);
    if upload.None? {
      return BadRequest(NoFile), [], [];
    }
    response, invoked, logs := CompileUpload(fs, broker, env, upload.value, requestId, projectPath);
  }

  /** The `try`, `catch` and `finally` blocks for an uploaded archive. */
  method CompileUpload(fs: FileSystem, broker: LogBroker, env: Env, archive: Archive, requestId: string, projectPath: string)
    returns (response: Response, invoked: seq<Invocation>, logs: seq<string>)
    requires fs.Valid() && broker.Valid() && requestId != ""
    modifies fs, broker
    ensures fs.Valid() && broker.Valid() && broker.clients == old(broker.clients) && broker.open == old(broker.open)
    ensures broker.sent == DeliverAll(old(broker.sent), broker.clients, broker.open, requestId, logs)
    ensures var ws := Prepare(env, old(fs.nodes), archive, projectPath);
      var job := CompileJob(env, ws.failure, projectPath);
      invoked == job.invoked &&
      response == CompileResponse(requestId, job.result) &&
      logs == CatchLogs(job, "Compilation failed: ") &&
      fs.nodes == RemoveIn(ws.nodes, Segments(projectPath))
  {
    ghost var sent0 := broker.sent;
    var job := TryCompile(fs, broker, env, archive, projectPath, requestId, sent0);
    invoked := job.invoked;
    logs := Catch(broker, requestId, job, "Compilation failed: ", sent0);
    response := CompileResponse(requestId, job.result);
    fs.Remove(Segments(projectPath));
  }

  // ---------------------------------------------------------------------------
  // What both proof endpoints do
  // ---------------------------------------------------------------------------

  /** The first circuit (`.json`) and the first witness (`.gz`) listed in `target/`. */
  function WitnessInputs(readdir: string -> Result<seq<string>, string>, targetDir: string): Result<(string, string), string> {
    var files :- readdir(targetDir);
    var jsonFile :- Artifact(files, ".json", "Compiled circuit JSON not found in target/");
    var gzFile :- Artifact(files, ".gz", "Witness file (.gz) not found in target/");
    Ok((jsonFile, gzFile))
  }

  function FoundLine(proverPath: string): string {
    "[debug] Found Prover.toml at: " + proverPath
  }

  function WitnessLine(gzFile: string): string {
    "[generate-proof] Using witness file: target/" + gzFile
  }

  /**
   * From the Prover.toml search to the three `bb` stages. The tools run in
   * the project directory or, with `atProver`, in the directory of the first
   * Prover.toml found; a success carries that directory.
   */
  function ProveSteps(env: Env, projectPath: string, atProver: bool): Job<string> {
    var found := env.glob(JoinPaths([projectPath, "**/Prover.toml"]));
    if |found| == 0 then Job([], [], Err(NoProver))
    else
      var rest := ProveIn(env, if atProver then Dirname(found[0]) else projectPath);
      Job(rest.invoked, [FoundLine(found[0])] + rest.logs, rest.result)
  }

  /** `nargo execute`, then the three `bb` stages on the first circuit and witness listed in `target/`, all in `dir`. */
  function ProveIn(env: Env, dir: string): Job<string> {
    var exec := RunAll(env, [ExecuteStage(dir)]);
    if exec.result.Err? then Job(exec.invoked, exec.logs, Err(exec.result.error))
    else match WitnessInputs(env.readdir, JoinPaths([dir, "target"]))
      case Err(e) => Job(exec.invoked, exec.logs, Err(e))
      case Ok(inputs) =>
        var prove := RunAll(env, ProveStages(dir, inputs.0, inputs.1));
        Job(exec.invoked + prove.invoked,
            exec.logs + [WitnessLine(inputs.1)] + prove.logs,
            if prove.result.Err? then Err(prove.result.error) else Ok(dir))
  }

  method RunProveSteps(broker: LogBroker, env: Env, projectPath: string, atProver: bool, requestId: string,
                       ghost sent0: map<ConnId, seq<string>>)
    returns (job: Job<string>)
    requires broker.Valid() && requestId != "" && broker.sent == sent0
    modifies broker
    ensures broker.Valid() && broker.clients == old(broker.clients) && broker.open == old(broker.open)
    ensures job == ProveSteps(env, projectPath, atProver)
    ensures broker.sent == DeliverAll(sent0, broker.clients, broker.open, requestId, job.logs)
  {
    var found := env.glob(JoinPaths([projectPath, "**/Prover.toml"]));
    if |found| == 0 {
      return Job([], [], Err(NoProver));
    }
    var dir := if atProver then Dirname(found[0]) else projectPath;
    var logs := Relay(broker, requestId, FoundLine(found[0]), sent0, []);
    var rest := RunProveIn(broker, env, dir, requestId, sent0, logs);
    job := Job(rest.invoked, logs + rest.logs, rest.result);
  }

  method RunProveIn(broker: LogBroker, env: Env, dir: string, requestId: string,
                    ghost sent0: map<ConnId, seq<string>>, before: seq<string>)
    returns (job: Job<string>)
    requires broker.Valid() && requestId != ""
    requires broker.sent == DeliverAll(sent0, broker.clients, broker.open, requestId, before)
    modifies broker
    ensures broker.Valid() && broker.clients == old(broker.clients) && broker.open == old(broker.open)
    ensures job == ProveIn(env, dir)
    ensures broker.sent == DeliverAll(sent0, broker.clients, broker.open, requestId, before + job.logs)
  {
    var exec := RunStages(broker, env, [ExecuteStage(dir)], requestId, sent0, before);
    if exec.result.Err? {
      return Job(exec.invoked, exec.logs, Err(exec.result.error));
    }
    var inputs := WitnessInputs(env.readdir, JoinPaths([dir, "target"]));
    if inputs.Err? {
      return Job(exec.invoked, exec.logs, Err(inputs.error));
    }
    var logs := Relay(broker, requestId, WitnessLine(inputs.value.1), sent0, before + exec.logs);
    var prove := RunStages(broker, env, ProveStages(dir, inputs.value.0, inputs.value.1), requestId, sent0, logs);
    var lines := exec.logs + [WitnessLine(inputs.value.1)];
    ConcatAssoc(before, exec.logs, [WitnessLine(inputs.value.1)]);
    ConcatAssoc(before, lines, prove.logs);
    job := Job(exec.invoked + prove.invoked, lines + prove.logs,
               if prove.result.Err? then Err(prove.result.error) else Ok(dir));
  }

  // ---------------------------------------------------------------------------
  // /generate-proof
  // ---------------------------------------------------------------------------

  /** `proof`, `vk` and `Verifier.sol` from `target/`, as text. */
  function ProofTexts(env: Env, targetDir: string): Result<(string, string, string), string> {
    var proof :- env.readText(JoinPaths([targetDir, "proof"]));
    var vk :- env.readText(JoinPaths([targetDir, "vk"]));
    var verifier :- env.readText(JoinPaths([targetDir, "Verifier.sol"]));
    Ok((proof, vk, verifier))
  }

  /** The `try` block of `/generate-proof`: every tool runs in the project directory. */
  function ProofJob(env: Env, prepared: Option<string>, projectPath: string): Job<(string, string, string)> {
    if prepared.Some? then Job([], [], Err(prepared.value))
    else
      var steps := ProveSteps(env, projectPath, false);
      if steps.result.Err? then Job(steps.invoked, steps.logs, Err(steps.result.error))
      else match ProofTexts(env, JoinPaths([projectPath, "target"]))
        case Err(e) => Job(steps.invoked, steps.logs, Err(e))
        case Ok(texts) => Job(steps.invoked, steps.logs + ["Proof + Verifier generated successfully."], Ok(texts))
  }

  method TryProof(fs: FileSystem, broker: LogBroker, env: Env, archive: Archive, projectPath: string,
                  requestId: string, ghost sent0: map<ConnId, seq<string>>)
    returns (job: Job<(string, string, string)>)
    requires fs.Valid() && broker.Valid() && requestId != "" && broker.sent == sent0
    modifies fs, broker
    ensures fs.Valid() && broker.Valid() && broker.clients == old(broker.clients) && broker.open == old(broker.open)
    ensures var ws := Prepare(env, old(fs.nodes), archive, projectPath);
      fs.nodes == ws.nodes && job == ProofJob(env, ws.failure, projectPath)
    ensures broker.sent == DeliverAll(sent0, broker.clients, broker.open, requestId, job.logs)
  {
    var failure := PrepareWorkspace(fs, env, archive, projectPath);
    if failure.Some? {
      return Job([], [], Err(failure.value));
    }
    var steps := RunProveSteps(broker, env, projectPath, false, requestId, sent0);
    if steps.result.Err? {
      return Job(steps.invoked, steps.logs, Err(steps.result.error));
    }
    var texts := ProofTexts(env, JoinPaths([projectPath, "target"]));
    if texts.Err? {
      return Job(steps.invoked, steps.logs, Err(texts.error));
    }
    var logs := Relay(broker, requestId, "Proof + Verifier generated successfully.", sent0, steps.logs);
    job := Job(steps.invoked, logs, Ok(texts.value));
  }

  /**
   * `POST /generate-proof`. Without a file: 400. Otherwise the `try` block
   * runs; an error is relayed as `generate-proof failed: ...` and answered
   * with 500; either way the workspace is removed at the end.
   */
  method GenerateProof(fs: FileSystem, broker: LogBroker, env: Env, serverDir: string, queryId: string, freshId: string,
                       upload: Option<Archive>)
    returns (response: Response, invoked: seq<Invocation>, logs: seq<string>)
    requires fs.Valid() && broker.Valid() && freshId != ""
    modifies fs, broker
    ensures fs.Valid() && broker.Valid() && broker.clients == old(broker.clients) && broker.open == old(broker.open)
    ensures broker.sent == DeliverAll(old(broker.sent), broker.clients, broker.open, RequestId(queryId, freshId), logs)
    ensures upload.None? ==> response == BadRequest(NoFile) && invoked == [] && logs == [] && fs.nodes == old(fs.nodes)
    ensures upload.Some? ==>
      var requestId := RequestId(queryId, freshId);
      var projectPath := ProjectPath(serverDir, requestId);
      var ws := Prepare(env, old(fs.nodes), upload.value, projectPath);
      var job := ProofJob(env, ws.failure, projectPath);
      invoked == job.invoked &&
      response == ProofResponse(requestId, job.result) &&
      logs == CatchLogs(job, "generate-proof failed: ") &&
      fs.nodes == RemoveIn(ws.nodes, Segments(projectPath))
  {
    var requestId := RequestId(queryId, freshId);
    var projectPath := ProjectPath(serverDir, requestId);
    if upload.None? {
      return BadRequest(NoFile), [], [];
    }
    response, invoked, logs := ProofUpload(fs, broker, env, upload.value, requestId, projectPath);
  }

  /** The `try`, `catch` and `finally` blocks for an uploaded archive. */
  method ProofUpload(fs: FileSystem, broker: LogBroker, env: Env, archive: Archive, requestId: string, projectPath: string)
    returns (response: Response, invoked: seq<Invocation>, logs: seq<string>)
    requires fs.Valid() && broker.Valid() && requestId != ""
    modifies fs, broker
    ensures fs.Valid() && broker.Valid() && broker.clients == old(broker.clients) && broker.open == old(broker.open)
    ensures broker.sent == DeliverAll(old(broker.sent), broker.clients, broker.open, requestId, logs)
    ensures var ws := Prepare(env, old(fs.nodes), archive, projectPath);
      var job := ProofJob(env, ws.failure, projectPath);
      invoked == job.invoked &&
      response == ProofResponse(requestId, job.result) &&
      logs == CatchLogs(job, "generate-proof failed: ") &&
      fs.nodes == RemoveIn(ws.nodes, Segments(projectPath))
  {
    ghost var sent0 := broker.sent;
    var job := TryProof(fs, broker, env, archive, projectPath, requestId, sent0);
    invoked := job.invoked;
    logs := Catch(broker, requestId, job, "generate-proof failed: ", sent0);
    response := ProofResponse(requestId, job.result);
    fs.Remove(Segments(projectPath));
  }

  // ---------------------------------------------------------------------------
  // /generate-proof-with-verifier
  // ---------------------------------------------------------------------------

  /** `proof`, `vk` and `Verifier.sol` from `target/`, as bytes. */
  function VerifierBytes(env: Env, targetDir: string): Result<(Bytes, Bytes, Bytes), string> {
    var proof :- env.readBytes(JoinPaths([targetDir, "proof"]));
    var vk :- env.readBytes(JoinPaths([targetDir, "vk"]));
    var verifier :- env.readBytes(JoinPaths([targetDir, "Verifier.sol"]));
    Ok((proof, vk, verifier))
  }

  /** The Cairo entries for `files`, in order, each read in turn; the first failed read is thrown. */
  function CairoPart(read: string -> Result<Bytes, string>, files: seq<string>): (r: Result<seq<(string, Bytes)>, string>)
    ensures r.Ok? ==>
      |r.value| == |files| &&
      forall k :: 0 <= k < |files| ==>
        read(files[k]).Ok? && r.value[k] == (CairoFolder + Basename(files[k]), read(files[k]).value)
    ensures r.Err? <==> exists k :: 0 <= k < |files| && read(files[k]).Err?
    decreases |files|
  {
    if |files| == 0 then Ok([])
    else
      var init :- CairoPart(read, files[..|files| - 1]);
      var last := files[|files| - 1];
      var data :- read(last);
      Ok(init + [(CairoFolder + Basename(last), data)])
  }

  /** The `.cairo` files in `verifier/src` under the working directory, as `glob` lists them. */
  function CairoFiles(env: Env, rootDir: string): seq<string> {
    env.glob(JoinPaths([JoinPaths([rootDir, "verifier", "src"]), "*.cairo"]))
  }

  /**
   * The Starknet branch: garaga runs in the directory of Prover.toml and its
   * own failure is caught and ignored; then every `.cairo` file it left in
   * `verifier/src` is added under `verifier/cairo/`. No such file, or one
   * that cannot be read, is thrown.
   */
  function StarknetJob(env: Env, rootDir: string, base: Listing): Job<Listing> {
    var garaga := RunAll(env, [GaragaStage(rootDir)]);
    var logs := ["Generating Starknet Cairo verifier..."] + garaga.logs;
    var files := CairoFiles(env, rootDir);
    if |files| == 0 then Job(garaga.invoked, logs, Err(NoCairo))
    else match CairoPart(env.readBytes, files)
      case Err(e) => Job(garaga.invoked, logs, Err(e))
      case Ok(cairo) => Job(garaga.invoked, logs + ["Starknet verifier added to ZIP."], Ok(AddAll(base, cairo)))
  }

  /**
   * After the `bb` stages, in the directory of Prover.toml: the three
   * artifacts read as bytes make the archive's first entries; the Starknet
   * branch, when asked for, adds the Cairo files.
   */
  function ArchiveJob(env: Env, rootDir: string, starknet: bool): Job<Listing> {
    match VerifierBytes(env, JoinPaths([rootDir, "target"]))
    case Err(e) => Job([], [], Err(e))
    case Ok(b) =>
      var base := AddAll(Empty, FixedEntries(b.0, b.1, b.2));
      if starknet then StarknetJob(env, rootDir, base) else Job([], [], Ok(base))
  }

  /** The `try` block of `/generate-proof-with-verifier`; a success is the archive's listing. */
  function VerifierJob(env: Env, prepared: Option<string>, projectPath: string, starknet: bool): Job<Listing> {
    if prepared.Some? then Job([], [], Err(prepared.value))
    else
      var steps := ProveSteps(env, projectPath, true);
      if steps.result.Err? then Job(steps.invoked, steps.logs, Err(steps.result.error))
      else
        var rest := ArchiveJob(env, steps.result.value, starknet);
        Job(steps.invoked + rest.invoked, steps.logs + rest.logs, rest.result)
  }

  lemma {:induction false} CairoPartStopsAtFailure(env: Env, files: seq<string>, n: nat)
    requires n <= |files| && CairoPart(env.readBytes, files[..n]).Err?
    ensures CairoPart(env.readBytes, files) == CairoPart(env.readBytes, files[..n])
    decreases |files|
  {
    if n < |files| {
      var init := files[..|files| - 1];
      assert init[..n] == files[..n];
      CairoPartStopsAtFailure(env, init, n);
    } else {
      assert files[..n] == files;
    }
  }

  /** `for (const filePath of cairoFiles) zip.file(...)`: reads each file in turn and adds it. */
  method AddCairoFiles(zip: ZipFile, env: Env, files: seq<string>) returns (failure: Option<string>)
    modifies zip
    ensures match CairoPart(env.readBytes, files)
      case Ok(cairo) => failure.None? && zip.Listed() == AddAll(old(zip.Listed()), cairo)
      case Err(e) => failure == Some(e)
  {
    for i := 0 to |files|
      invariant CairoPart(env.readBytes, files[..i]).Ok?
      invariant zip.Listed() == AddAll(old(zip.Listed()), CairoPart(env.readBytes, files[..i]).value)
    {
      var data := env.readBytes(files[i]);
      assert files[..i + 1][..i] == files[..i];
      if data.Err? {
        CairoPartStopsAtFailure(env, files, i + 1);
        return Some(data.error);
      }
      ghost var done := CairoPart(env.readBytes, files[..i]).value;
      zip.AddFile(CairoFolder + Basename(files[i]), data.value);
      assert done + [(CairoFolder + Basename(files[i]), data.value)] == CairoPart(env.readBytes, files[..i + 1]).value;
      assert (done + [(CairoFolder + Basename(files[i]), data.value)])[..|done|] == done;
    }
    assert files[..|files|] == files;
    failure := None;
  }

  method AddStarknet(zip: ZipFile, broker: LogBroker, env: Env, rootDir: string, requestId: string,
                     ghost sent0: map<ConnId, seq<string>>, before: seq<string>)
    returns (job: Job<Listing>)
    requires broker.Valid() && requestId != ""
    requires broker.sent == DeliverAll(sent0, broker.clients, broker.open, requestId, before)
    modifies zip, broker
    ensures broker.Valid() && broker.clients == old(broker.clients) && broker.open == old(broker.open)
    ensures job == StarknetJob(env, rootDir, old(zip.Listed()))
    ensures job.result.Ok? ==> zip.Listed() == job.result.value
    ensures broker.sent == DeliverAll(sent0, broker.clients, broker.open, requestId, before + job.logs)
  {
    var logs := Relay(broker, requestId, "Generating Starknet Cairo verifier...", sent0, before);
    var garaga := RunStages(broker, env, [GaragaStage(rootDir)], requestId, sent0, logs);
    ConcatAssoc(before, ["Generating Starknet Cairo verifier..."], garaga.logs);
    logs := ["Generating Starknet Cairo verifier..."] + garaga.logs;
    var files := CairoFiles(env, rootDir);
    if |files| == 0 {
      return Job(garaga.invoked, logs, Err(NoCairo));
    }
    var failure := AddCairoFiles(zip, env, files);
    if failure.Some? {
      return Job(garaga.invoked, logs, Err(failure.value));
    }
    var all := Relay(broker, requestId, "Starknet verifier added to ZIP.", sent0, before + logs);
    ConcatAssoc(before, logs, ["Starknet verifier added to ZIP."]);
    job := Job(garaga.invoked, logs + ["Starknet verifier added to ZIP."], Ok(zip.Listed()));
  }

  /** Everything after the `bb` stages: the three artifacts as bytes, then the Starknet branch when asked for. */
  method FillArchive(zip: ZipFile, broker: LogBroker, env: Env, rootDir: string, starknet: bool, requestId: string,
                     ghost sent0: map<ConnId, seq<string>>, before: seq<string>)
    returns (job: Job<Listing>)
    requires broker.Valid() && requestId != "" && zip.Listed() == Empty
    requires broker.sent == DeliverAll(sent0, broker.clients, broker.open, requestId, before)
    modifies zip, broker
    ensures broker.Valid() && broker.clients == old(broker.clients) && broker.open == old(broker.open)
    ensures job == ArchiveJob(env, rootDir, starknet)
    ensures job.result.Ok? ==> zip.Listed() == job.result.value
    ensures broker.sent == DeliverAll(sent0, broker.clients, broker.open, requestId, before + job.logs)
  {
    var bytes := VerifierBytes(env, JoinPaths([rootDir, "target"]));
    if bytes.Err? {
      assert before + [] == before;
      return Job([], [], Err(bytes.error));
    }
    var b := bytes.value;
    zip.AddFile(ProofName, b.0);
    zip.AddFile(VkName, b.1);
    zip.AddFile(SolidityName, b.2);
    FixedByAdds(b.0, b.1, b.2);
    if !starknet {
      assert before + [] == before;
      return Job([], [], Ok(zip.Listed()));
    }
    job := AddStarknet(zip, broker, env, rootDir, requestId, sent0, before);
  }

  method TryVerifier(fs: FileSystem, zip: ZipFile, broker: LogBroker, env: Env, archive: Archive, projectPath: string,
                     starknet: bool, requestId: string, ghost sent0: map<ConnId, seq<string>>)
    returns (job: Job<Listing>)
    requires fs.Valid() && broker.Valid() && requestId != "" && broker.sent == sent0 && zip.Listed() == Empty
    modifies fs, zip, broker
    ensures fs.Valid() && broker.Valid() && broker.clients == old(broker.clients) && broker.open == old(broker.open)
    ensures var ws := Prepare(env, old(fs.nodes), archive, projectPath);
      fs.nodes == ws.nodes && job == VerifierJob(env, ws.failure, projectPath, starknet)
    ensures job.result.Ok? ==> zip.Listed() == job.result.value
    ensures broker.sent == DeliverAll(sent0, broker.clients, broker.open, requestId, job.logs)
  {
    var failure := PrepareWorkspace(fs, env, archive, projectPath);
    if failure.Some? {
      return Job([], [], Err(failure.value));
    }
    job := ProveAndPack(zip, broker, env, projectPath, starknet, requestId, sent0);
  }

  /** The `try` block once the workspace is ready. */
  method ProveAndPack(zip: ZipFile, broker: LogBroker, env: Env, projectPath: string,
                      starknet: bool, requestId: string, ghost sent0: map<ConnId, seq<string>>)
    returns (job: Job<Listing>)
    requires broker.Valid() && requestId != "" && broker.sent == sent0 && zip.Listed() == Empty
    modifies zip, broker
    ensures broker.Valid() && broker.clients == old(broker.clients) && broker.open == old(broker.open)
    ensures job == VerifierJob(env, None, projectPath, starknet)
    ensures job.result.Ok? ==> zip.Listed() == job.result.value
    ensures broker.sent == DeliverAll(sent0, broker.clients, broker.open, requestId, job.logs)
  {
    var steps := RunProveSteps(broker, env, projectPath, true, requestId, sent0);
    if steps.result.Err? {
      return Job(steps.invoked, steps.logs, Err(steps.result.error));
    }
    var rest := FillArchive(zip, broker, env, steps.result.value, starknet, requestId, sent0, steps.logs);
    job := Job(steps.invoked + rest.invoked, steps.logs + rest.logs, rest.result);
  }

  /**
   * `POST /generate-proof-with-verifier`. Without a file: 400. Otherwise the
   * `try` block runs and its listing is sent as `verifier_<requestId>.zip`,
   * unless that name is refused as a header value; an error is relayed as
   * `generate-proof failed: ...` and answered with 500. The workspace is
   * never removed.
   */
  method GenerateProofWithVerifier(fs: FileSystem, broker: LogBroker, env: Env, serverDir: string, queryId: string,
                                   freshId: string, starknetFlag: string, upload: Option<Archive>)
    returns (response: Response, invoked: seq<Invocation>, logs: seq<string>)
    requires fs.Valid() && broker.Valid() && freshId != ""
    modifies fs, broker
    ensures fs.Valid() && broker.Valid() && broker.clients == old(broker.clients) && broker.open == old(broker.open)
    ensures broker.sent == DeliverAll(old(broker.sent), broker.clients, broker.open, RequestId(queryId, freshId), logs)
    ensures upload.None? ==> response == BadRequest(NoFile) && invoked == [] && logs == [] && fs.nodes == old(fs.nodes)
    ensures upload.Some? ==>
      var requestId := RequestId(queryId, freshId);
      var projectPath := ProjectPath(serverDir, requestId);
      var ws := Prepare(env, old(fs.nodes), upload.value, projectPath);
      var job := SetDisposition(requestId, VerifierJob(env, ws.failure, projectPath, starknetFlag == "true"));
      invoked == job.invoked &&
      response == VerifierResponse(requestId, job.result) &&
      logs == CatchLogs(job, "generate-proof failed: ") &&
      fs.nodes == ws.nodes
  {
    var requestId := RequestId(queryId, freshId);
    var projectPath := ProjectPath(serverDir, requestId);
    if upload.None? {
      return BadRequest(NoFile), [], [];
    }
    response, invoked, logs := VerifierUpload(fs, broker, env, upload.value, requestId, projectPath, starknetFlag == "true");
  }

  /** The `try`, `catch` and `finally` blocks for an uploaded archive. */
  method VerifierUpload(fs: FileSystem, broker: LogBroker, env: Env, archive: Archive, requestId: string, projectPath: string, starknet: bool)
    returns (response: Response, invoked: seq<Invocation>, logs: seq<string>)
    requires fs.Valid() && broker.Valid() && requestId != ""
    modifies fs, broker
    ensures fs.Valid() && broker.Valid() && broker.clients == old(broker.clients) && broker.open == old(broker.open)
    ensures broker.sent == DeliverAll(old(broker.sent), broker.clients, broker.open, requestId, logs)
    ensures var ws := Prepare(env, old(fs.nodes), archive, projectPath);
      var job := SetDisposition(requestId, VerifierJob(env, ws.failure, projectPath, starknet));
      invoked == job.invoked &&
      response == VerifierResponse(requestId, job.result) &&
      logs == CatchLogs(job, "generate-proof failed: ") &&
      fs.nodes == ws.nodes
  {
    ghost var sent0 := broker.sent;
    ghost var ws := Prepare(env, fs.nodes, archive, projectPath);
    ghost var tried := VerifierJob(env, ws.failure, projectPath, starknet);
    var zip := new ZipFile();
    var job := TryVerifier(fs, zip, broker, env, archive, projectPath, starknet, requestId, sent0);
    assert fs.nodes == ws.nodes && job == tried;
    response, invoked, logs := AnswerVerifier(zip, broker, requestId, job, sent0);
  }

  /**
   * The end of the verifier `try` block and its `catch`: the headers are set
   * and the archive sent, or the error thrown on the way is relayed and
   * answered with 500.
   */
  method AnswerVerifier(zip: ZipFile, broker: LogBroker, requestId: string, job: Job<Listing>, ghost sent0: map<ConnId, seq<string>>)
    returns (response: Response, invoked: seq<Invocation>, logs: seq<string>)
    requires broker.Valid() && broker.sent == DeliverAll(sent0, broker.clients, broker.open, requestId, job.logs)
    requires job.result.Ok? ==> zip.Listed() == job.result.value
    modifies broker
    ensures broker.Valid() && broker.clients == old(broker.clients) && broker.open == old(broker.open)
    ensures var done := SetDisposition(requestId, job);
      invoked == done.invoked &&
      response == VerifierResponse(requestId, done.result) &&
      logs == CatchLogs(done, "generate-proof failed: ")
    ensures broker.sent == DeliverAll(sent0, broker.clients, broker.open, requestId, logs)
  {
    var done := job;
    invoked := job.invoked;
    if job.result.Ok? && !HeaderSafe(Disposition(requestId)) {
      done := Job(job.invoked, job.logs, Err(InvalidDisposition));
    }
    logs := Catch(broker, requestId, done, "generate-proof failed: ", sent0);
    if done.result.Ok? {
      response := ZipDownload("verifier_" + requestId + ".zip", zip.names, zip.contents);
    } else {
      response := ServerError(done.result.error);
    }
  }

  // ---------------------------------------------------------------------------
  // Properties
  // ---------------------------------------------------------------------------

  /**
   * `/compile` reads the FIRST `.json` entry of `target/` as listed, and
   * `Prover.toml`; with no `.json` entry it throws its own message.
   */
  lemma CompileReadsFirstJson(env: Env, projectPath: string)
    ensures var targetDir := JoinPaths([projectPath, "target"]);
      var r := CompileArtifacts(env, projectPath);
      (env.readdir(targetDir).Err? ==> r == Err(env.readdir(targetDir).error)) &&
      (env.readdir(targetDir).Ok? ==>
         var files := env.readdir(targetDir).value;
         (forall j :: 0 <= j < |files| ==> !EndsWith(files[j], ".json")) ==> r == Err("Compiled JSON file not found")) &&
      (r.Ok? ==>
         env.readdir(targetDir).Ok? &&
         var files := env.readdir(targetDir).value;
         (exists i :: 0 <= i < |files| && EndsWith(files[i], ".json") && (forall j :: 0 <= j < i ==> !EndsWith(files[j], ".json")) &&
            env.readText(JoinPaths([targetDir, files[i]])) == Ok(r.value.0)) &&
         env.readText(JoinPaths([projectPath, "Prover.toml"])) == Ok(r.value.1))
  {
    var targetDir := JoinPaths([projectPath, "target"]);
    var r := CompileArtifacts(env, projectPath);
    if r.Ok? {
      var files := env.readdir(targetDir).value;
      var i := FindSuffix(files, ".json").value;
      assert env.readText(JoinPaths([targetDir, files[i]])) == Ok(r.value.0);
    }
  }

  /**
   * `/compile` runs `nargo compile` and then `nargo check` in the project
   * directory, and a rejection stops it: when `nargo compile` fails,
   * `nargo check` is never launched. It succeeds exactly when both resolve
   * and both artifacts are read, and then relays the stages' lines and
   * `Compilation succeeded!`. When preparing the workspace threw, no tool
   * runs at all.
   */
  lemma CompileShortCircuit(env: Env, prepared: Option<string>, projectPath: string)
    ensures var stages := CompileStages(projectPath);
      var job := CompileJob(env, prepared, projectPath);
      (prepared.Some? ==> job == Job([], [], Err(prepared.value))) &&
      (prepared.None? ==>
        |job.invoked| >= 1 && job.invoked == stages[..|job.invoked|] &&
        (Settles(env, stages[0]).Rejected? ==>
           job.invoked == [stages[0]] && job.result == Err(Settles(env, stages[0]).message)) &&
        (job.result.Ok? <==>
           Settles(env, stages[0]).Resolved? && Settles(env, stages[1]).Resolved? && CompileArtifacts(env, projectPath).Ok?) &&
        (job.result.Ok? ==>
           job.invoked == stages && job.result == CompileArtifacts(env, projectPath) &&
           job.logs == StageLines(env, stages) + ["Compilation succeeded!"]))
  {
    var stages := CompileStages(projectPath);
    StagesShortCircuit(env, stages);
    RunAllCons(env, stages);
  }

  /**
   * `nargo execute` and the `bb` stages all run in `dir`. A success has
   * launched `nargo execute` and then the three `bb` stages on the first
   * circuit and first witness listed in `target/`, and carries `dir`.
   */
  lemma ProveInPlacement(env: Env, dir: string)
    ensures var job := ProveIn(env, dir);
      (forall k :: 0 <= k < |job.invoked| ==> job.invoked[k].cwd == dir) &&
      (job.result.Ok? ==>
         job.result.value == dir && WitnessInputs(env.readdir, JoinPaths([dir, "target"])).Ok? &&
         var inputs := WitnessInputs(env.readdir, JoinPaths([dir, "target"])).value;
         job.invoked == [ExecuteStage(dir)] + ProveStages(dir, inputs.0, inputs.1))
  {
    ProveInInDir(env, dir);
    var exec := RunAll(env, [ExecuteStage(dir)]);
    var inputs := WitnessInputs(env.readdir, JoinPaths([dir, "target"]));
    if exec.result.Ok? && inputs.Ok? {
      RunAllOkLaunchesAll(env, [ExecuteStage(dir)]);
      RunAllOkLaunchesAll(env, ProveStages(dir, inputs.value.0, inputs.value.1));
    }
  }

  lemma ProveInInDir(env: Env, dir: string)
    ensures forall k :: 0 <= k < |ProveIn(env, dir).invoked| ==> ProveIn(env, dir).invoked[k].cwd == dir
  {
    var exec := RunAll(env, [ExecuteStage(dir)]);
    RunAllInDir(env, [ExecuteStage(dir)], dir);
    var inputs := WitnessInputs(env.readdir, JoinPaths([dir, "target"]));
    if exec.result.Ok? && inputs.Ok? {
      var stages := ProveStages(dir, inputs.value.0, inputs.value.1);
      RunAllInDir(env, stages, dir);
      InDirConcat(exec.invoked, RunAll(env, stages).invoked, dir);
      assert ProveIn(env, dir).invoked == exec.invoked + RunAll(env, stages).invoked;
    } else {
      assert ProveIn(env, dir).invoked == exec.invoked;
    }
  }

  /** Two runs of commands in one directory, one after the other, run in that directory. */
  lemma InDirConcat(a: seq<Invocation>, b: seq<Invocation>, dir: string)
    requires forall k :: 0 <= k < |a| ==> a[k].cwd == dir
    requires forall k :: 0 <= k < |b| ==> b[k].cwd == dir
    ensures forall k :: 0 <= k < |a + b| ==> (a + b)[k].cwd == dir
  {
  }

  /**
   * Where the proving tools run. When no Prover.toml is found, nothing runs.
   * Otherwise every launched tool runs in one directory: the project
   * directory, or with `atProver` the directory of the FIRST Prover.toml
   * found; the first line relayed names that Prover.toml.
   */
  lemma ProveStepsPlacement(env: Env, projectPath: string, atProver: bool)
    ensures var found := env.glob(JoinPaths([projectPath, "**/Prover.toml"]));
      var job := ProveSteps(env, projectPath, atProver);
      (|found| == 0 ==> job == Job([], [], Err(NoProver))) &&
      (|found| > 0 ==>
        var dir := if atProver then Dirname(found[0]) else projectPath;
        |job.logs| >= 1 && job.logs[0] == FoundLine(found[0]) &&
        job.invoked == ProveIn(env, dir).invoked && job.result == ProveIn(env, dir).result &&
        (forall k :: 0 <= k < |job.invoked| ==> job.invoked[k].cwd == dir) &&
        (job.result.Ok? ==> job.result.value == dir))
  {
    var found := env.glob(JoinPaths([projectPath, "**/Prover.toml"]));
    if |found| > 0 {
      ProveInPlacement(env, if atProver then Dirname(found[0]) else projectPath);
    }
  }

  /** `name` is the first listed entry of `files` ending in `suffix`. */
  predicate FirstListed(files: seq<string>, suffix: string, name: string) {
    exists i :: 0 <= i < |files| && files[i] == name && EndsWith(name, suffix) &&
      forall j :: 0 <= j < i ==> !EndsWith(files[j], suffix)
  }

  /**
   * The witness step takes the FIRST circuit (`.json`) and the FIRST witness
   * (`.gz`) listed in `target/`. It fails with the circuit's message exactly
   * when no `.json` entry is listed, and with the witness's message exactly
   * when a `.json` entry but no `.gz` entry is listed.
   */
  lemma WitnessUsesFirstListed(env: Env, targetDir: string)
    ensures var r := WitnessInputs(env.readdir, targetDir);
      (env.readdir(targetDir).Err? ==> r == Err(env.readdir(targetDir).error)) &&
      (env.readdir(targetDir).Ok? ==>
        var files := env.readdir(targetDir).value;
        var hasJson := exists i :: 0 <= i < |files| && EndsWith(files[i], ".json");
        var hasGz := exists i :: 0 <= i < |files| && EndsWith(files[i], ".gz");
        (r == Err("Compiled circuit JSON not found in target/") <==> !hasJson) &&
        (r == Err("Witness file (.gz) not found in target/") <==> hasJson && !hasGz) &&
        (r.Ok? <==> hasJson && hasGz) &&
        (r.Ok? ==> FirstListed(files, ".json", r.value.0) && FirstListed(files, ".gz", r.value.1)))
  {
    var r := WitnessInputs(env.readdir, targetDir);
    if env.readdir(targetDir).Ok? {
      var files := env.readdir(targetDir).value;
      var json := FindSuffix(files, ".json");
      var gz := FindSuffix(files, ".gz");
      if json.Some? {
        assert EndsWith(files[json.value], ".json");
        if gz.Some? {
          assert EndsWith(files[gz.value], ".gz");
          assert r == Ok((files[json.value], files[gz.value]));
          assert FirstListed(files, ".json", r.value.0);
          assert FirstListed(files, ".gz", r.value.1);
        }
      }
    }
  }

  /** `/generate-proof` runs every tool in the project directory, wherever the Prover.toml it found lies. */
  lemma ProofRunsInProjectPath(env: Env, prepared: Option<string>, projectPath: string)
    ensures var job := ProofJob(env, prepared, projectPath);
      forall k :: 0 <= k < |job.invoked| ==> job.invoked[k].cwd == projectPath
  {
    ProveStepsPlacement(env, projectPath, false);
  }

  /** garaga, when it runs, runs in the directory it is given. */
  lemma ArchiveJobInDir(env: Env, dir: string, starknet: bool)
    ensures forall k :: 0 <= k < |ArchiveJob(env, dir, starknet).invoked| ==> ArchiveJob(env, dir, starknet).invoked[k].cwd == dir
  {
    var bytes := VerifierBytes(env, JoinPaths([dir, "target"]));
    if bytes.Ok? && starknet {
      var base := AddAll(Empty, FixedEntries(bytes.value.0, bytes.value.1, bytes.value.2));
      assert ArchiveJob(env, dir, starknet).invoked == StarknetJob(env, dir, base).invoked;
      StarknetJobLaunchesGaraga(env, dir, base);
      RunAllInDir(env, [GaragaStage(dir)], dir);
    } else {
      assert ArchiveJob(env, dir, starknet).invoked == [];
    }
  }

  /** The Starknet branch launches garaga and nothing else. */
  lemma StarknetJobLaunchesGaraga(env: Env, dir: string, base: Listing)
    ensures StarknetJob(env, dir, base).invoked == RunAll(env, [GaragaStage(dir)]).invoked
  {
  }

  /** `/generate-proof-with-verifier` runs every tool, garaga included, in the directory of the first Prover.toml found. */
  lemma VerifierRunsAtProver(env: Env, prepared: Option<string>, projectPath: string, starknet: bool)
    ensures var job := VerifierJob(env, prepared, projectPath, starknet);
      var found := env.glob(JoinPaths([projectPath, "**/Prover.toml"]));
      |job.invoked| > 0 ==>
        |found| > 0 && forall k :: 0 <= k < |job.invoked| ==> job.invoked[k].cwd == Dirname(found[0])
  {
    ProveStepsPlacement(env, projectPath, true);
    var found := env.glob(JoinPaths([projectPath, "**/Prover.toml"]));
    if prepared.None? && |found| > 0 {
      var steps := ProveSteps(env, projectPath, true);
      if steps.result.Ok? {
        ArchiveJobInDir(env, steps.result.value, starknet);
        InDirConcat(steps.invoked, ArchiveJob(env, steps.result.value, starknet).invoked, Dirname(found[0]));
      }
    }
  }

  /** Changing what garaga does changes nothing about `nargo` and `bb`. */
  lemma ProveInIgnoresGaraga(env: Env, run2: Invocation -> Trace, dir: string)
    requires forall inv: Invocation :: inv.cmd != GaragaPath ==> run2(inv) == env.run(inv)
    ensures ProveIn(env.(run := run2), dir) == ProveIn(env, dir)
  {
    assert |"nargo"| != |GaragaPath| && |"bb"| != |GaragaPath|;
    forall j, g, k | 0 <= k < 3
      ensures run2(ProveStages(dir, j, g)[k]) == env.run(ProveStages(dir, j, g)[k])
    {
    }
    ProveInAgrees(env, env.(run := run2), dir);
  }

  /** Two worlds that list the same files and run `nargo execute` and the `bb` stages alike agree on the execute-and-prove part. */
  lemma ProveInAgrees(env1: Env, env2: Env, dir: string)
    requires env1.readdir == env2.readdir
    requires env1.run(ExecuteStage(dir)) == env2.run(ExecuteStage(dir))
    requires forall j, g, k | 0 <= k < 3 :: env1.run(ProveStages(dir, j, g)[k]) == env2.run(ProveStages(dir, j, g)[k])
    ensures ProveIn(env1, dir) == ProveIn(env2, dir)
  {
    RunAllAgrees(env1, env2, [ExecuteStage(dir)]);
    var targetDir := JoinPaths([dir, "target"]);
    var inputs := WitnessInputs(env1.readdir, targetDir);
    if inputs.Ok? {
      RunAllAgrees(env1, env2, ProveStages(dir, inputs.value.0, inputs.value.1));
    }
  }

  /** Whatever garaga does, the Starknet branch launches the same command and reaches the same result. */
  lemma StarknetIgnoresGaraga(env: Env, run2: Invocation -> Trace, rootDir: string, base: Listing)
    ensures var env2 := env.(run := run2);
      StarknetJob(env2, rootDir, base).invoked == StarknetJob(env, rootDir, base).invoked &&
      StarknetJob(env2, rootDir, base).result == StarknetJob(env, rootDir, base).result
  {
    StagesShortCircuit(env, [GaragaStage(rootDir)]);
    StagesShortCircuit(env.(run := run2), [GaragaStage(rootDir)]);
  }

  /**
   * garaga's outcome is swallowed: replacing what garaga does, and nothing
   * else, changes neither the commands launched nor the response, only the
   * lines relayed.
   */
  lemma GaragaOutcomeIgnored(env: Env, run2: Invocation -> Trace, prepared: Option<string>, projectPath: string, starknet: bool)
    requires forall inv: Invocation :: inv.cmd != GaragaPath ==> run2(inv) == env.run(inv)
    ensures var env2 := env.(run := run2);
      VerifierJob(env2, prepared, projectPath, starknet).invoked == VerifierJob(env, prepared, projectPath, starknet).invoked &&
      VerifierJob(env2, prepared, projectPath, starknet).result == VerifierJob(env, prepared, projectPath, starknet).result
  {
    ProveStepsIgnoreGaraga(env, run2, projectPath);
    var steps := ProveSteps(env, projectPath, true);
    if steps.result.Ok? {
      ArchiveIgnoresGaraga(env, run2, steps.result.value, starknet);
    }
    VerifierJobAgrees(env.(run := run2), env, prepared, projectPath, starknet);
  }

  /** The proving steps never launch garaga, so they do not depend on what it does. */
  lemma ProveStepsIgnoreGaraga(env: Env, run2: Invocation -> Trace, projectPath: string)
    requires forall inv: Invocation :: inv.cmd != GaragaPath ==> run2(inv) == env.run(inv)
    ensures ProveSteps(env.(run := run2), projectPath, true) == ProveSteps(env, projectPath, true)
  {
    var found := env.glob(JoinPaths([projectPath, "**/Prover.toml"]));
    if |found| > 0 {
      ProveInIgnoresGaraga(env, run2, Dirname(found[0]));
    }
  }

  /** Two worlds whose proving steps agree, and whose archive steps launch the same commands and end alike, end the verifier request alike. */
  lemma VerifierJobAgrees(env1: Env, env2: Env, prepared: Option<string>, projectPath: string, starknet: bool)
    requires ProveSteps(env1, projectPath, true) == ProveSteps(env2, projectPath, true)
    requires var steps := ProveSteps(env1, projectPath, true);
      steps.result.Ok? ==>
        ArchiveJob(env1, steps.result.value, starknet).invoked == ArchiveJob(env2, steps.result.value, starknet).invoked &&
        ArchiveJob(env1, steps.result.value, starknet).result == ArchiveJob(env2, steps.result.value, starknet).result
    ensures VerifierJob(env1, prepared, projectPath, starknet).invoked == VerifierJob(env2, prepared, projectPath, starknet).invoked
    ensures VerifierJob(env1, prepared, projectPath, starknet).result == VerifierJob(env2, prepared, projectPath, starknet).result
  {
  }

  /** Whatever garaga does, the part after the proving stages launches the same commands and reaches the same result. */
  lemma ArchiveIgnoresGaraga(env: Env, run2: Invocation -> Trace, rootDir: string, starknet: bool)
    ensures var env2 := env.(run := run2);
      ArchiveJob(env2, rootDir, starknet).invoked == ArchiveJob(env, rootDir, starknet).invoked &&
      ArchiveJob(env2, rootDir, starknet).result == ArchiveJob(env, rootDir, starknet).result
  {
    var bytes := VerifierBytes(env, JoinPaths([rootDir, "target"]));
    assert VerifierBytes(env.(run := run2), JoinPaths([rootDir, "target"])) == bytes;
    if bytes.Ok? && starknet {
      StarknetIgnoresGaraga(env, run2, rootDir, AddAll(Empty, FixedEntries(bytes.value.0, bytes.value.1, bytes.value.2)));
    }
  }

  /** With the Starknet option on, a run whose garaga step leaves no `.cairo` file fails with `No Cairo verifier files found`. */
  lemma NoCairoFilesFails(env: Env, projectPath: string)
    requires ProveSteps(env, projectPath, true).result.Ok?
    requires var dir := ProveSteps(env, projectPath, true).result.value;
      VerifierBytes(env, JoinPaths([dir, "target"])).Ok? && CairoFiles(env, dir) == []
    ensures VerifierJob(env, None, projectPath, true).result == Err(NoCairo)
  {
  }

  /** Prefixing two names with one folder keeps them apart exactly when they differ. */
  lemma PrefixedNamesDiffer(folder: string, a: string, b: string)
    ensures folder + a == folder + b <==> a == b
  {
    if folder + a == folder + b {
      assert a == (folder + a)[|folder|..];
      assert b == (folder + b)[|folder|..];
    }
  }

  /** Every Cairo entry name lies directly in `verifier/cairo/`. */
  lemma CairoPartUnderFolder(env: Env, files: seq<string>)
    requires CairoPart(env.readBytes, files).Ok?
    ensures forall k :: 0 <= k < |files| ==> InCairoFolder(CairoPart(env.readBytes, files).value[k].0)
  {
    forall k | 0 <= k < |files|
      ensures InCairoFolder(CairoPart(env.readBytes, files).value[k].0)
    {
      var n := CairoFolder + Basename(files[k]);
      assert n[..|CairoFolder|] == CairoFolder;
      assert n[|CairoFolder|..] == Basename(files[k]);
    }
  }

  /** The entry for a basename holds the bytes of the LAST listed file with that basename. */
  lemma CairoLastWins(env: Env, files: seq<string>, base: Listing)
    requires CairoPart(env.readBytes, files).Ok?
    ensures var l := AddAll(base, CairoPart(env.readBytes, files).value);
      forall k :: 0 <= k < |files| && (forall j :: k < j < |files| ==> Basename(files[j]) != Basename(files[k])) ==>
        CairoFolder + Basename(files[k]) in l.contents && env.readBytes(files[k]).Ok? &&
        l.contents[CairoFolder + Basename(files[k])] == FileData(env.readBytes(files[k]).value)
  {
    var cairo := CairoPart(env.readBytes, files).value;
    forall k | 0 <= k < |files| && (forall j :: k < j < |files| ==> Basename(files[j]) != Basename(files[k]))
      ensures cairo[k].0 in AddAll(base, cairo).contents && AddAll(base, cairo).contents[cairo[k].0] == FileData(cairo[k].1)
    {
      forall j | k < j < |cairo|
        ensures cairo[j].0 != cairo[k].0
      {
        PrefixedNamesDiffer(CairoFolder, Basename(files[j]), Basename(files[k]));
      }
      AddAllLastWins(base, cairo, k);
    }
  }

  /**
   * The archive starts with `proof`, `vk`, the folders `verifier/` and
   * `verifier/solidity/` that `zip.file` creates, and the Solidity verifier,
   * the files holding the bytes read from `target/`; nothing replaces them,
   * and without the Starknet option there is nothing else.
   */
  lemma ArchiveStartsFixed(env: Env, rootDir: string, starknet: bool)
    requires ArchiveJob(env, rootDir, starknet).result.Ok?
    ensures var l := ArchiveJob(env, rootDir, starknet).result.value;
      var b := VerifierBytes(env, JoinPaths([rootDir, "target"]));
      b.Ok? && WellFormed(l) &&
      |l.names| >= 5 && l.names[..5] == FixedNames &&
      ProofName in l.contents && l.contents[ProofName] == FileData(b.value.0) &&
      VkName in l.contents && l.contents[VkName] == FileData(b.value.1) &&
      VerifierFolder in l.contents && l.contents[VerifierFolder] == Folder &&
      SolidityFolder in l.contents && l.contents[SolidityFolder] == Folder &&
      SolidityName in l.contents && l.contents[SolidityName] == FileData(b.value.2) &&
      (!starknet ==> |l.names| == 5)
  {
    var b := VerifierBytes(env, JoinPaths([rootDir, "target"])).value;
    var l := ArchiveJob(env, rootDir, starknet).result.value;
    var cairo := if starknet then CairoPart(env.readBytes, CairoFiles(env, rootDir)).value else [];
    if starknet {
      CairoPartUnderFolder(env, CairoFiles(env, rootDir));
    }
    var base := FixedStart(b.0, b.1, b.2, cairo);
    assert l == AddAll(base, cairo);
    LayoutAfterFixed(base, cairo);
    assert ProofName in FixedNames && VkName in FixedNames && VerifierFolder in FixedNames;
    assert SolidityFolder in FixedNames && SolidityName in FixedNames;
  }

  /**
   * The names after the five fixed ones: `verifier/cairo/` first, then only
   * that folder or `verifier/cairo/` and the basename of one of `files`.
   */
  predicate CairoTail(names: seq<string>, files: seq<string>) {
    |names| > 5 && names[5] == CairoFolder &&
    forall i :: 5 <= i < |names| ==>
      names[i] == CairoFolder || exists k :: 0 <= k < |files| && names[i] == CairoFolder + Basename(files[k])
  }

  /**
   * With the Starknet option on, at least one `.cairo` file was found, and
   * the archive's names after the fixed five are `verifier/cairo/` and then
   * that folder or the Cairo files' names.
   */
  lemma ArchiveCairoNames(env: Env, rootDir: string)
    requires ArchiveJob(env, rootDir, true).result.Ok?
    ensures var l := ArchiveJob(env, rootDir, true).result.value;
      var files := CairoFiles(env, rootDir);
      |files| > 0 && CairoTail(l.names, files)
  {
    var b := VerifierBytes(env, JoinPaths([rootDir, "target"])).value;
    var files := CairoFiles(env, rootDir);
    var cairo := CairoPart(env.readBytes, files).value;
    assert ArchiveJob(env, rootDir, true).result.value == AddAll(AddAll(Empty, FixedEntries(b.0, b.1, b.2)), cairo);
    CairoNamesOf(b.0, b.1, b.2, cairo, files);
  }

  /** The archive of the three fixed files and the Cairo entries for `files`: the folder first after the fixed names, then the files' names. */
  lemma CairoNamesOf(proof: Bytes, vk: Bytes, solidity: Bytes, cairo: seq<(string, Bytes)>, files: seq<string>)
    requires |cairo| == |files| > 0 && forall k :: 0 <= k < |files| ==> cairo[k].0 == CairoFolder + Basename(files[k])
    ensures CairoTail(AddAll(AddAll(Empty, FixedEntries(proof, vk, solidity)), cairo).names, files)
  {
    forall k | 0 <= k < |cairo|
      ensures InCairoFolder(cairo[k].0)
    {
      var n := CairoFolder + Basename(files[k]);
      assert n[..|CairoFolder|] == CairoFolder;
      assert n[|CairoFolder|..] == Basename(files[k]);
    }
    var base := FixedStart(proof, vk, solidity, cairo);
    CairoNamesAfter(base, cairo, files);
  }

  /** The Cairo entries of `files` added after the five fixed names: the folder first, then the files' names. */
  lemma CairoNamesAfter(base: Listing, cairo: seq<(string, Bytes)>, files: seq<string>)
    requires WellFormed(base) && base.names == FixedNames && CairoFolder !in base.contents
    requires |cairo| == |files| > 0 && forall k :: 0 <= k < |files| ==> cairo[k].0 == CairoFolder + Basename(files[k])
    requires forall k :: 0 <= k < |cairo| ==> InCairoFolder(cairo[k].0) && cairo[k].0 !in base.contents
    ensures CairoTail(AddAll(base, cairo).names, files)
  {
    LayoutAfterFixed(base, cairo);
    NamesAfterFixed(AddAll(base, cairo).names, cairo, files);
  }

  /** Names that are `verifier/cairo/` or a Cairo entry's name are `verifier/cairo/` or that folder and a file's basename. */
  lemma NamesAfterFixed(names: seq<string>, cairo: seq<(string, Bytes)>, files: seq<string>)
    requires |cairo| == |files| && forall k :: 0 <= k < |files| ==> cairo[k].0 == CairoFolder + Basename(files[k])
    requires forall i :: 5 <= i < |names| ==> names[i] == CairoFolder || exists k :: 0 <= k < |cairo| && cairo[k].0 == names[i]
    ensures forall i :: 5 <= i < |names| ==>
      names[i] == CairoFolder || exists k :: 0 <= k < |files| && names[i] == CairoFolder + Basename(files[k])
  {
    forall i | 5 <= i < |names| && names[i] != CairoFolder
      ensures exists k :: 0 <= k < |files| && names[i] == CairoFolder + Basename(files[k])
    {
      var k :| 0 <= k < |cairo| && cairo[k].0 == names[i];
    }
  }

  /** With the Starknet option on, the entry for a basename holds the bytes of the last listed `.cairo` file with it. */
  lemma ArchiveCairoLastWins(env: Env, rootDir: string)
    requires ArchiveJob(env, rootDir, true).result.Ok?
    ensures var l := ArchiveJob(env, rootDir, true).result.value;
      var files := CairoFiles(env, rootDir);
      forall k :: 0 <= k < |files| && (forall j :: k < j < |files| ==> Basename(files[j]) != Basename(files[k])) ==>
        CairoFolder + Basename(files[k]) in l.contents && env.readBytes(files[k]).Ok? &&
        l.contents[CairoFolder + Basename(files[k])] == FileData(env.readBytes(files[k]).value)
  {
    var b := VerifierBytes(env, JoinPaths([rootDir, "target"])).value;
    var files := CairoFiles(env, rootDir);
    CairoLastWins(env, files, AddAll(Empty, FixedEntries(b.0, b.1, b.2)));
  }

  /** A successful `/generate-proof-with-verifier` archive is the one laid out after proving in the first Prover.toml's directory. */
  lemma VerifierArchive(env: Env, prepared: Option<string>, projectPath: string, starknet: bool)
    requires VerifierJob(env, prepared, projectPath, starknet).result.Ok?
    ensures prepared.None?
    ensures var found := env.glob(JoinPaths([projectPath, "**/Prover.toml"]));
      |found| > 0 && ProveSteps(env, projectPath, true).result == Ok(Dirname(found[0])) &&
      VerifierJob(env, prepared, projectPath, starknet).result == ArchiveJob(env, Dirname(found[0]), starknet).result
  {
    ProveStepsPlacement(env, projectPath, true);
  }
}
