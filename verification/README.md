# noir-plugin-backend: a Dafny model of the server core

`server.js` is a small Node.js back end for a Noir editor plug-in. It has three upload endpoints. Each one:

- receives a ZIP archive of a Noir project;
- unpacks it into a per-request workspace `uploads/<requestId>`;
- runs the Noir and Barretenberg tools (`nargo`, `bb`) and, optionally, `garaga` one after another;
- answers with the artifacts or with the first error.

Progress lines are relayed to a browser over a WebSocket channel that is keyed by request id.

This project models the sequential logic beneath that plumbing, and proves properties of it:

- **`extractZipStripRoot`** (`extract.dfy`).
  - It decides a common root folder and strips it from each entry name. The strip uses `String.replace`, which removes the *first* occurrence, wherever it is.
  - It joins each name onto the target and normalizes the result.
  - It refuses an entry unless the normalized path, as a *string*, starts with the target.
  - It writes directories and files into a file system.
  - A failure on one entry is caught and the loop carries on.
  - Node's POSIX `path.join`, `normalize`, `dirname` and `basename` are modelled in `posixpath.dfy`. The JavaScript string operations they rest on are in `jsstrings.dfy`. The file system is a map from paths to directories or bytes (`filesystem.dfy`).
- **The `wsClients` registry and `sendLog`** (`logchannel.dfy`).
  - A message with a truthy `requestId` binds that id to the sending connection.
  - A close removes every binding of the closing connection.
  - `sendLog` appends a line to the bound connection's output only while that connection is open.
- **`run`** (`runner.dfy`).
  - A process is a sequence of stdout/stderr chunks followed by an ending: an exit code, a close without a code, or a launch error.
  - `run` relays one line per chunk, then the line of the `close` event. A launch error first relays its own line, and the `close` that follows still relays `[cmd] Failed with code N` with the negative code Node reports. Lines are relayed only when a request id is given.
  - It accumulates `stderrLog`.
  - It resolves exactly on exit code 0. Otherwise it rejects with `[cmd] Failed with code N`, a newline and `stderrLog`, or with the launch error.
- **The three handlers** (`pipeline.dfy`, `zipwriter.dfy`, `handlers.dfy`).
  - The stages are launched until the first rejection.
  - Artifacts are found by the first directory entry with a suffix.
  - Prover.toml is located by the first `glob` match.
  - The Starknet branch swallows a garaga failure but still fails when there are no `.cairo` files.
  - The JSZip archive is filled in step by step. `zip.file` creates folders by default, so the archive lists `proof`, `vk`, `verifier/`, `verifier/solidity/` and `verifier/solidity/Verifier.sol`, then `verifier/cairo/` before the Cairo files.
  - `finally` removes the workspace for `/compile` and `/generate-proof`, never for `/generate-proof-with-verifier`.

The outside world is an `Env` of functions:

- what a launched command prints and how it ends;
- what `glob` returns;
- directory listings;
- file reads.

The mutable parts are classes whose methods are proved against specification functions:

- `FileSystem`, the disk;
- `LogBroker`, the `wsClients` map with the connections' outputs;
- `ZipFile`, the JSZip object.

Each handler method's contract gives:

- the HTTP response;
- the exact commands launched;
- the exact lines relayed to the request's connection;
- the file system afterwards.

Each of these is stated in terms of a pure `...Job` function. The lemmas beside it state what the source promises about that function.

The proved properties include two weaknesses of the code as written. The model keeps the code's behaviour.

- **The traversal guard compares strings.** An entry `../<sib>/<f>` is accepted exactly when `<sib>` starts with the target directory's own name. It is then written outside the target unless `<sib>` *is* that name (`ZipExtract.ParentHopEntry`). This needs JSZip to hand the name over unresolved. From JSZip 3.8 on, `loadAsync` resolves `.` and `..` segments in entry names itself, which removes the `../` hop before this code sees the name. In general the guard admits the target, everything in it and any sibling whose name extends the target's name (`PosixPath.PrefixGuardMeaning`).
- **The request id is taken from the query string unchecked.** The id `..` makes the workspace the server's own directory, which the cleanup then removes (`Pipeline.ParentIdIsServerDir`).

On one point the code does less than a natural reading of the loop suggests. A file entry runs `mkdirp` on its parent *before* it is inflated, so an entry that fails to inflate can still leave new directories behind. The model follows the code (`ZipExtract.ApplyPlan`). `Pipeline.WorkspaceStaysInReach` bounds what such an entry can add: only paths the guard admits.

## Model

| member | source | states |
|---|---|---|
| JsStrings.IndexOfFrom | server.js:149 | the result is the least index at or after the start where the pattern occurs; None means it occurs nowhere from there |
| JsStrings.RemoveFirst | server.js:149 | `replace(pattern, '')` removes the first occurrence of the pattern, wherever it is, and leaves a string without one unchanged |
| JsStrings.RemoveFirstOfPrefix | server.js:149 | when the name starts with the pattern, the replacement removes exactly that leading copy |
| JsStrings.TrimKeepsInfix | server.js:95 | `trim` keeps the infix that neither starts nor ends with white space and drops only white space around it |
| JsStrings.Split | server.js:135 | `split('/')` yields at least one piece, no piece contains `/`, and there is exactly one piece iff the text has no slash |
| JsStrings.JoinSplit | server.js:135 | joining the pieces of a split with `/` gives the original string back |
| JsStrings.SplitJoin | server.js:135 | splitting a join of slash-free pieces gives the pieces back |
| JsStrings.NatToDecimal | server.js:114 | the rendering of an exit code is a non-empty string of decimal digits without a leading zero |
| JsStrings.DecimalRoundTrip | server.js:114 | the rendered digits read back as the same exit code |
| PosixPath.Basename | server.js:335 | `path.basename` yields a name without a slash |
| PosixPath.ResolveWithoutParentRefs | server.js:153 | normalizing segments without `..` appends their names, dropping empty and `.` segments |
| PosixPath.RenderRoundTrip | server.js:152-153 | an absolute path built from names normalizes to itself and has those names as segments |
| PosixPath.NormalizeAbsolute | server.js:153 | `path.normalize` of an absolute path is the root, or its names joined under `/` plus the input's trailing slash, if any |
| PosixPath.NormalizeIdempotent | server.js:153 | normalizing an absolute path is idempotent and keeps its segments |
| PosixPath.JoinWithoutParentRefs | server.js:152-153 | joining a name without `..` onto a directory and normalizing lands at the directory's segments followed by the name's own |
| PosixPath.PrefixGuardMeaning | server.js:154 | the string guard `startsWith(target)` on normalized paths holds iff the path is the target, inside it, or a sibling whose name extends the target's name |
| PosixPath.PrefixGuardWithTrailing | server.js:153-154 | a trailing slash does not change the guard's verdict, and the root path is never admitted |
| PosixPath.WithinIsAdmitted | server.js:154 | every path inside the target passes the guard |
| PosixPath.DirnameOfNormalized | server.js:161 | `path.dirname` of a normalized absolute path, with or without a trailing slash, is its parent directory |
| Files.MakeDirsIn | server.js:159 | `mkdirp` fails iff some ancestor or the path itself is a file; otherwise every prefix is a directory, existing entries are untouched and only prefixes are added |
| Files.WriteFileIn | server.js:163 | `writeFile` succeeds iff the path is not a directory and its parent directory exists; it then sets exactly that file and changes nothing else |
| Files.RemoveIn | server.js:208 | `fs.remove` deletes the path and everything below it, keeps every other entry unchanged, and accepts a missing path |
| Files.MakeDirsKeepsTree | server.js:159 | `mkdirp` keeps every entry's parent present as a directory |
| Files.WriteFileKeepsTree | server.js:163 | a write keeps every entry's parent present as a directory |
| Files.RemoveKeepsTree | server.js:208 | removing a subtree keeps every remaining entry's parent present |
| Files.FileSystem.MakeDirs | server.js:159 | the file system becomes the `mkdirp` result, or stays unchanged with the error, and stays a closed tree |
| Files.FileSystem.WriteFile | server.js:163 | the file system becomes the write's result, or stays unchanged on error |
| Files.FileSystem.Remove | server.js:208 | the file system loses exactly the removed subtree |
| ZipExtract.Names | server.js:130 | the entry names, one per entry, in key order |
| ZipExtract.FilePaths | server.js:131 | exactly the names that do not end with `/` |
| ZipExtract.RootPrefix | server.js:133-144 | the prefix is empty, or it is a folder name and a slash such that every file path starts with it; directory entries play no part |
| ZipExtract.RootFolderIsStripped | server.js:134-140 | whenever every file path (and there is one) lies under one top-level folder, that folder and slash are the prefix; so the prefix is empty only when there is none |
| ZipExtract.FilePathLosesRoot | server.js:149 | every file path starts with the prefix and loses exactly that leading copy |
| ZipExtract.InnerOccurrenceIsRemoved | server.js:149 | with root folder `proj/`, a directory entry `docs/proj/` loses its inner `proj/` and becomes `docs/` |
| ZipExtract.StripKeepsFileSuffix | server.js:131-149 | stripping never turns a file path into a name ending in a slash |
| ZipExtract.EntryPlacement | server.js:149-161 | an entry is skipped iff its stripped name is empty; otherwise it is refused iff the guard fails, and an admitted directory or file lands at the normalized segments, a file's parent at their parent |
| ZipExtract.Destination | server.js:152-156 | where a stripped name lands under the target, and that the string guard admits it iff its segments pass `PrefixAdmits` |
| ZipExtract.EntryWithoutParentRefsIsPlaced | server.js:152-161 | a name without `..` is always admitted and lands at the target followed by its own names |
| ZipExtract.ParentHopEntry | server.js:152-156 | `../sib/f` passes the guard iff `sib` starts with the target's name, and then lands inside the target iff `sib` is that name |
| ZipExtract.FileEntryLands | server.js:160-164 | an admitted, inflated file entry holds exactly its bytes at its path iff no ancestor is a file and the path is not a directory; a file ancestor leaves everything unchanged |
| ZipExtract.ApplyPlanFrame | server.js:158-164 | one entry keeps every existing path, changes no directory, changes only its own file, and adds only the paths its plan names |
| ZipExtract.ApplyPlanKeepsTree | server.js:158-164 | one entry keeps the file system a closed tree |
| ZipExtract.RefusedEntryIsInert | server.js:150-156 | a skipped or refused entry can be dropped from the archive without changing the outcome |
| ZipExtract.ExtractAllAppend | server.js:146-168 | extraction proceeds entry by entry: extracting `xs + ys` is extracting `ys` after `xs` |
| ZipExtract.ExtractionStaysInReach | server.js:146-168 | extraction keeps the tree closed and the target a directory, deletes nothing, adds only guard-admitted paths and changes no path the guard refuses |
| ZipExtract.ExtractEntry | server.js:147-167 | the loop body changes the file system exactly as the entry's plan says; every failure ends the entry only |
| ZipExtract.WriteEntryFile | server.js:160-164 | `mkdirp` of the parent, then the write unless inflation or either step fails, with earlier directories kept |
| ZipExtract.ExtractZipStripRoot | server.js:128-169 | an unreadable archive throws and changes nothing; otherwise every entry is applied in key order with the decided prefix, and the function never throws |
| LogChannel.Unbind | server.js:35-39 | the registry after a close holds exactly the keys not bound to the closing connection, with their connections |
| LogChannel.Route | server.js:43-44 | a line for an id reaches a connection iff the id is bound and that connection is open |
| LogChannel.BindRoutes | server.js:23-29 | after a message carrying the id, lines for it go to the sender (last bind wins); any other message leaves routing as it was |
| LogChannel.UnbindRoutes | server.js:35-39 | after a close, no line reaches the closed connection, and lines for other ids go where they did |
| LogChannel.DeliverAllRoutes | server.js:42-47 | relaying lines appends them, in order, to the routed connection's output and touches no other connection; with no route nothing changes |
| LogChannel.DeliverAllAppend | server.js:42-47 | relaying `xs + ys` is relaying `ys` after `xs` |
| LogChannel.LogBroker.constructor | server.js:20 | the registry starts empty with no connections |
| LogChannel.LogBroker.Connect | server.js:22 | a new connection is open with no output, and the registry is unchanged |
| LogChannel.LogBroker.BeginClose | server.js:44 | a closing connection stops being OPEN before its close handler runs |
| LogChannel.Display | server.js:28 | `${requestId}` throws exactly for an object with an own `toString` or an array whose rendering throws; an object otherwise renders as `[object Object]` |
| LogChannel.LogBroker.OnMessage | server.js:23-33 | a truthy id is bound to the sender; the binding notice follows only when rendering the id does not throw, since the `catch` only logs; a malformed message changes nothing |
| LogChannel.LogBroker.OnClose | server.js:35-39 | deleting while iterating removes exactly the closing connection's bindings |
| LogChannel.LogBroker.SendLog | server.js:42-47 | the registry never changes; only the routed open connection's output grows by the line |
| ProcessRunner.RelayedLinesShape | server.js:94-121 | one tagged, trimmed line per chunk in arrival order; then one close line that is the success line iff the exit code is 0 and otherwise carries the code in decimal or `null`; a launch error adds its `error:` line followed by the close line with the code it closes with |
| ProcessRunner.RunOutcome | server.js:107-123 | `run` resolves iff the exit code is 0; a launch error rejects with its own message whatever the close after it |
| ProcessRunner.RejectionRepeatsLastLine | server.js:113-116 | a failed close rejects with the last relayed line and a newline followed by `stderrLog` |
| ProcessRunner.StderrLogIsStderrLines | server.js:92-105 | `stderrLog` is each stderr chunk, trimmed and newline-terminated, in arrival order; stdout adds nothing |
| ProcessRunner.OutcomeIgnoresStdout | server.js:94-117 | two runs that end alike and write the same stderr chunks settle alike, whatever they print on stdout |
| ProcessRunner.FailureCarriesCode | server.js:113-116 | a non-zero exit rejects with `[cmd] Failed with code N`, a newline and `stderrLog`, where N reads back as the code |
| ProcessRunner.RelayChunks | server.js:92-105 | the chunk handlers relay each chunk's line only when a request id is given, and build `stderrLog` |
| ProcessRunner.Settle | server.js:107-123 | the close and error handlers relay the ending's lines and settle as `RunOutcome` |
| ProcessRunner.SendLines | server.js:110-120 | `sendLog` of each ending line in order when a request id is given |
| ProcessRunner.Run | server.js:76-124 | `run` settles as `RunOutcome`, and relays every line of the run only when a request id is given |
| ZipWriter.Put | server.js:302-304 | setting a name replaces what it holds; a new name goes last and an existing one keeps its place |
| ZipWriter.PutWellFormed | server.js:302-304 | setting a name keeps names unique and exactly the listed names present |
| ZipWriter.FileAddSets | server.js:302-304 | `zip.file` keeps earlier names in place and other entries' contents; the name holds its data; every other new name is a folder on its path |
| ZipWriter.FileAddWellFormed | server.js:302-304 | `zip.file` with its created folders keeps names unique and exactly the listed names present |
| ZipWriter.AddMakesParent | server.js:302-304 | after `zip.file` the name's parent folder is present |
| ZipWriter.AddAllWellFormed | server.js:301-336 | adding entries keeps names unique and the earlier names in their places |
| ZipWriter.AddAllKeys | server.js:301-336 | the names present are the earlier ones and the added ones |
| ZipWriter.AddAllLastWins | server.js:334-336 | a name holds the data of the last entry that carries it |
| ZipWriter.AddAllNewFolders | server.js:301-336 | every new name no entry carries is a folder on the path of an added entry |
| ZipWriter.AddAllKeeps | server.js:301-336 | a name no added entry carries keeps what it holds |
| ZipWriter.ZipFile.constructor | server.js:301 | a new archive is empty |
| ZipWriter.ZipFile.Set | server.js:302-304 | the archive becomes the listing with the one name set |
| ZipWriter.ZipFile.FileAddEntry | server.js:302-304 | the archive becomes `FileAdd` of it: the folders on the path and then the name |
| ZipWriter.ZipFile.FolderAddEntry | server.js:302-304 | the archive becomes `FolderAdd` of it: unchanged when the folder is present |
| ZipWriter.ZipFile.AddFile | server.js:302 | the archive becomes the listing with the entry added |
| ZipWriter.FixedPutsListing | server.js:302-304 | the three `zip.file` calls list `proof` then `vk` then `verifier/` then `verifier/solidity/` then `verifier/solidity/Verifier.sol` with their data or as folders |
| ZipWriter.FixedStart | server.js:301-304 | after the three fixed calls the archive is well formed with those five names and contents and holds neither `verifier/cairo/` nor any Cairo name |
| ZipWriter.CairoNameIsNew | server.js:302-335 | no name under `verifier/cairo/` is one of the five fixed names |
| ZipWriter.CairoStep | server.js:335 | one Cairo entry keeps the earlier names in place and adds only `verifier/cairo/` (first when absent) and its own name |
| ZipWriter.CairoAddsUnder | server.js:334-336 | adding Cairo entries keeps the archive well formed and the earlier names in place; later places hold `verifier/cairo/` (first when absent) or a Cairo name |
| ZipWriter.LayoutAfterFixed | server.js:301-336 | the five fixed names come first with their contents; then `verifier/cairo/` and only that folder or Cairo names; all Cairo names are present |
| Pipeline.RequestId | server.js:180 | with a fresh id, the request id is never empty; an empty query value counts as absent |
| Pipeline.FirstFailure | server.js:190-191 | the first stage that rejects, every earlier one having resolved; None iff all resolve |
| Pipeline.StagesShortCircuit | server.js:190-191 | the launched stages are a prefix of the list; the run fails iff some stage rejects, with the last launched stage's message, and otherwise launches them all |
| Pipeline.RunAllCons | server.js:190-191 | the chain of awaits: a rejection stops it, a resolution leaves the rest to run |
| Pipeline.RunAllAgrees | server.js:242-244 | a run depends on the outside world only through what the listed stages do |
| Pipeline.RunStage | server.js:190 | one `await run(...)` settles as the run does and relays its lines |
| Pipeline.RunStages | server.js:242-244 | launching stages one after another until a rejection is the specified run, with its lines relayed |
| Pipeline.Relay | server.js:201 | `sendLog` appends the line to the request's log |
| Pipeline.FindSuffix | server.js:195 | `find` by suffix yields the first listed name with the suffix, or none when no name has it |
| Pipeline.Artifact | server.js:195-196 | the first listed name with the suffix, or the named error iff there is none |
| Pipeline.PrepareWorkspace | server.js:188-189 | `mkdirp` of the workspace, then extraction; the first failure is thrown |
| Pipeline.WorkspaceStaysInReach | server.js:188-189 | preparing the workspace keeps the tree closed, deletes nothing, adds only the workspace's missing ancestors and guard-admitted paths, and changes nothing the guard refuses |
| Pipeline.CleanupLeavesOnlyStrays | server.js:207-209 | after cleanup nothing remains inside the workspace; all that remains new is ancestors `mkdirp` created and guard-admitted siblings; everything else keeps its content |
| Pipeline.ProjectPathOfName | server.js:183 | for a request id that is a plain name, the workspace is `uploads/<id>` under the server's directory |
| Pipeline.ParentIdIsServerDir | server.js:180-183 | the request id `..` makes the workspace the server's own directory |
| Handlers.Catch | server.js:203-206 | a failed job relays the `catch` block's line with the error's message |
| Handlers.ProveStages | server.js:242-244 | three `bb` stages, all in the given directory |
| Handlers.TryCompile | server.js:187-202 | the `try` block of `/compile` behaves as `CompileJob`, with every line relayed |
| Handlers.Compile | server.js:179-210 | no file: 400 and nothing else; otherwise the `try` block's response or a 500 with its error, its commands and lines, and the workspace removed on both paths |
| Handlers.CompileUpload | server.js:187-209 | the `try`, `catch` and `finally` blocks: response, commands, relayed lines, and the workspace removed |
| Handlers.CompileReadsFirstJson | server.js:193-199 | `/compile` reads the first `.json` listed in `target/` and `Prover.toml`; no `.json` throws its own message |
| Handlers.CompileShortCircuit | server.js:188-202 | `nargo compile` then `nargo check`; a failing compile stops the rest; success iff both resolve and both files are read, relaying `Compilation succeeded!` |
| Handlers.RunProveSteps | server.js:225-244 | the Prover.toml search and proving stages behave as `ProveSteps`, with every line relayed |
| Handlers.RunProveIn | server.js:230-244 | `nargo execute` and the `bb` stages behave as `ProveIn`, with every line relayed |
| Handlers.ProveInPlacement | server.js:230-244 | every tool runs in the given directory; a success launched `nargo execute` and the three `bb` stages on the first circuit and witness listed |
| Handlers.ProveStepsPlacement | server.js:225-244 | no Prover.toml: nothing runs; otherwise every tool runs in one directory, the project's or the first Prover.toml's, and the first line names that Prover.toml |
| Handlers.WitnessUsesFirstListed | server.js:233-239 | a listing error propagates; the circuit's message is thrown iff no `.json` is listed and the witness's iff a `.json` but no `.gz` is; success iff both are listed and then the first listed of each is used |
| Handlers.TryProof | server.js:221-251 | the `try` block of `/generate-proof` behaves as `ProofJob`, with every line relayed |
| Handlers.GenerateProof | server.js:214-259 | no file: 400; otherwise the three artifacts or a 500, its commands and lines, and the workspace removed on both paths |
| Handlers.ProofUpload | server.js:221-258 | the `try`, `catch` and `finally` blocks of `/generate-proof` |
| Handlers.ProofRunsInProjectPath | server.js:225-244 | `/generate-proof` runs every tool in the project directory, wherever Prover.toml was found |
| Handlers.CairoPart | server.js:334-336 | one `verifier/cairo/<basename>` entry per file, in order, with its bytes; fails iff some read fails |
| Handlers.CairoPartStopsAtFailure | server.js:334-336 | the first failed read decides the outcome; later files do not matter |
| Handlers.AddCairoFiles | server.js:334-336 | the loop adds every Cairo entry to the archive, or throws the first failed read |
| Handlers.AddStarknet | server.js:306-339 | the Starknet branch behaves as `StarknetJob`, and on success the archive is its listing |
| Handlers.FillArchive | server.js:297-339 | everything after the `bb` stages behaves as `ArchiveJob`, and on success the archive is its listing |
| Handlers.ProveAndPack | server.js:275-339 | the verifier `try` block, once the workspace is ready, behaves as `VerifierJob` |
| Handlers.TryVerifier | server.js:271-339 | the verifier `try` block behaves as `VerifierJob`, with every line relayed |
| Handlers.GenerateProofWithVerifier | server.js:263-353 | no file: 400; otherwise `verifier_<id>.zip` with the job's listing, or a 500 when the job fails or the id is refused as a header value; its commands and lines; the workspace never removed |
| Handlers.VerifierUpload | server.js:271-352 | the `try`, `catch` and commented-out `finally` blocks of the verifier endpoint, the `Content-Disposition` header included |
| Handlers.AnswerVerifier | server.js:341-349 | sets the headers and sends the archive, or relays the thrown error and answers 500 |
| Handlers.DispositionSafe | server.js:344 | the `Content-Disposition` value is refused exactly when the request id holds a character outside tab, printable ASCII and `U+0080`-`U+00FF` |
| Handlers.VerifierAnswer | server.js:341-349 | a finished archive is downloaded iff the id is a valid header value; otherwise 500 with `setHeader`'s message and the `catch` line after the job's lines; an earlier failure answers 500 with its own message |
| Handlers.ArchiveJobInDir | server.js:312-320 | garaga, when it runs, runs in the directory it is given |
| Handlers.VerifierRunsAtProver | server.js:277-320 | the verifier endpoint runs every tool, garaga included, in the directory of the first Prover.toml found |
| Handlers.ProveInIgnoresGaraga | server.js:281-295 | what garaga does changes nothing about `nargo` and `bb` |
| Handlers.StarknetIgnoresGaraga | server.js:308-323 | whatever garaga does, the Starknet branch launches the same command and reaches the same result |
| Handlers.ArchiveIgnoresGaraga | server.js:297-339 | whatever garaga does, the part after proving launches the same commands and reaches the same result |
| Handlers.GaragaOutcomeIgnored | server.js:306-323 | replacing what garaga does changes neither the commands launched nor the response |
| Handlers.NoCairoFilesFails | server.js:329-332 | with the Starknet option, no `.cairo` file fails the job with `No Cairo verifier files found` |
| Handlers.CairoPartUnderFolder | server.js:335 | every Cairo entry name lies directly in `verifier/cairo/` |
| Handlers.CairoLastWins | server.js:334-336 | the entry for a basename holds the bytes of the last listed file with that basename |
| Handlers.ArchiveStartsFixed | server.js:297-304 | a successful archive starts `proof` `vk` `verifier/` `verifier/solidity/` `verifier/solidity/Verifier.sol` with the bytes read from `target/` or as folders, never replaced, and holds only those five without the Starknet option |
| Handlers.ArchiveCairoNames | server.js:329-336 | with the Starknet option some `.cairo` file was found; the sixth name is `verifier/cairo/` and every later one is that folder followed by one file's basename |
| Handlers.CairoNamesOf | server.js:301-336 | the fixed calls then one entry per Cairo file list `verifier/cairo/` sixth and then only the files' names |
| Handlers.CairoNamesAfter | server.js:334-336 | Cairo entries added after the five fixed names put `verifier/cairo/` sixth and then only the files' names |
| Handlers.ArchiveCairoLastWins | server.js:334-336 | with the Starknet option, each basename's entry holds the last such file's bytes |
| Handlers.VerifierArchive | server.js:275-341 | a successful verifier archive is the one laid out after proving in the first Prover.toml's directory |

## Left out

- Express routing, multer's 5 MB limit and its 413 handler, CORS, the health check and `app.listen` (server.js:54-72, 173-175, 357-359). These are framework plumbing. An upload is an `Option<Archive>`: absent when the form had no file.
- The WebSocket server and JSON framing (server.js:19, 25, 28, 45). A connection's output is its sequence of `logMsg` texts. A parse failure is the `Malformed` message. The parsed `requestId` is a `JsValue`. A number is held as its canonical `String(n)` text (so `0.5` and `1e21` are covered, and both zeros share `0`); objects and arrays are `wsClients` keys by identity. An object renders as `[object Object]` unless it has an own `toString` property, whose rendering throws after the id is bound, so no notice is sent. An array renders as its elements joined by commas, or throws when one of its elements does; that joined text is given with the array rather than computed from its elements.
- `spawn`, the shell, PATH augmentation and console logging (server.js:77-90, 96, 102). A process is a given `Trace` of chunks and an ending; what a command does is `Env.run`.
- What `nargo`, `bb` and `garaga` do, including the files they write. Listings and reads after a tool runs are `Env` functions, not derived from the modelled file system.
- JSZip: parsing, decompression and archive generation (server.js:129, 162, 341). An archive is given as its entries in key order, each with its bytes or None when inflation fails; a buffer JSZip rejects is `Unreadable`. The response carries the archive's listing, not its bytes.
- `glob` directory walking and its ordering (server.js:225, 275, 329): matches are the given sequence `Env.glob`.
- `uuidv4` (server.js:180): the fresh id is a parameter. A query `requestId` that is not a string (an array) is not modelled; the query value is a string, and `""` counts as absent.
- Concurrency between requests, and the interleaving of chunk and close events inside `run`: each request runs alone, and a run's events arrive in trace order.
- JavaScript strings are UTF-16; here `string` is a sequence of Unicode characters, which only matters for `trim` and names outside the Basic Multilingual Plane.
- A failure of `fs.remove` in `finally` (server.js:208, 257) is logged and ignored; the model's removal always succeeds.
- File-system errors other than a file where a directory is needed, a directory where a file is to be written, and a missing parent (permissions, full disk) are not modelled.
- Handlers.ProveStages: states only that there are three `bb` stages in the given directory; their exact arguments are fixed by its definition and used by `Handlers.ProveInPlacement`.
