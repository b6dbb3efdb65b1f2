# The LAMMPS WebAssembly worker, as a state machine

`src/lammps-worker.js` runs the LAMMPS molecular-dynamics engine inside a
Web Worker. The engine is compiled to WebAssembly and brought in by
Emscripten. The script keeps one flag, `isInitialized`, which the Emscripten
runtime-initialized callback sets once it has created the simulation
directory `/sim`. It forwards the engine's `print`/`printErr` output and its
abort/exit callbacks to the UI thread. It also answers five kinds of message:
`upload-file`, `run-lammps`, `delete-file`, `cleanup` and `get-file`.

Each callback and each handler runs to completion on the worker's single
thread. So the model is a pure, sequential state machine:

- `Worker.State` holds the flag and the filesystem. The filesystem (`MemFs.Fs`) is
  the contents of `/sim` (absent until it is created) plus the working
  directory.
- `Worker.Step(state, input, env)` returns a `Reaction`: the next state and the
  events the script posts, in order. `postMessage` becomes "append to the
  event list".
- An `Input` is an inbound `{type, data}` message, the runtime-initialized
  callback, the 10-second hang check, `onAbort(what)`, `onExit(status)`, or
  a line the engine prints outside a run (for instance during its own
  start-up).
- The `Env` of a step supplies the outside world. Its `faults` oracle says
  which filesystem calls throw. Its `callMain` field is the opaque engine,
  or None when the module has no `callMain`. Given the argument list and the
  contents of `/sim`, the engine returns its printed lines, the `/sim` it
  leaves behind, and an exit code or a thrown error.
- The filesystem calls (`mkdir`, `writeFile`, `readFile`, `unlink`, `chdir`,
  `readdir`) are functions over that map. Some failures come from the state
  itself: a missing name, a directory where a file is expected, `/sim`
  already existing. All others are injected through `faults`.
- `Worker.Run` folds `Step` over a sequence of inputs.

Modules: `Basics` (option type, bytes, `Uint8Array` conversion), `Decimal`
(number-to-string as string concatenation renders it), `Utf8` (the encoding
`writeFile` applies to strings), `MemFs`, `Protocol` (messages and events),
`Worker` (the script) and `WorkerProperties` (properties over several steps).

Three behaviours of the script are easy to miss, and the model keeps them:
- Before initialization, `delete-file` and `cleanup` post nothing, while
  `upload-file`, `run-lammps` and `get-file` each post an error.
- That error is the same for every command; it does not name the request.
- After a failed mkdir of `/sim` the script posts "Failed to initialize: …",
  and the hang check still reports a timeout afterwards, because the flag
  stays false.

## Model

| member | source | states |
|---|---|---|
| Basics.ToUint8Array | src/lammps-worker.js:139 | `new Uint8Array(content)` keeps the length and turns each number into the byte congruent to it modulo 256 |
| Basics.ToUint8ArrayKeepsBytes | src/lammps-worker.js:139 | the conversion leaves the content unchanged exactly when every number already is a byte |
| Decimal.IntRoundTrip | src/lammps-worker.js:191 | the decimal text that `'…' + exitCode` appends parses back to the same integer |
| Utf8.DecodeEncode | src/lammps-worker.js:169 | the bytes `writeFile` stores for a string decode back to exactly that string |
| Utf8.EncodeAscii | src/lammps-worker.js:169 | ASCII input text is stored one byte per character, unchanged |
| Protocol.OutputWireTypes | src/lammps-worker.js:14-27 | the events that count as run output are exactly those posted with type `stdout` or `stderr` |
| Protocol.TerminalWireTypes | src/lammps-worker.js:186-199 | the events that end a run are exactly those posted with type `completed` or `error` |
| MemFs.Mkdir | src/lammps-worker.js:31 | creating `/sim` succeeds exactly when it does not exist yet and no fault is injected, and it starts empty; if it already exists the error is EEXIST |
| MemFs.Chdir | src/lammps-worker.js:174 | changing into `/sim` succeeds exactly when `/sim` exists and no fault is injected, and then the working directory is `/sim` |
| MemFs.Readdir | src/lammps-worker.js:248 | listing `/sim` succeeds exactly when it exists and no fault is injected, and yields its entry names plus `.` and `..` |
| MemFs.WriteFile | src/lammps-worker.js:139 | writing `/sim/<name>` succeeds exactly when the name is a single entry, not a directory, and no fault is injected; it sets that entry to the bytes and leaves every other entry as it was |
| MemFs.ReadFile | src/lammps-worker.js:227 | reading succeeds exactly when the name is a plain file of `/sim` and no fault is injected, and returns its bytes; a missing name fails with ENOENT |
| MemFs.Unlink | src/lammps-worker.js:207 | unlinking succeeds exactly when the name is a plain file of `/sim` and no fault is injected, and removes that entry only |
| MemFs.ReadAfterWrite | src/lammps-worker.js:139-143 | reading a name after a successful write returns the written bytes unless the read is made to fail |
| Worker.OnRuntimeInitialized | src/lammps-worker.js:28-49 | the flag becomes true exactly when it was true or mkdir of `/sim` succeeds; success posts a stdout line and then `ready`, and failure posts one error and changes nothing |
| Worker.OnInitTimeout | src/lammps-worker.js:87-94 | the hang check posts its one error exactly when the worker is not initialized, and changes nothing |
| Worker.OnAbort | src/lammps-worker.js:52-57 | an abort posts exactly one error ending in the abort reason and changes nothing |
| Worker.OnExit | src/lammps-worker.js:59-64 | an exit posts exactly one stdout line from which the exit status parses back, and changes nothing |
| Worker.OnPrint | src/lammps-worker.js:14-27 | a line printed outside a run posts exactly one event, stdout for `print` and stderr for `printErr`, with the same text, and changes nothing |
| Worker.PrintEvents | src/lammps-worker.js:14-27 | each line the engine prints becomes one stdout event (`print`) or one stderr event (`printErr`) with the same text, in order |
| Worker.HandleFileUpload | src/lammps-worker.js:129-150 | upload posts exactly one event; before readiness it is the not-initialized error and nothing changes; it posts `file-uploaded` exactly when the write succeeds, and then `/sim/<name>` holds the converted bytes and all other entries are kept; an error changes nothing |
| Worker.PrepareInput | src/lammps-worker.js:167-181 | with input text, the run writes it to `/sim/input.lmp` and that becomes the script; it proceeds exactly when that write succeeds, and then the stored bytes decode back to the text and every other entry is kept; without input text nothing is written and the script is `inputFile` |
| Worker.Invoke | src/lammps-worker.js:185 | without `callMain` the run returns exit code 0, prints nothing and leaves `/sim` as it was |
| Worker.FinalEvent | src/lammps-worker.js:185-199 | a run that reached the engine ends with `completed` carrying the engine's exit code when it returns, and with an error when it throws |
| Worker.RunLammps | src/lammps-worker.js:152-201 | before readiness, one not-initialized error and no change; once ready, the stdout banner comes first, then only stdout/stderr lines, then exactly one `completed` or error, last; the working directory is unchanged or `/sim` |
| Worker.DeleteFile | src/lammps-worker.js:203-215 | before readiness, silence and no change; it posts `file-deleted` exactly when the unlink succeeds, which removes that plain file only; otherwise nothing is posted and nothing changes |
| Worker.GetFile | src/lammps-worker.js:217-241 | get-file never changes the state and posts exactly one event; it is `file-content` exactly when the read succeeds, and then it names the file and carries the bytes `/sim` holds for it; before readiness it is the not-initialized error |
| Worker.UnlinkEach | src/lammps-worker.js:249-257 | the cleanup loop only issues unlink calls, only for names from the listing, and never for `.` or `..` |
| Worker.Cleanup | src/lammps-worker.js:243-269 | before readiness, silence and no change; once ready, exactly one event: the "cleaned up" stdout line exactly when readdir succeeds, and then `/sim` holds exactly the entries whose unlink failed; a readdir error changes nothing |
| Worker.Dispatch | src/lammps-worker.js:97-127 | an unrecognised type posts exactly the one "Unknown message type: " error and changes nothing; no handler resets the flag |
| Worker.Step | src/lammps-worker.js:4-49 | no step resets the flag, and every step keeps a valid state valid: flag set exactly when `/sim` exists, working directory `/` or `/sim` |
| WorkerProperties.NotInitializedRejects | src/lammps-worker.js:129-224 | before readiness, upload-file, run-lammps and get-file each post exactly one "Worker not initialized yet" error and change nothing |
| WorkerProperties.NotInitializedSilent | src/lammps-worker.js:203-244 | before readiness, delete-file and cleanup post nothing and change nothing |
| WorkerProperties.BecomesReadyOnlyThroughMkdir | src/lammps-worker.js:28-49 | the flag goes from false to true only on the runtime-initialized callback with a successful mkdir, which posts the stdout line and then `ready` |
| WorkerProperties.StepReadyCount | src/lammps-worker.js:28-49 | from a valid state, a step posts one `ready` exactly when it takes the worker from not initialized to initialized, and none otherwise |
| WorkerProperties.NoReadyInMessageReply | src/lammps-worker.js:97-127 | no inbound message ever makes the worker post `ready` |
| WorkerProperties.ReadyAtMostOnce | src/lammps-worker.js:4-49 | over any run from a valid state, initialization is never undone, and `ready` is posted at most once: exactly when the run initializes the worker |
| WorkerProperties.RunKeepsValid | src/lammps-worker.js:28-49 | every state a run reaches from a valid state is valid |
| WorkerProperties.BootThenInitialized | src/lammps-worker.js:4-42 | from the boot state, initialization with a working mkdir yields an empty `/sim`, the flag set, and the stdout line followed by `ready` |
| WorkerProperties.UnknownTypeIff | src/lammps-worker.js:97-127 | an unknown-type error is posted exactly when the type is not one of the five handled, and then it is the only event and nothing changes |
| WorkerProperties.UploadThenGet | src/lammps-worker.js:138-240 | after a successful upload, get-file of that name posts exactly one `file-content` with that name and the uploaded bytes, unless the read is made to fail |
| WorkerProperties.UploadThenGetIdentity | src/lammps-worker.js:138-240 | when the uploaded numbers are bytes, the content read back is exactly the content uploaded |
| WorkerProperties.GetMissingIsError | src/lammps-worker.js:226-240 | reading a name `/sim` does not hold posts exactly one error and changes nothing |
| WorkerProperties.DeleteMissingIsSilent | src/lammps-worker.js:203-215 | deleting a name `/sim` does not hold posts nothing and changes nothing |
| WorkerProperties.DeleteExistingRemovesOnlyIt | src/lammps-worker.js:206-211 | deleting an existing plain file posts `file-deleted`, removes that entry and keeps every other entry |
| WorkerProperties.RunTranscriptInOrder | src/lammps-worker.js:161-193 | a run that reaches the engine calls it with `-in input.lmp` (input text given) or `-in <inputFile>` in `/sim`; it posts the banner, the echoed command, the engine's lines, then `completed` with the engine's exit code or one error; `/sim` is what the engine left |
| WorkerProperties.RunWithoutEngineExitsZero | src/lammps-worker.js:161-193 | without `callMain`, a run posts exactly the banner, the echoed `lmp -in <script>` line and `completed` with exit code 0 |
| WorkerProperties.RunFaultKeepsWrites | src/lammps-worker.js:167-200 | a failed chdir after `input.lmp` was written ends the run with one error after the banner, and the written script stays in `/sim` |
| WorkerProperties.UnlinkEachLeaves | src/lammps-worker.js:249-257 | the cleanup loop leaves exactly the entries the listing does not name plus those whose unlink throws, contents unchanged |
| WorkerProperties.UnlinkIndependent | src/lammps-worker.js:252 | whether unlinking a name throws depends only on that entry |
| WorkerProperties.CleanupAnyOrder | src/lammps-worker.js:248-257 | for every order in which readdir may list `/sim`, the cleanup loop leaves exactly the survivors |
| WorkerProperties.CleanupRemovesFiles | src/lammps-worker.js:243-267 | after a cleanup with no injected readdir or unlink failure only directories remain, so reading back any file that was there posts one error |

## Left out

- Loading the engine with `importScripts('lmp.js')` (lines 73-84) is not modelled: it is I/O. So are the two debug stdout posts at start-up (lines 7-10, 68-71).
- Real time: the 10-second timer is the `InitTimeout` input. The model lets it occur at any point and any number of times; the browser fires it once.
- `postMessage`'s structured cloning is not modelled. Events are values.
- The engine is opaque. Its effect is limited to what `Engine` returns: printed lines, the contents of `/sim`, and an exit code or error. Files it writes outside `/sim` are not modelled, and neither is a change of working directory it makes itself.
- An abort or exit fired from inside `callMain` is a separate `Abort`/`Exit` input. It is not interleaved with that run's output.
- Filesystem error texts are abstract. An error's `err.message` is its errno name, or the injected message; Emscripten's own wording is not modelled.
- MemFs.WriteFile, MemFs.ReadFile, MemFs.Unlink: a name containing `/` fails with ENOENT in the model. The real filesystem resolves it below or outside `/sim`, so such a name may succeed there: the path-traversal gap is not modelled. `""`, `.` and `..` fail with EISDIR. Sub-directories of `/sim` are entries without contents.
- The contents of messages are simplified. A missing field reads as empty (`""` or an empty array). A message without `data`, which makes `data.filename` throw out of `onmessage`, is not modelled. Neither is a non-string `inputContent` or a missing `inputFile` (which yields `-in undefined`).
- A missing `name` or `filename` is not modelled as JavaScript treats it. There it becomes the text "undefined", so the path is `/sim/undefined`, an ordinary file name: a nameless upload succeeds in the script, and get-file or delete-file of a nameless request acts on `/sim/undefined`. In the model the missing field is `""`, which fails with EISDIR (upload, get-file) or is ignored (delete-file).
- Utf8.DecodeEncode, Worker.PrepareInput: `inputContent` is modelled as a sequence of Unicode scalar values (Dafny `char`). JavaScript strings holding unpaired surrogates, which `writeFile` encodes lossily, are not modelled.
- Upload content is modelled as integral numbers. Fractional, NaN or infinite numbers, which `Uint8Array` truncates or zeroes, are not modelled.
- Decimal.IntRoundTrip: exit codes are rendered as plain decimal. The exponent notation JavaScript uses for magnitudes of 10^21 and above is not modelled.
- Worker.Cleanup uses the order-independent `Survivors`. The per-name loop `UnlinkEach` is proved equal to it for every listing order (`WorkerProperties.CleanupAnyOrder`), because Dafny functions cannot enumerate a map's keys in the order readdir returns them.
- The client-side bridge is not part of this model. That covers pending-read correlation, the 5-second read timeout and waiting for readiness.
- The build scripts, the package entry point `src/index.js`, the type declarations and the tests are not part of this model either.
