/** The worker script `src/lammps-worker.js` as a sequential state machine.
    Every callback and message handler runs to completion on one thread, so
    each inbound message and each lifecycle callback is one pure `Step` from a
    state to the next state plus the events it posts, in order. */
module Worker {
  import opened Basics
  import opened MemFs
  import opened Protocol
  import Decimal
  import Utf8

  /** A line the engine prints through `Module.print` or `Module.printErr`
      while `callMain` runs. */
  datatype Print = PrintOut(text: string) | PrintErr(text: string)

  /** How `callMain` ends: it returns an exit code, or it throws. */
  datatype EngineResult = Exited(code: int) | Threw(message: string)

  /** What one `callMain` does, as far as the worker can see: the lines it
      prints, in order, the contents of `/sim` it leaves behind (log files,
      dumps, ...) and how it ends. */
  datatype EngineRun = EngineRun(prints: seq<Print>, dir: Dir, result: EngineResult)

  /** The compute engine, opaque: from the argument list and the contents of
      the working directory `/sim` to what the call does. */
  type Engine = (seq<string>, Dir) -> EngineRun

  /** What the outside world contributes to one step: the filesystem calls
      that throw, and `Module.callMain` (None when the module has none). */
  datatype Env = Env(faults: Faults, callMain: Option<Engine>)

  /** The worker's state: the `isInitialized` flag and the filesystem. */
  datatype State = State(initialized: bool, fs: Fs)

  /** The state when the script starts: not initialized, no `/sim`. */
  const Boot: State := State(false, Fs(None, InitialCwd))

  /** The outcome of one step: the next state and the events posted. */
  datatype Reaction = Reaction(next: State, events: seq<Event>)

  /** What can happen to the worker: an inbound message, one of the module's
      lifecycle callbacks, the 10-second timer firing, or a line the engine
      prints outside a run. */
  datatype Input =
    | Message(msg: Inbound)
    | RuntimeInitialized
    | InitTimeout
    | Abort(what: string)
    | Exit(status: int)
    | EnginePrint(line: Print)

  /** What every reachable state satisfies: the flag is set exactly when
      `/sim` exists, and the working directory is `/` or `/sim`. */
  predicate Valid(s: State)
  {
    && s.initialized == s.fs.sim.Some?
    && (s.fs.cwd == InitialCwd || s.fs.cwd == SimRoot)
  }

  // ---------------------------------------------------------------------
  // Lifecycle callbacks

  /** `Module.onRuntimeInitialized`: create `/sim`, then announce readiness. */
  function OnRuntimeInitialized(s: State, faults: Faults): (r: Reaction)
    ensures r.next.initialized <==> s.initialized || Mkdir(s.fs, faults).Done?
    ensures Mkdir(s.fs, faults).Done? ==>
              && r.events == [Stdout(FsCreatedText), Ready(ReadyText)]
              && r.next.fs == Fs(Some(map[]), s.fs.cwd)
    ensures Mkdir(s.fs, faults).Failed? ==>
              r.next == s && |r.events| == 1 && r.events[0].Error?
  {
    match Mkdir(s.fs, faults)
    case Done(fs') => Reaction(State(true, fs'), [Stdout(FsCreatedText), Ready(ReadyText)])
    case Failed(e) => Reaction(s, [Error("Failed to initialize: " + e.Message())])
  }

  /** The 10-second hang check: it only reports, it changes nothing. */
  function OnInitTimeout(s: State): (r: Reaction)
    ensures r.next == s
    ensures r.events != [] <==> !s.initialized
    ensures r.events == [] || r.events == [Error(InitTimeoutText)]
  {
    if !s.initialized then Reaction(s, [Error(InitTimeoutText)]) else Reaction(s, [])
  }

  const AbortPrefix: string := "WebAssembly aborted: "

  /** `Module.onAbort(what)`: one error naming the reason. */
  function OnAbort(s: State, what: string): (r: Reaction)
    ensures r.next == s
    ensures |r.events| == 1 && r.events[0].Error?
    ensures var t := r.events[0].text; |t| >= |what| && t[|t| - |what|..] == what
  {
    Reaction(s, [Error(AbortPrefix + what)])
  }

  const ExitPrefix: string := "WebAssembly exited with status: "

  /** `Module.onExit(status)`: one stdout line from which the status can be
      read back. */
  function OnExit(s: State, status: int): (r: Reaction)
    ensures r.next == s
    ensures |r.events| == 1 && r.events[0].Stdout?
    ensures var t := r.events[0].text;
              && |t| > |ExitPrefix| && t[..|ExitPrefix|] == ExitPrefix
              && Decimal.ParseInt(t[|ExitPrefix|..]) == Some(status)
  {
    var t := ExitPrefix + Decimal.IntToString(status);
    Decimal.IntRoundTrip(status);
    assert t[|ExitPrefix|..] == Decimal.IntToString(status);
    Reaction(s, [Stdout(t)])
  }

  /** `Module.print` or `Module.printErr` called outside a run, for instance
      by the module's own start-up: one stdout or stderr event with the text. */
  function OnPrint(s: State, line: Print): (r: Reaction)
    ensures r.next == s
    ensures |r.events| == 1 && r.events[0].IsOutput() && r.events[0].text == line.text
    ensures r.events[0].Stdout? <==> line.PrintOut?
  {
    Reaction(s, PrintEvents([line]))
  }

  // ---------------------------------------------------------------------
  // Message handlers

  /** `handleFileUpload`: write the uploaded numbers, as bytes, to
      `/sim/<name>`. */
  function HandleFileUpload(s: State, name: string, content: seq<int>, faults: Faults): (r: Reaction)
    ensures r.next.initialized == s.initialized && r.next.fs.cwd == s.fs.cwd
    ensures |r.events| == 1 && (r.events[0].FileUploaded? || r.events[0].Error?)
    ensures !s.initialized ==> r == Reaction(s, [Error(NotInitialized)])
    ensures r.events[0].FileUploaded? <==>
              s.initialized && WriteFile(s.fs, name, ToUint8Array(content), faults).Done?
    ensures r.events[0].FileUploaded? ==>
              && r.next.fs.sim.Some? && s.fs.sim.Some?
              && r.next.fs.sim.value.Keys == s.fs.sim.value.Keys + {name}
              && r.next.fs.sim.value[name] == File(ToUint8Array(content))
              && forall other :: other in s.fs.sim.value && other != name ==>
                   r.next.fs.sim.value[other] == s.fs.sim.value[other]
    ensures r.events[0].Error? ==> r.next == s
  {
    if !s.initialized then Reaction(s, [Error(NotInitialized)])
    else match WriteFile(s.fs, name, ToUint8Array(content), faults)
      case Done(fs') => Reaction(s.(fs := fs'), [FileUploaded("Uploaded: " + name)])
      case Failed(e) => Reaction(s, [Error("Failed to upload " + name + ": " + e.Message())])
  }

  /** The fixed name of the input script written from `inputContent`. */
  const InputName: string := "input.lmp"

  /** The preparation of a run: when the input text is non-empty (a truthy
      string) it is written to `/sim/input.lmp`, which becomes the script;
      otherwise nothing is written and the script is `inputFile`. Yields the
      filesystem afterwards and the script name. */
  function PrepareInput(fs: Fs, inputContent: string, inputFile: string, faults: Faults): (r: Outcome<(Fs, string)>)
    ensures inputContent == "" ==> r == Done((fs, inputFile))
    ensures inputContent != "" ==>
              (r.Done? <==> WriteFile(fs, InputName, Utf8.Encode(inputContent), faults).Done?)
    ensures inputContent != "" && r.Done? ==>
              && r.value.1 == InputName
              && r.value.0.cwd == fs.cwd
              && fs.sim.Some? && r.value.0.sim.Some?
              && r.value.0.sim.value.Keys == fs.sim.value.Keys + {InputName}
              && r.value.0.sim.value[InputName] == File(Utf8.Encode(inputContent))
              && Utf8.Decode(r.value.0.sim.value[InputName].data) == Some(inputContent)
              && forall other :: other in fs.sim.value && other != InputName ==>
                   r.value.0.sim.value[other] == fs.sim.value[other]
  {
    if inputContent == "" then Done((fs, inputFile))
    else
      Utf8.DecodeEncode(inputContent);
      match WriteFile(fs, InputName, Utf8.Encode(inputContent), faults)
      case Done(fs') => Done((fs', InputName))
      case Failed(e) => Failed(e)
  }

  /** The events the engine's printed lines become. */
  function PrintEvents(prints: seq<Print>): (events: seq<Event>)
    ensures |events| == |prints|
    ensures forall i :: 0 <= i < |prints| ==>
              events[i].IsOutput() && events[i].text == prints[i].text
              && (events[i].Stdout? <==> prints[i].PrintOut?)
  {
    seq(|prints|, i requires 0 <= i < |prints| =>
      match prints[i]
      case PrintOut(t) => Stdout(t)
      case PrintErr(t) => Stderr(t))
  }

  /** The event that ends a run that got as far as `callMain`. */
  function FinalEvent(result: EngineResult): (e: Event)
    ensures e.IsTerminal()
    ensures e.Completed? <==> result.Exited?
    ensures e.Completed? ==> e.exitCode == result.code
  {
    match result
    case Exited(code) => Completed(code, "Run completed with exit code: " + Decimal.IntToString(code))
    case Threw(m) => Error("Execution error: " + m)
  }

  /** The engine call of a run, with the lines it prints: when the module
      has no `callMain` entry point nothing is printed, nothing changes and
      the exit code is 0. */
  function Invoke(callMain: Option<Engine>, args: seq<string>, dir: Dir): (run: EngineRun)
    ensures callMain.None? ==> run.prints == [] && run.dir == dir && run.result == Exited(0)
  {
    match callMain
    case None => EngineRun([], dir, Exited(0))
    case Some(engine) => engine(args, dir)
  }

  /** The shape of every run-lammps transcript on an initialized worker: the
      start banner first, then only output lines, then exactly one `completed`
      or `error`, last. */
  predicate RunTranscript(events: seq<Event>)
  {
    && |events| >= 2
    && events[0] == Stdout(StartBanner)
    && events[|events| - 1].IsTerminal()
    && forall i :: 0 <= i < |events| - 1 ==> events[i].IsOutput()
  }

  /** `runLammps`: optionally write the input script, change into `/sim`,
      echo the command line and run the engine with `-in <script>`. */
  function RunLammps(s: State, inputContent: string, inputFile: string, env: Env): (r: Reaction)
    ensures r.next.initialized == s.initialized
    ensures !s.initialized ==> r == Reaction(s, [Error(NotInitialized)])
    ensures s.initialized ==> RunTranscript(r.events)
    ensures r.next.fs.cwd == s.fs.cwd || r.next.fs.cwd == SimRoot
    ensures s.fs.sim.Some? ==> r.next.fs.sim.Some?
    ensures s.fs.sim.None? ==> r.next == s
  {
    if !s.initialized then Reaction(s, [Error(NotInitialized)])
    else
      var start := Stdout(StartBanner);
      match PrepareInput(s.fs, inputContent, inputFile, env.faults)
      case Failed(e) => Reaction(s, [start, Error("Execution error: " + e.Message())])
      case Done((fs1, script)) =>
        match Chdir(fs1, env.faults)
        case Failed(e) => Reaction(s.(fs := fs1), [start, Error("Execution error: " + e.Message())])
        case Done(fs2) =>
          var run := Invoke(env.callMain, ["-in", script], fs2.sim.value);
          Reaction(s.(fs := fs2.(sim := Some(run.dir))),
                   [start, Stdout("> lmp -in " + script)] + PrintEvents(run.prints) + [FinalEvent(run.result)])
  }

  /** `deleteFile`: unlink `/sim/<filename>`; any failure is swallowed. */
  function DeleteFile(s: State, filename: string, faults: Faults): (r: Reaction)
    ensures r.next.initialized == s.initialized && r.next.fs.cwd == s.fs.cwd
    ensures !s.initialized ==> r == Reaction(s, [])
    ensures |r.events| <= 1
    ensures |r.events| == 1 <==> s.initialized && Unlink(s.fs, filename, faults).Done?
    ensures |r.events| == 1 ==>
              && r.events[0] == FileDeleted("Deleted: " + filename)
              && s.fs.sim.Some? && filename in s.fs.sim.value && s.fs.sim.value[filename].File?
              && r.next.fs.sim == Some(s.fs.sim.value - {filename})
    ensures |r.events| == 0 ==> r.next == s
  {
    if !s.initialized then Reaction(s, [])
    else match Unlink(s.fs, filename, faults)
      case Done(fs') => Reaction(s.(fs := fs'), [FileDeleted("Deleted: " + filename)])
      case Failed(_) => Reaction(s, [])
  }

  /** `getFile`: read `/sim/<filename>` and send its bytes back. */
  function GetFile(s: State, filename: string, faults: Faults): (r: Reaction)
    ensures r.next == s
    ensures |r.events| == 1 && (r.events[0].FileContent? || r.events[0].Error?)
    ensures !s.initialized ==> r.events == [Error(NotInitialized)]
    ensures r.events[0].FileContent? <==> s.initialized && ReadFile(s.fs, filename, faults).Done?
    ensures r.events[0].FileContent? ==>
              && r.events[0].filename == filename
              && s.fs.sim.Some? && filename in s.fs.sim.value
              && s.fs.sim.value[filename] == File(r.events[0].content)
  {
    if !s.initialized then Reaction(s, [Error(NotInitialized)])
    else match ReadFile(s.fs, filename, faults)
      case Done(bytes) => Reaction(s, [FileContent(filename, bytes)])
      case Failed(e) => Reaction(s, [Error("Failed to read " + filename + ": " + e.Message())])
  }

  /** The entries of `/sim` that survive cleanup: those whose unlink throws. */
  function Survivors(fs: Fs, faults: Faults): (d: Dir)
    requires fs.sim.Some?
    ensures forall name :: name in d <==> name in fs.sim.value && Unlink(fs, name, faults).Failed?
    ensures forall name :: name in d ==> d[name] == fs.sim.value[name]
  {
    map name | name in fs.sim.value && Unlink(fs, name, faults).Failed? :: fs.sim.value[name]
  }

  /** The `files.forEach` loop of `cleanup` over one readdir listing: skip
      `.` and `..`, unlink every other name, ignore each failure. Also
      returns the unlink calls made, in order. */
  function UnlinkEach(fs: Fs, listing: seq<string>, faults: Faults): (r: (Fs, seq<Op>))
    ensures r.0.cwd == fs.cwd && r.0.sim.Some? == fs.sim.Some?
    ensures forall i :: 0 <= i < |r.1| ==>
              && r.1[i].UnlinkEntry?
              && r.1[i].name in listing
              && r.1[i].name != "." && r.1[i].name != ".."
    decreases |listing|
  {
    if |listing| == 0 then (fs, [])
    else
      var name := listing[0];
      if name == "." || name == ".." then UnlinkEach(fs, listing[1..], faults)
      else
        var fs1 := match Unlink(fs, name, faults) case Done(f) => f case Failed(_) => fs;
        var rest := UnlinkEach(fs1, listing[1..], faults);
        (rest.0, [UnlinkEntry(name)] + rest.1)
  }

  /** `cleanup`: list `/sim` and unlink everything in it, best effort. */
  function Cleanup(s: State, faults: Faults): (r: Reaction)
    ensures r.next.initialized == s.initialized && r.next.fs.cwd == s.fs.cwd
    ensures !s.initialized ==> r == Reaction(s, [])
    ensures s.initialized ==> |r.events| == 1
    ensures s.initialized ==>
              (r.events[0] == Stdout(CleanedUpText) <==> Readdir(s.fs, faults).Done?)
    ensures s.initialized && Readdir(s.fs, faults).Failed? ==> r.next == s && r.events[0].Error?
    ensures s.initialized && Readdir(s.fs, faults).Done? ==>
              && s.fs.sim.Some? && r.next.fs.sim.Some?
              && (forall name :: name in r.next.fs.sim.value <==>
                    name in s.fs.sim.value && Unlink(s.fs, name, faults).Failed?)
              && (forall name :: name in r.next.fs.sim.value ==>
                    r.next.fs.sim.value[name] == s.fs.sim.value[name])
  {
    if !s.initialized then Reaction(s, [])
    else match Readdir(s.fs, faults)
      case Failed(e) => Reaction(s, [Error("Cleanup error: " + e.Message())])
      case Done(_) =>
        Reaction(s.(fs := s.fs.(sim := Some(Survivors(s.fs, faults)))), [Stdout(CleanedUpText)])
  }

  /** `self.onmessage`: switch on the message type. */
  function Dispatch(s: State, m: Inbound, env: Env): (r: Reaction)
    ensures m.kind !in KnownKinds ==> r == Reaction(s, [Error(UnknownTypePrefix + m.kind)])
    ensures r.next.initialized == s.initialized
  {
    match m.kind
    case "upload-file" => HandleFileUpload(s, m.data.name, m.data.content, env.faults)
    case "run-lammps" => RunLammps(s, m.data.inputContent, m.data.inputFile, env)
    case "delete-file" => DeleteFile(s, m.data.filename, env.faults)
    case "cleanup" => Cleanup(s, env.faults)
    case "get-file" => GetFile(s, m.data.filename, env.faults)
    case _ => Reaction(s, [Error(UnknownTypePrefix + m.kind)])
  }

  /** One step of the worker. */
  function Step(s: State, input: Input, env: Env): (r: Reaction)
    ensures s.initialized ==> r.next.initialized
    ensures Valid(s) ==> Valid(r.next)
  {
    match input
    case Message(m) => Dispatch(s, m, env)
    case RuntimeInitialized => OnRuntimeInitialized(s, env.faults)
    case InitTimeout => OnInitTimeout(s)
    case Abort(what) => OnAbort(s, what)
    case Exit(status) => OnExit(s, status)
    case EnginePrint(line) => OnPrint(s, line)
  }

  /** One input together with the environment it meets. */
  datatype Tick = Tick(input: Input, env: Env)

  /** A run of steps: the final state and every event posted, in order. */
  function Run(s: State, ticks: seq<Tick>): (r: Reaction)
    decreases |ticks|
  {
    if |ticks| == 0 then Reaction(s, [])
    else
      var first := Step(s, ticks[0].input, ticks[0].env);
      var rest := Run(first.next, ticks[1..]);
      Reaction(rest.next, first.events + rest.events)
  }
}
