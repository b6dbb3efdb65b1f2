/** The part of the compute module's in-memory filesystem the worker touches:
    the simulation directory `/sim` and the current working directory. Each
    operation either succeeds or fails with an error the worker catches.
    Failures come from the state itself (a missing name, a directory where a
    file is expected, `/sim` already existing) or are injected by a `Faults`
    oracle that stands for everything else that can make a call throw. */
module MemFs {
  import opened Basics

  /** The simulation directory the worker creates and works in. */
  const SimRoot: string := "/sim"

  /** The working directory before anything changes it. */
  const InitialCwd: string := "/"

  /** A name that denotes one entry directly inside `/sim`. */
  predicate IsEntryName(name: string)
  {
    name != "" && name != "." && name != ".." && '/' !in name
  }

  /** An entry of `/sim`: a plain file, or a sub-directory (which only the
      compute engine can create; its contents are not modelled). */
  datatype Node = File(data: seq<byte>) | Directory

  /** The contents of `/sim`, keyed by entry name. */
  type Dir = m: map<string, Node> | forall name :: name in m ==> IsEntryName(name)
    witness map[]

  /** `sim` is None until `/sim` has been created. */
  datatype Fs = Fs(sim: Option<Dir>, cwd: string)

  /** Why a call threw. */
  datatype FsError =
    | NoEntry          // ENOENT
    | AlreadyExists    // EEXIST
    | IsADirectory     // EISDIR
    | Injected(message: string)
  {
    /** The `err.message` a catch block sees; the engine's own wording is not
        modelled, so the errno name stands for it. */
    function Message(): string
    {
      match this
      case NoEntry => "ENOENT"
      case AlreadyExists => "EEXIST"
      case IsADirectory => "EISDIR"
      case Injected(m) => m
    }
  }

  /** One call into the filesystem, as far as the worker makes it. */
  datatype Op =
    | MkdirSim
    | ChdirSim
    | ReaddirSim
    | WriteEntry(name: string)
    | ReadEntry(name: string)
    | UnlinkEntry(name: string)

  /** Injected failures: a call `op` that would otherwise succeed throws with
      message `m` when `faults(op) == Some(m)`. */
  type Faults = Op -> Option<string>

  datatype Outcome<T> = Done(value: T) | Failed(error: FsError)

  /** Where the path `/sim/` + `name` fails to resolve to an entry of `/sim`:
      no `/sim` yet, a name that denotes a directory (`/sim/`, `/sim/.`,
      `/sim/..`), or a nested path below `/sim` (not modelled). */
  function PathError(fs: Fs, name: string): (e: Option<FsError>)
    ensures e.None? <==> fs.sim.Some? && IsEntryName(name)
  {
    if fs.sim.None? then Some(NoEntry)
    else if name == "" || name == "." || name == ".." then Some(IsADirectory)
    else if '/' in name then Some(NoEntry)
    else None
  }

  /** `FS.mkdir('/sim')`. */
  function Mkdir(fs: Fs, faults: Faults): (r: Outcome<Fs>)
    ensures r.Done? <==> fs.sim.None? && faults(MkdirSim).None?
    ensures r.Done? ==> r.value == Fs(Some(map[]), fs.cwd)
    ensures r.Failed? && fs.sim.Some? ==> r.error == AlreadyExists
  {
    if fs.sim.Some? then Failed(AlreadyExists)
    else if faults(MkdirSim).Some? then Failed(Injected(faults(MkdirSim).value))
    else Done(Fs(Some(map[]), fs.cwd))
  }

  /** `FS.chdir('/sim')`. */
  function Chdir(fs: Fs, faults: Faults): (r: Outcome<Fs>)
    ensures r.Done? <==> fs.sim.Some? && faults(ChdirSim).None?
    ensures r.Done? ==> r.value.cwd == SimRoot && r.value.sim == fs.sim
  {
    if fs.sim.None? then Failed(NoEntry)
    else if faults(ChdirSim).Some? then Failed(Injected(faults(ChdirSim).value))
    else Done(fs.(cwd := SimRoot))
  }

  /** `FS.readdir('/sim')`: the names listed, including `.` and `..`. */
  function Readdir(fs: Fs, faults: Faults): (r: Outcome<set<string>>)
    ensures r.Done? <==> fs.sim.Some? && faults(ReaddirSim).None?
    ensures r.Done? ==> r.value == fs.sim.value.Keys + {".", ".."}
  {
    if fs.sim.None? then Failed(NoEntry)
    else if faults(ReaddirSim).Some? then Failed(Injected(faults(ReaddirSim).value))
    else Done(fs.sim.value.Keys + {".", ".."})
  }

  /** `FS.writeFile('/sim/' + name, data)`: creates or replaces a plain file. */
  function WriteFile(fs: Fs, name: string, data: seq<byte>, faults: Faults): (r: Outcome<Fs>)
    ensures r.Done? <==> && PathError(fs, name).None?
                         && !(name in fs.sim.value && fs.sim.value[name].Directory?)
                         && faults(WriteEntry(name)).None?
    ensures r.Done? ==> && r.value.cwd == fs.cwd
                        && r.value.sim.Some?
                        && r.value.sim.value.Keys == fs.sim.value.Keys + {name}
                        && r.value.sim.value[name] == File(data)
                        && forall other :: other in fs.sim.value && other != name ==>
                             r.value.sim.value[other] == fs.sim.value[other]
  {
    if PathError(fs, name).Some? then Failed(PathError(fs, name).value)
    else if name in fs.sim.value && fs.sim.value[name].Directory? then Failed(IsADirectory)
    else if faults(WriteEntry(name)).Some? then Failed(Injected(faults(WriteEntry(name)).value))
    else Done(fs.(sim := Some(fs.sim.value[name := File(data)])))
  }

  /** `FS.readFile('/sim/' + name)`: the bytes of a plain file. */
  function ReadFile(fs: Fs, name: string, faults: Faults): (r: Outcome<seq<byte>>)
    ensures r.Done? <==> && PathError(fs, name).None?
                         && name in fs.sim.value && fs.sim.value[name].File?
                         && faults(ReadEntry(name)).None?
    ensures r.Done? ==> fs.sim.value[name] == File(r.value)
    ensures PathError(fs, name).None? && name !in fs.sim.value ==> r == Failed(NoEntry)
  {
    if PathError(fs, name).Some? then Failed(PathError(fs, name).value)
    else if name !in fs.sim.value then Failed(NoEntry)
    else if fs.sim.value[name].Directory? then Failed(IsADirectory)
    else if faults(ReadEntry(name)).Some? then Failed(Injected(faults(ReadEntry(name)).value))
    else Done(fs.sim.value[name].data)
  }

  /** `FS.unlink('/sim/' + name)`: removes a plain file; a missing name or a
      directory makes it throw. */
  function Unlink(fs: Fs, name: string, faults: Faults): (r: Outcome<Fs>)
    ensures r.Done? <==> && PathError(fs, name).None?
                         && name in fs.sim.value && fs.sim.value[name].File?
                         && faults(UnlinkEntry(name)).None?
    ensures r.Done? ==> && r.value.cwd == fs.cwd
                        && r.value.sim.Some?
                        && r.value.sim.value.Keys == fs.sim.value.Keys - {name}
                        && forall other :: other in r.value.sim.value ==>
                             r.value.sim.value[other] == fs.sim.value[other]
  {
    if PathError(fs, name).Some? then Failed(PathError(fs, name).value)
    else if name !in fs.sim.value then Failed(NoEntry)
    else if fs.sim.value[name].Directory? then Failed(IsADirectory)
    else if faults(UnlinkEntry(name)).Some? then Failed(Injected(faults(UnlinkEntry(name)).value))
    else Done(fs.(sim := Some(fs.sim.value - {name})))
  }

  /** Reading a name back after writing it yields the written bytes, unless
      the read itself is made to fail. */
  lemma ReadAfterWrite(fs: Fs, name: string, data: seq<byte>, faults: Faults, faults': Faults)
    requires WriteFile(fs, name, data, faults).Done?
    requires faults'(ReadEntry(name)).None?
    ensures ReadFile(WriteFile(fs, name, data, faults).value, name, faults') == Done(data)
  {
  }
}
