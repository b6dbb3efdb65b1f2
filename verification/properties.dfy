/** Properties of the worker that relate several steps, or a step to an
    independent description of what it should do. */
module WorkerProperties {
  import opened Basics
  import opened MemFs
  import opened Protocol
  import opened Worker
  import Utf8

  // ---------------------------------------------------------------------
  // Readiness

  /** The three requests that answer "not initialized" before readiness. */
  const Rejecting: set<string> := {"upload-file", "run-lammps", "get-file"}

  /** Before readiness, upload-file, run-lammps and get-file each post exactly
      one "not initialized" error and change nothing. */
  lemma NotInitializedRejects(s: State, m: Inbound, env: Env)
    requires !s.initialized
    requires m.kind in Rejecting
    ensures Step(s, Message(m), env) == Reaction(s, [Error(NotInitialized)])
  {
  }

  /** Before readiness, delete-file and cleanup are silent and change nothing. */
  lemma NotInitializedSilent(s: State, m: Inbound, env: Env)
    requires !s.initialized
    requires m.kind == "delete-file" || m.kind == "cleanup"
    ensures Step(s, Message(m), env) == Reaction(s, [])
  {
  }

  /** The flag becomes true only through the runtime-initialized callback,
      only when creating `/sim` succeeds, and then a stdout line precedes the
      single ready event. */
  lemma BecomesReadyOnlyThroughMkdir(s: State, input: Input, env: Env)
    requires !s.initialized
    requires Step(s, input, env).next.initialized
    ensures input == RuntimeInitialized
    ensures Mkdir(s.fs, env.faults).Done?
    ensures Step(s, input, env).events == [Stdout(FsCreatedText), Ready(ReadyText)]
  {
  }

  /** No event other than a successful runtime initialization posts `ready`. */
  lemma {:induction false} StepReadyCount(s: State, input: Input, env: Env)
    requires Valid(s)
    ensures CountReady(Step(s, input, env).events) ==
              if !s.initialized && Step(s, input, env).next.initialized then 1 else 0
  {
    var r := Step(s, input, env);
    match input
    case Message(m) =>
      NoReadyInMessageReply(s, m, env);
    case RuntimeInitialized =>
      if s.initialized {
        assert Mkdir(s.fs, env.faults).Failed?;
        assert CountReady(r.events) == CountReady(r.events[1..]);
      } else if r.next.initialized {
        assert r.events == [Stdout(FsCreatedText), Ready(ReadyText)];
        assert CountReady(r.events) == CountReady(r.events[1..]) + 0;
        assert CountReady(r.events[1..]) == 1 + CountReady(r.events[2..]);
      } else {
        assert CountReady(r.events) == CountReady(r.events[1..]);
      }
    case InitTimeout =>
      if !s.initialized {
        assert CountReady(r.events) == CountReady(r.events[1..]);
      }
    case Abort(_) =>
      assert CountReady(r.events) == CountReady(r.events[1..]);
    case Exit(_) =>
      assert CountReady(r.events) == CountReady(r.events[1..]);
    case EnginePrint(_) =>
      assert CountReady(r.events) == CountReady(r.events[1..]);
  }

  /** Handlers of inbound messages never post `ready`. */
  lemma NoReadyInMessageReply(s: State, m: Inbound, env: Env)
    ensures CountReady(Dispatch(s, m, env).events) == 0
  {
    var evs := Dispatch(s, m, env).events;
    if m.kind == "run-lammps" && s.initialized {
      assert forall i :: 0 <= i < |evs| ==> evs[i].IsOutput() || evs[i].IsTerminal();
    }
  }

  /** Over any run from a reachable state, `ready` is posted at most once, and
      it is posted exactly when the run takes the worker from not initialized
      to initialized. Once initialized, the worker stays so. */
  lemma {:induction false} ReadyAtMostOnce(s: State, ticks: seq<Tick>)
    requires Valid(s)
    ensures s.initialized ==> Run(s, ticks).next.initialized
    ensures CountReady(Run(s, ticks).events) ==
              if !s.initialized && Run(s, ticks).next.initialized then 1 else 0
    decreases |ticks|
  {
    if |ticks| > 0 {
      var first := Step(s, ticks[0].input, ticks[0].env);
      StepReadyCount(s, ticks[0].input, ticks[0].env);
      ReadyAtMostOnce(first.next, ticks[1..]);
      CountReadyAppend(first.events, Run(first.next, ticks[1..]).events);
    }
  }

  /** Every state a run reaches from a valid state is valid (and the boot
      state is valid, see `BootThenInitialized`). */
  lemma {:induction false} RunKeepsValid(s: State, ticks: seq<Tick>)
    requires Valid(s)
    ensures Valid(Run(s, ticks).next)
    decreases |ticks|
  {
    if |ticks| > 0 {
      RunKeepsValid(Step(s, ticks[0].input, ticks[0].env).next, ticks[1..]);
    }
  }

  /** From boot, the runtime-initialized callback with a working mkdir makes
      the worker ready with an empty `/sim`. */
  lemma BootThenInitialized(env: Env)
    requires env.faults(MkdirSim).None?
    ensures Valid(Boot)
    ensures Step(Boot, RuntimeInitialized, env) ==
              Reaction(State(true, Fs(Some(map[]), InitialCwd)), [Stdout(FsCreatedText), Ready(ReadyText)])
  {
  }

  // ---------------------------------------------------------------------
  // Dispatch

  /** Some event is an error whose text begins with the unknown-type prefix. */
  predicate ReportsUnknownType(events: seq<Event>)
  {
    exists i :: 0 <= i < |events| && events[i].Error? && UnknownTypePrefix <= events[i].text
  }

  /** Texts that begin with a letter other than the one the unknown-type
      prefix begins with cannot carry that prefix. */
  lemma OtherPrefix(t: string, p: string)
    requires |p| > 0 && p <= t && p[0] != 'U'
    ensures !(UnknownTypePrefix <= t)
  {
    assert t[0] == p[0];
  }

  /** An unknown-type error is posted, and then it is the only event and the
      state is unchanged, exactly when the type is not one of the five the
      dispatcher knows. */
  lemma UnknownTypeIff(s: State, m: Inbound, env: Env)
    ensures m.kind !in KnownKinds ==>
              Step(s, Message(m), env) == Reaction(s, [Error(UnknownTypePrefix + m.kind)])
    ensures ReportsUnknownType(Step(s, Message(m), env).events) <==> m.kind !in KnownKinds
  {
    var evs := Step(s, Message(m), env).events;
    if m.kind !in KnownKinds {
      assert evs[0].Error? && UnknownTypePrefix <= evs[0].text;
    } else {
      forall i | 0 <= i < |evs| && evs[i].Error?
        ensures !(UnknownTypePrefix <= evs[i].text)
      {
        var t := evs[i].text;
        if t == NotInitialized {
          OtherPrefix(t, "W");
        } else if m.kind == "upload-file" {
          OtherPrefix(t, "F");
        } else if m.kind == "get-file" {
          OtherPrefix(t, "F");
        } else if m.kind == "cleanup" {
          OtherPrefix(t, "C");
        } else {
          assert m.kind == "run-lammps";
          OtherPrefix(t, "E");
        }
      }
    }
  }

  // ---------------------------------------------------------------------
  // Files

  /** Upload, then read back: a successful upload-file followed by a get-file
      for the same name answers with exactly one file-content carrying that
      name and the uploaded numbers as bytes, unless the read itself is made
      to fail. */
  lemma UploadThenGet(s: State, up: Inbound, get: Inbound, env: Env, env': Env)
    requires up.kind == "upload-file" && get.kind == "get-file"
    requires get.data.filename == up.data.name
    requires Step(s, Message(up), env).events[0].FileUploaded?
    requires env'.faults(ReadEntry(up.data.name)).None?
    ensures Step(Step(s, Message(up), env).next, Message(get), env').events ==
              [FileContent(up.data.name, ToUint8Array(up.data.content))]
  {
    var fs' := Step(s, Message(up), env).next.fs;
    assert ReadFile(fs', up.data.name, env'.faults) == Done(ToUint8Array(up.data.content));
  }

  /** When the uploaded numbers are bytes, the round trip is the identity. */
  lemma UploadThenGetIdentity(s: State, up: Inbound, get: Inbound, env: Env, env': Env)
    requires up.kind == "upload-file" && get.kind == "get-file"
    requires get.data.filename == up.data.name
    requires AllBytes(up.data.content)
    requires Step(s, Message(up), env).events[0].FileUploaded?
    requires env'.faults(ReadEntry(up.data.name)).None?
    ensures var evs := Step(Step(s, Message(up), env).next, Message(get), env').events;
              |evs| == 1 && evs[0].FileContent? && evs[0].content == up.data.content
  {
    UploadThenGet(s, up, get, env, env');
    ToUint8ArrayKeepsBytes(up.data.content);
  }

  /** Reading a name `/sim` does not hold posts exactly one error. */
  lemma GetMissingIsError(s: State, m: Inbound, env: Env)
    requires Valid(s) && s.initialized
    requires m.kind == "get-file" && m.data.filename !in s.fs.sim.value
    ensures Step(s, Message(m), env).next == s
    ensures |Step(s, Message(m), env).events| == 1 && Step(s, Message(m), env).events[0].Error?
  {
  }

  /** Deleting a name `/sim` does not hold posts nothing and changes nothing. */
  lemma DeleteMissingIsSilent(s: State, m: Inbound, env: Env)
    requires Valid(s)
    requires m.kind == "delete-file"
    requires s.initialized ==> m.data.filename !in s.fs.sim.value
    ensures Step(s, Message(m), env) == Reaction(s, [])
  {
  }

  /** Deleting a plain file removes that entry and only that one. */
  lemma DeleteExistingRemovesOnlyIt(s: State, m: Inbound, env: Env)
    requires Valid(s) && s.initialized
    requires m.kind == "delete-file"
    requires m.data.filename in s.fs.sim.value && s.fs.sim.value[m.data.filename].File?
    requires env.faults(UnlinkEntry(m.data.filename)).None?
    ensures Step(s, Message(m), env).events == [FileDeleted("Deleted: " + m.data.filename)]
    ensures Step(s, Message(m), env).next.fs.sim.value.Keys == s.fs.sim.value.Keys - {m.data.filename}
    ensures forall other :: other in Step(s, Message(m), env).next.fs.sim.value ==>
              Step(s, Message(m), env).next.fs.sim.value[other] == s.fs.sim.value[other]
  {
  }

  // ---------------------------------------------------------------------
  // Running the engine

  /** A run that gets as far as the engine: the engine is called with
      `-in input.lmp` when there is input text and `-in <inputFile>`
      otherwise, in `/sim`, and the events are the banner, the echoed command
      line, the engine's own lines, then one `completed` with the engine's
      exit code or one error. */
  lemma RunTranscriptInOrder(s: State, m: Inbound, env: Env)
    requires s.initialized && m.kind == "run-lammps"
    requires PrepareInput(s.fs, m.data.inputContent, m.data.inputFile, env.faults).Done?
    requires Chdir(PrepareInput(s.fs, m.data.inputContent, m.data.inputFile, env.faults).value.0, env.faults).Done?
    ensures var r := Step(s, Message(m), env);
            var fs1 := PrepareInput(s.fs, m.data.inputContent, m.data.inputFile, env.faults).value.0;
            var args := ["-in", if m.data.inputContent != "" then "input.lmp" else m.data.inputFile];
            var run := Invoke(env.callMain, args, fs1.sim.value);
            && r.next.fs.cwd == SimRoot
            && r.next.fs.sim == Some(run.dir)
            && r.events == [Stdout(StartBanner), Stdout("> lmp -in " + args[1])]
                           + PrintEvents(run.prints) + [FinalEvent(run.result)]
            && (r.events[|r.events| - 1].Completed? <==> run.result.Exited?)
            && (run.result.Exited? ==> r.events[|r.events| - 1].exitCode == run.result.code)
  {
  }

  /** Without `callMain` a run posts the banner, the echoed command line and
      `completed` with exit code 0, and nothing else. */
  lemma RunWithoutEngineExitsZero(s: State, m: Inbound, env: Env)
    requires s.initialized && m.kind == "run-lammps" && env.callMain.None?
    requires PrepareInput(s.fs, m.data.inputContent, m.data.inputFile, env.faults).Done?
    requires Chdir(PrepareInput(s.fs, m.data.inputContent, m.data.inputFile, env.faults).value.0, env.faults).Done?
    ensures var evs := Step(s, Message(m), env).events;
            && |evs| == 3
            && evs[0] == Stdout(StartBanner)
            && evs[1] == Stdout("> lmp -in " + (if m.data.inputContent != "" then InputName else m.data.inputFile))
            && evs[2].Completed? && evs[2].exitCode == 0
  {
  }

  /** A failed chdir after `input.lmp` was written ends the run with one
      error after the banner, and the written script stays. */
  lemma RunFaultKeepsWrites(s: State, m: Inbound, env: Env)
    requires s.initialized && m.kind == "run-lammps" && m.data.inputContent != ""
    requires PrepareInput(s.fs, m.data.inputContent, m.data.inputFile, env.faults).Done?
    requires Chdir(PrepareInput(s.fs, m.data.inputContent, m.data.inputFile, env.faults).value.0, env.faults).Failed?
    ensures var r := Step(s, Message(m), env);
            && |r.events| == 2 && r.events[0] == Stdout(StartBanner) && r.events[1].Error?
            && r.next.fs.sim.Some? && InputName in r.next.fs.sim.value
            && r.next.fs.sim.value[InputName] == File(Utf8.Encode(m.data.inputContent))
  {
  }

  // ---------------------------------------------------------------------
  // Cleanup

  /** What `UnlinkEach` leaves of `/sim`: the entries the listing does not
      name, and those it names whose unlink throws. */
  lemma {:induction false} UnlinkEachLeaves(fs: Fs, listing: seq<string>, faults: Faults)
    requires fs.sim.Some?
    ensures var d := UnlinkEach(fs, listing, faults).0.sim.value;
            && (forall name :: name in d <==>
                  name in fs.sim.value && (name !in listing || Unlink(fs, name, faults).Failed?))
            && (forall name :: name in d ==> d[name] == fs.sim.value[name])
    decreases |listing|
  {
    if |listing| > 0 {
      var name := listing[0];
      var tail := listing[1..];
      assert forall x :: x in listing <==> x == name || x in tail;
      if name == "." || name == ".." {
        UnlinkEachLeaves(fs, tail, faults);
      } else {
        var fs1 := match Unlink(fs, name, faults) case Done(f) => f case Failed(_) => fs;
        UnlinkEachLeaves(fs1, tail, faults);
        forall x | x != name
          ensures Unlink(fs1, x, faults).Failed? == Unlink(fs, x, faults).Failed?
        {
          UnlinkIndependent(fs, fs1, x, faults);
        }
        if Unlink(fs, name, faults).Failed? {
          assert fs1 == fs;
        }
      }
    }
  }

  /** Whether unlinking one name throws depends on that entry alone. */
  lemma UnlinkIndependent(fs: Fs, fs': Fs, name: string, faults: Faults)
    requires fs.sim.Some? && fs'.sim.Some?
    requires name in fs.sim.value <==> name in fs'.sim.value
    requires name in fs.sim.value ==> fs.sim.value[name] == fs'.sim.value[name]
    ensures Unlink(fs, name, faults).Failed? == Unlink(fs', name, faults).Failed?
  {
  }

  /** Cleanup does not depend on the order readdir lists `/sim` in: running
      the unlink loop over any listing of it leaves exactly the survivors. */
  lemma CleanupAnyOrder(fs: Fs, listing: seq<string>, faults: Faults)
    requires Readdir(fs, faults).Done?
    requires forall name :: name in listing <==> name in Readdir(fs, faults).value
    ensures UnlinkEach(fs, listing, faults).0.sim == Some(Survivors(fs, faults))
  {
    var dir := fs.sim.value;
    forall name | name in dir
      ensures name in listing
    {
      assert name in Readdir(fs, faults).value;
    }
    UnlinkEachLeaves(fs, listing, faults);
    var d := UnlinkEach(fs, listing, faults).0.sim.value;
    var survivors := Survivors(fs, faults);
    assert forall name :: name in d <==> name in survivors;
    assert forall name :: name in d ==> d[name] == survivors[name];
    assert d == survivors;
  }

  /** After a cleanup that unlinks without injected failures, no plain file
      remains, so reading back any file that was there is an error. */
  lemma CleanupRemovesFiles(s: State, c: Inbound, get: Inbound, env: Env, env': Env)
    requires Valid(s) && s.initialized
    requires c.kind == "cleanup" && get.kind == "get-file"
    requires env.faults(ReaddirSim).None?
    requires forall name :: env.faults(UnlinkEntry(name)).None?
    requires get.data.filename in s.fs.sim.value && s.fs.sim.value[get.data.filename].File?
    ensures var r := Step(s, Message(c), env);
            && r.events == [Stdout(CleanedUpText)]
            && (forall name :: name in r.next.fs.sim.value ==> r.next.fs.sim.value[name].Directory?)
            && var g := Step(r.next, Message(get), env');
               |g.events| == 1 && g.events[0].Error?
  {
    var r := Step(s, Message(c), env);
    assert r == Cleanup(s, env.faults);
    assert Readdir(s.fs, env.faults).Done?;
    forall name | name in r.next.fs.sim.value
      ensures r.next.fs.sim.value[name].Directory?
    {
      assert Unlink(s.fs, name, env.faults).Failed?;
    }
    var name := get.data.filename;
    assert Unlink(s.fs, name, env.faults).Done?;
    assert name !in r.next.fs.sim.value;
    assert Step(r.next, Message(get), env') == GetFile(r.next, name, env'.faults);
  }
}
