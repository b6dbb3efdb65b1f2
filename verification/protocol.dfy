/** The messages exchanged between the UI thread and the worker: inbound
    `{type, data}` requests and the outbound events the worker posts. */
module Protocol {
  import opened Basics

  /** The fields of an inbound `data` object the handlers read; a field the
      sender left out reads as empty. */
  datatype Payload = Payload(
    name: string,          // upload-file
    content: seq<int>,     // upload-file, the numbers of the byte array
    inputContent: string,  // run-lammps, "" when absent
    inputFile: string,     // run-lammps
    filename: string       // delete-file, get-file
  )

  /** An inbound message `{type: kind, data}`. */
  datatype Inbound = Inbound(kind: string, data: Payload)

  /** The five message types the dispatcher recognises. */
  const KnownKinds: set<string> :=
    {"upload-file", "run-lammps", "delete-file", "cleanup", "get-file"}

  /** An outbound message posted to the UI thread. */
  datatype Event =
    | Stdout(text: string)
    | Stderr(text: string)
    | Error(text: string)
    | Ready(text: string)
    | Completed(exitCode: int, message: string)
    | FileUploaded(text: string)
    | FileDeleted(text: string)
    | FileContent(filename: string, content: seq<byte>)
  {
    /** The `type` field on the wire. */
    function Type(): (t: string)
      ensures t in WireTypes
    {
      match this
      case Stdout(_) => "stdout"
      case Stderr(_) => "stderr"
      case Error(_) => "error"
      case Ready(_) => "ready"
      case Completed(_, _) => "completed"
      case FileUploaded(_) => "file-uploaded"
      case FileDeleted(_) => "file-deleted"
      case FileContent(_, _) => "file-content"
    }

    /** Output produced while a run is in progress. */
    predicate IsOutput()
    {
      Stdout? || Stderr?
    }

    /** An event that ends a run. */
    predicate IsTerminal()
    {
      Completed? || Error?
    }
  }

  /** The eight `type` strings the worker posts. */
  const WireTypes: set<string> :=
    {"stdout", "stderr", "error", "ready", "completed", "file-uploaded", "file-deleted", "file-content"}

  /** Run output is exactly what travels as `stdout` or `stderr`. */
  lemma OutputWireTypes(e: Event)
    ensures e.IsOutput() <==> e.Type() in {"stdout", "stderr"}
  {
  }

  /** A run ends with exactly what travels as `completed` or `error`. */
  lemma TerminalWireTypes(e: Event)
    ensures e.IsTerminal() <==> e.Type() in {"completed", "error"}
  {
  }

  const NotInitialized: string := "Worker not initialized yet"
  const UnknownTypePrefix: string := "Unknown message type: "
  const FsCreatedText: string := "Filesystem created. LAMMPS ready for use."
  const ReadyText: string := "LAMMPS WebAssembly worker initialized"
  const InitTimeoutText: string := "WebAssembly initialization timeout after 10 seconds"
  const StartBanner: string := "=== Starting LAMMPS run ==="
  const CleanedUpText: string := "Simulation files cleaned up"

  /** The number of `ready` events in a sequence. */
  function CountReady(events: seq<Event>): (n: nat)
    ensures n <= |events|
    ensures n == 0 <==> forall i :: 0 <= i < |events| ==> !events[i].Ready?
    decreases |events|
  {
    if |events| == 0 then 0
    else (if events[0].Ready? then 1 else 0) + CountReady(events[1..])
  }

  lemma {:induction false} CountReadyAppend(a: seq<Event>, b: seq<Event>)
    ensures CountReady(a + b) == CountReady(a) + CountReady(b)
    decreases |a|
  {
    if |a| > 0 {
      assert (a + b)[1..] == a[1..] + b;
      CountReadyAppend(a[1..], b);
    } else {
      assert a + b == b;
    }
  }
}
