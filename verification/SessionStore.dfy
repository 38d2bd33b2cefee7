/** The session side of the chat model: the log handle, the append counter and the saves it hands to
  the runtime, updated in place.  Each method makes one step of `SessionLog`. */
module SessionStore {
  import opened SessionLog

  class Store {
    var transcript: seq<Message>
    var open: bool
    var log: seq<nat>
    var walSeq: nat
    var disk: seq<Message>
    var saves: seq<Save>
    var attempts: nat

    ghost var appended: seq<nat>
    ghost var mark: nat

    ghost function Snapshot(): State
      reads this
    {
      State(transcript, open, log, walSeq, disk, saves, appended, attempts, mark)
    }

    constructor ()
      ensures Snapshot() == INITIAL && Inv(Snapshot())
    {
      transcript, open, log, walSeq, disk, saves := [], false, [], 0, [], [];
      appended, attempts, mark := [], 0, 0;
    }

    method EnsureWAL(opens: bool)
      modifies this`open
      ensures Snapshot() == EnsureOpen(old(Snapshot()), opens)
    {
      if open {
        return;
      }
      if !opens {
        return;
      }
      open := true;
    }

    /** The log-append step shared by a submitted message, a tool result and a finished answer. */
    method LogMessage(position: nat, opens: bool, appends: bool)
      modifies this`open, this`walSeq, this`log, this`appended, this`attempts
      ensures Snapshot() == Append(EnsureOpen(old(Snapshot()), opens), position, appends)
    {
      EnsureWAL(opens);
      if open {
        walSeq := (walSeq + 1) % WORD;
        attempts := attempts + 1;
        if appends {
          log := log + [position];
          appended := appended + [position];
        }
      }
    }

    method RemoveLog()
      modifies this`open, this`log, this`mark
      ensures Snapshot() == Drop(old(Snapshot()))
    {
      mark := if Top(log) > mark then Top(log) else mark;
      log := [];
      open := false;
    }

    /** The synchronous save of quit and of the panic handler. */
    method SaveSession(ok: bool, removes: bool)
      modifies this
      ensures Snapshot() == SaveAtOnce(old(Snapshot()), ok, removes)
    {
      if |transcript| == 0 {
        return;
      }
      saves := saves + [Save(transcript, walSeq, attempts, Delivered(ok))];
      if ok {
        disk := transcript;
      }
      if ok && open {
        if removes {
          RemoveLog();
        }
      }
    }

    /** Captures the transcript and the counter for a background save. */
    method SaveSessionCmd()
      modifies this`saves
      ensures Snapshot() == CaptureSave(old(Snapshot()))
    {
      if |transcript| == 0 {
        return;
      }
      saves := saves + [Save(transcript, walSeq, attempts, Pending)];
    }

    /** The background closure writes the snapshot it captured. */
    method RunSave(i: nat, ok: bool)
      requires i < |saves|
      modifies this`saves, this`disk
      ensures Snapshot() == WriteSave(old(Snapshot()), i, ok)
    {
      if ok {
        disk := saves[i].snapshot;
      }
      saves := saves[i := saves[i].(stage := Done(ok))];
    }

    /** The result of save `i` arrives: the log goes only if the counter still matches. */
    method UpdateSessionSaveResult(i: nat, removes: bool)
      requires i < |saves| && saves[i].stage.Done?
      modifies this
      ensures Snapshot() == DeliverSave(old(Snapshot()), i, removes)
    {
      var save := saves[i];
      saves := saves[i := save.(stage := Delivered(save.stage.ok))];
      if !save.stage.ok {
        return;
      }
      if save.seqNo == walSeq && open {
        if removes {
          RemoveLog();
        }
      }
    }

    method Update(e: Event)
      requires Enabled(Snapshot(), e) && Inv(Snapshot())
      modifies this
      ensures Snapshot() == Step(old(Snapshot()), e)
      ensures Inv(Snapshot())
      ensures old(Durable(Snapshot())) ==> (Durable(Snapshot()) <==> old(Guarded(Snapshot(), e)))
    {
      hide Inv, Durable, Guarded;
      StepKeeps(Snapshot(), e);
      if Durable(Snapshot()) {
        DurableStep(Snapshot(), e);
      }
      match e {
        case Grow(messages) => transcript := transcript + messages;
        case Open(opens) => EnsureWAL(opens);
        case Log(p, opens, appends) => LogMessage(p, opens, appends);
        case Capture => SaveSessionCmd();
        case Write(i, ok) => RunSave(i, ok);
        case Deliver(i, removes) => UpdateSessionSaveResult(i, removes);
        case SaveNow(ok, removes) => SaveSession(ok, removes);
      }
    }
  }
}
