/** Errors reported to a plugin: `send_error` tells one at once or keeps it in
    the one field `error` for the next input event.  The history tells, without
    that field, which reports were kept and which have been told. */
module ErrorReports {
  import opened Wire
  import opened Transport
  import opened PluginPort
  import opened DeviceAgreement
  import Promptness

  predicate IsErrorRecord(rec: Record) {
    rec.itype == EV_VM && rec.icode == VM_ERROR
  }

  /** The errors that the plugin has been told, in order. */
  function Told(log: seq<Mark>): seq<UInt32> {
    if log == [] then []
    else
      var m := log[|log| - 1];
      Told(log[..|log| - 1])
      + if m.Tried? && m.ok && m.origin.Control? && IsErrorRecord(m.rec) then [m.rec.ivalue] else []
  }

  /** The report that is being made at the end of the history. */
  predicate Reporting(log: seq<Mark>) {
    log != [] && log[|log| - 1].Reported?
  }

  /** The reports that were not dropped: a report is tried at once, and kept if
      that succeeds, or if none waits so far; the value zero cannot wait. */
  function Kept(log: seq<Mark>): seq<UInt32> {
    if log == [] then []
    else
      var before, m := log[..|log| - 1], log[|log| - 1];
      if m.Tried? && Reporting(before) then
        var status := before[|before| - 1].status;
        Kept(before) + if m.ok || (status != 0 && |Kept(before)| == |Told(before)|) then [status] else []
      else Kept(before)
  }

  /** The kept reports are those told and the one that waits. */
  ghost predicate Balanced(p: Port) {
    && !Reporting(p.log)
    && multiset(Kept(p.log)) == multiset(Told(p.log)) + if p.error != 0 then multiset{p.error} else multiset{}
  }

  datatype Books = Books(told: seq<UInt32>, kept: seq<UInt32>, error: UInt32, reporting: bool)

  function BooksOf(p: Port): Books {
    Books(Told(p.log), Kept(p.log), p.error, Reporting(p.log))
  }

  lemma Snoc(log: seq<Mark>, m: Mark)
    ensures (log + [m])[..|log|] == log && (log + [m])[|log|] == m
  {
  }

  lemma NoteBooks(p: Port, m: Mark)
    requires !m.Tried? && !m.Reported? && !Reporting(p.log)
    ensures BooksOf(Note(p, m)) == BooksOf(p)
  {
    Snoc(p.log, m);
    assert Told(p.log) + [] == Told(p.log);
  }

  /** Records that are no errors leave the books alone. */
  lemma OtherTry(p: Port, origin: Origin, rec: Record)
    requires !Reporting(p.log) && (origin.Input? || !IsErrorRecord(rec))
    ensures BooksOf(Try(p, origin, rec).0) == BooksOf(p)
  {
    hide Transport.SendRecord;
    Snoc(p.log, Tried(origin, rec, Try(p, origin, rec).1));
    assert Told(p.log) + [] == Told(p.log);
  }

  lemma {:induction false} FlushBooks(p: Port)
    requires !Reporting(p.log)
    ensures BooksOf(Flush(p).0) == BooksOf(p)
    decreases |p.queue|
  {
    hide Try, Told, Kept;
    if p.queue != [] {
      OtherTry(p, Control, Record(EV_DEV, DEV_RESET, Last(p.queue).slot));
      var (q, ok) := FlushReset(p);
      if ok {
        OtherTry(q, Control, Record(EV_DEV, DEV_CONF, Last(q.queue).slot));
        var (r, ok') := FlushConf(q);
        if ok' {
          FlushBooks(r);
        }
      }
    }
  }

  lemma SendDevBooks(p: Port, code: UInt16, value: Byte)
    requires !Reporting(p.log)
    ensures BooksOf(SendDevBody(p, code, value)) == BooksOf(p)
    decreases p.resetall
  {
    hide Try, Told, Kept, Flush, QueueConf, QueueReset;
    FlushBooks(p);
    var p1 := Prepare(p, code, value).0;
    OtherTry(p1, Control, if p.resetall then RESET_ALL else Record(EV_DEV, code, value));
    var (p2, ok) := SendHead(p, code, value);
    if ok && p.resetall {
      SendDevBooks(p2.(resetall := false), code, value);
    }
  }

  lemma AnnounceBooks(p: Port)
    requires !Reporting(p.log)
    ensures BooksOf(Announce(p).0) == BooksOf(p)
  {
    hide Try, Told, Kept;
    OtherTry(p, Control, DROPPED);
  }

  lemma SendSlotBooks(p: Port, slot: Int32)
    requires !Reporting(p.log)
    ensures BooksOf(SendSlot(p, slot)) == BooksOf(p)
  {
    hide Try, Told, Kept;
    AnnounceBooks(p);
    OtherTry(Announce(p).0, Control, SetSlot(slot));
  }

  lemma SendOnSlotBooks(p: Port, slot: Int32, e: Record)
    requires !Reporting(p.log)
    ensures BooksOf(SendOnSlot(p, slot, e)) == BooksOf(p)
  {
    hide Try, Told, Kept;
    AnnounceBooks(p);
    var p1 := Announce(p).0;
    NoteBooks(p1, Lost(slot));
    OtherTry(p1, Input(slot), e);
    NoteBooks(Try(p1, Input(slot), e).0.(dropped := true), Lost(slot));
  }

  /** Telling the error that waits settles it. */
  lemma PendingErrorBalances(p: Port)
    requires Balanced(p)
    ensures Balanced(SendPendingError(p).0)
  {
    hide Transport.SendRecord;
    var (q, ok) := Try(p, Control, Record(EV_VM, VM_ERROR, p.error));
    Snoc(p.log, Tried(Control, Record(EV_VM, VM_ERROR, p.error), ok));
    assert Told(p.log) + [] == Told(p.log);
  }

  lemma EventBalances(p: Port, slot: Int32, e: Record)
    requires Balanced(p)
    ensures Balanced(SendEvent(p, slot, e))
  {
    hide Try, Told, Kept, Flush, SendSlot, SendOnSlot, SendPendingError;
    var p0 := Note(p, Called);
    NoteBooks(p, Called);
    PendingErrorBalances(p0);
    var p1 := SendPendingError(p0).0;
    OtherTry(p1, Control, RESET_ALL);
    var p2 := SendPendingResetAll(p1).0;
    FlushBooks(p2);
    var (p3, ready) := SendPending(p0);
    assert BooksOf(p3) == BooksOf(p1);
    if ready {
      SendSlotBooks(p3, slot);
      SendOnSlotBooks(if p3.slot != slot then SendSlot(p3, slot) else p3, slot, e);
    } else {
      NoteBooks(if p3.slot != slot then p3.(slotDropped := true) else p3.(dropped := true), Lost(slot));
    }
  }

  /** What a report adds to the books. */
  lemma ReportBooks(p: Port, status: UInt32)
    requires !Reporting(p.log)
    ensures var ok := Try(Note(p, Reported(status)), Control, Record(EV_VM, VM_ERROR, status)).1;
            var log := SendError(p, status).log;
            && Told(log) == Told(p.log) + (if ok then [status] else [])
            && Kept(log) == Kept(p.log)
                 + (if ok || (status != 0 && |Kept(p.log)| == |Told(p.log)|) then [status] else [])
            && !Reporting(log)
  {
    hide Transport.SendRecord;
    hide Told, Kept;
    var rec := Record(EV_VM, VM_ERROR, status);
    var p0 := Note(p, Reported(status));
    ReportedChangesNothing(p.log, status);
    ReportTried(p0.log, status, Try(p0, Control, rec).1);
  }

  lemma ReportedChangesNothing(log: seq<Mark>, status: UInt32)
    requires !Reporting(log)
    ensures var now := log + [Reported(status)];
            Told(now) == Told(log) && Kept(now) == Kept(log) && Reporting(now) && now[|now| - 1].status == status
  {
    Snoc(log, Reported(status));
    assert Told(log) + [] == Told(log);
  }

  lemma ReportTried(log: seq<Mark>, status: UInt32, ok: bool)
    requires Reporting(log) && log[|log| - 1].status == status
    ensures var now := log + [Tried(Control, Record(EV_VM, VM_ERROR, status), ok)];
            && Told(now) == Told(log) + (if ok then [status] else [])
            && Kept(now) == Kept(log) + (if ok || (status != 0 && |Kept(log)| == |Told(log)|) then [status] else [])
            && !Reporting(now)
  {
    Snoc(log, Tried(Control, Record(EV_VM, VM_ERROR, status), ok));
  }

  lemma SnocCounts(s: seq<UInt32>, v: UInt32)
    ensures multiset(s + [v]) == multiset(s) + multiset{v}
    ensures s + [] == s
  {
  }

  /** A report is told, or waits, or is dropped because another waits. */
  lemma ErrorBalances(p: Port, status: UInt32)
    requires Balanced(p)
    ensures Balanced(SendError(p, status))
  {
    hide Try, Told, Kept;
    ReportBooks(p, status);
    WaitsExactly(p);
    SnocCounts(Told(p.log), status);
    SnocCounts(Kept(p.log), status);
    ErrorField(p, status);
  }

  lemma ErrorField(p: Port, status: UInt32)
    ensures var ok := Try(Note(p, Reported(status)), Control, Record(EV_VM, VM_ERROR, status)).1;
            SendError(p, status).error == if !ok && p.error == 0 then status else p.error
  {
    hide Transport.SendRecord;
  }

  /** So an error waits exactly if more was kept than told. */
  lemma WaitsExactly(p: Port)
    requires Balanced(p)
    ensures |Kept(p.log)| == |Told(p.log)| + if p.error != 0 then 1 else 0
  {
    assert |multiset(Kept(p.log))| == |Kept(p.log)|;
    assert |multiset(Told(p.log))| == |Told(p.log)|;
  }

  lemma {:induction false} RunBalances(p: Port, ops: seq<Op>)
    requires Balanced(p)
    ensures Balanced(Run(p, ops))
    decreases |ops|
  {
    hide Balanced, SendEvent, SendDevBody, SendError;
    if ops != [] {
      match ops[0] {
        case Event(slot, e) => EventBalances(p, slot, e);
        case Dev(code, value) => DeviceEventBalances(p, code, value);
        case Error(status) => ErrorBalances(p, status);
      }
      RunBalances(Step(p, ops[0]), ops[1..]);
    }
  }

  lemma DeviceEventBalances(p: Port, code: UInt16, value: Byte)
    requires Balanced(p)
    ensures Balanced(SendDev(p, code, value))
  {
    hide Told, Kept, SendDevBody;
    NoteBooks(p, Asked(code, value));
    SendDevBooks(Note(p, Asked(code, value)), code, value);
  }

  /** Over every run and every script, each report that was not dropped is told
      exactly once and with its own value, except for one that still waits; and
      one waits exactly if more was kept than told. */
  lemma ReportsAreToldOnce(script: seq<Outcome>, ops: seq<Op>)
    ensures var p := Run(Accept(script), ops);
            && multiset(Kept(p.log)) == multiset(Told(p.log)) + (if p.error != 0 then multiset{p.error} else multiset{})
            && (p.error != 0 <==> |Kept(p.log)| > |Told(p.log)|)
  {
    hide Run, Kept, Told;
    assert Balanced(Accept(script)) by {
      NothingReported();
    }
    RunBalances(Accept(script), ops);
    WaitsExactly(Run(Accept(script), ops));
  }

  lemma NothingReported()
    ensures Told([]) == [] && Kept([]) == [] && !Reporting([])
  {
  }

  /** And none waits any longer once an input event has been accepted: by then
      every kept report has been told. */
  lemma AcceptedEventFindsAllTold(p: Port, slot: Int32, e: Record)
    requires Balanced(p)
    ensures var q := SendEvent(p, slot, e);
            EventAccepted(q, slot, e) ==> multiset(Told(q.log)) == multiset(Kept(q.log))
  {
    hide Told, Kept, SendEvent;
    EventBalances(p, slot, e);
    Promptness.AcceptedOrRefused(p, slot, e);
  }
}
