/** Input events that the socket refuses are lost; the flags `dropped` and
    `slot_dropped` remember to tell the plugin.  An auditor reads the history of
    a port and knows, independently of the flags, which slots are owed a
    `SYN_DROPPED`. */
module LossSignalling {
  import opened Wire
  import opened Transport
  import opened PluginPort
  import opened DeviceAgreement

  /** `owed` are the slots that lost an event since the plugin was last told
      about them; `failing` says that a try of the current call has failed, and
      `recovered` that once, after such a failure, a later try of the same call
      went through.  `silent` records that an event was accepted for a slot
      still owed, `astray` that one was accepted while the plugin had another
      slot selected. */
  datatype Audit = Audit(
    owed: set<Int32>,
    inCall: bool,
    failing: bool,
    recovered: bool,
    silent: bool,
    astray: bool)

  function Watch(a: Audit, h: Heard, m: Mark): Audit {
    match m
    case Called => a.(inCall := true, failing := false)
    case Asked(_, _) => a
    case Reported(_) => a
    case Lost(slot) => a.(inCall := false, failing := false, owed := a.owed + {slot})
    case Tried(origin, rec, ok) =>
      var b := a.(
        failing := a.failing || (a.inCall && !ok),
        recovered := a.recovered || (a.inCall && a.failing && ok));
      if !ok then b
      else match origin
        case Control => if rec == DROPPED then b.(owed := b.owed - {h.current}) else b
        case Input(slot) =>
          b.(
            inCall := false,
            failing := false,
            silent := b.silent || slot in b.owed,
            astray := b.astray || slot != h.current)
  }

  function AuditOf(log: seq<Mark>): Audit {
    if log == [] then Audit({}, false, false, false, false, false)
    else
      var before := log[..|log| - 1];
      Watch(AuditOf(before), HeardFrom(before), log[|log| - 1])
  }

  lemma AuditSnoc(log: seq<Mark>, m: Mark)
    ensures AuditOf(log + [m]) == Watch(AuditOf(log), HeardFrom(log), m)
    ensures HeardFrom(log + [m]) == Hear(HeardFrom(log), m)
  {
    assert (log + [m])[..|log|] == log;
  }

  lemma SlotRoundTrip(slot: Int32)
    ensures ToInt32(ToUInt32(slot)) == slot
  {
  }

  /** The facts about a port that the proofs below move along: what the plugin
      has selected, the audit, the flags. */
  datatype Facts = Facts(current: Int32, audit: Audit, slot: Int32, dropped: bool, slotDropped: bool)

  function FactsOf(p: Port): Facts {
    Facts(HeardFrom(p.log).current, AuditOf(p.log), p.slot, p.dropped, p.slotDropped)
  }

  /** One try, seen through the facts. */
  function FactsAfter(f: Facts, origin: Origin, rec: Record, ok: bool): Facts {
    var m := Tried(origin, rec, ok);
    f.(current := Hear(Heard(f.current, {}), m).current, audit := Watch(f.audit, Heard(f.current, {}), m))
  }

  lemma TryFacts(p: Port, origin: Origin, rec: Record)
    ensures var (q, ok) := Try(p, origin, rec);
            FactsOf(q) == FactsAfter(FactsOf(p), origin, rec, ok) && q.queue == p.queue && q.resetall == p.resetall
  {
    hide Transport.SendRecord;
    AuditSnoc(p.log, Tried(origin, rec, Try(p, origin, rec).1));
  }

  /** Records that say nothing about slots or losses. */
  predicate Neutral(rec: Record) {
    rec != DROPPED && !(rec.itype == EV_DEV && rec.icode == DEV_SET)
  }

  function Failed(f: Facts): Facts {
    f.(audit := f.audit.(failing := f.audit.failing || f.audit.inCall))
  }

  /** A stretch of neutral control records in a call that had no failure yet:
      it ends well without a failure, or badly at its first one. */
  ghost predicate Quiet(p: Port, q: Port, ok: bool) {
    FactsOf(q) == if ok then FactsOf(p) else Failed(FactsOf(p))
  }

  lemma NeutralTry(p: Port, rec: Record)
    requires Neutral(rec) && !AuditOf(p.log).failing
    ensures var (q, ok) := Try(p, Control, rec); Quiet(p, q, ok)
  {
    hide Transport.SendRecord;
    TryFacts(p, Control, rec);
  }

  lemma FlushLastQuiet(p: Port)
    requires p.queue != [] && !AuditOf(p.log).failing
    ensures var (q, ok) := FlushLast(p); Quiet(p, q, ok)
  {
    hide Try, AuditOf, HeardFrom;
    NeutralTry(p, Record(EV_DEV, DEV_RESET, Last(p.queue).slot));
    var (q, ok) := FlushReset(p);
    assert Quiet(p, q, ok);
    if ok {
      NeutralTry(q, Record(EV_DEV, DEV_CONF, Last(q.queue).slot));
      assert Quiet(q, FlushConf(q).0, FlushConf(q).1);
    }
  }

  lemma {:induction false} FlushQuiet(p: Port)
    requires !AuditOf(p.log).failing
    ensures var (q, ok) := Flush(p); Quiet(p, q, ok)
    decreases |p.queue|
  {
    hide FlushLast, AuditOf, HeardFrom;
    if p.queue != [] {
      FlushLastQuiet(p);
      var (q, ok) := FlushLast(p);
      if ok {
        assert AuditOf(q.log) == FactsOf(q).audit;
        FlushQuiet(q);
      }
    }
  }

  lemma SendPendingQuiet(p: Port)
    requires !AuditOf(p.log).failing
    ensures var (q, ok) := SendPending(p); Quiet(p, q, ok)
  {
    hide Try, AuditOf, HeardFrom, Flush;
    NeutralTry(p, Record(EV_VM, VM_ERROR, p.error));
    var (p1, ok1) := SendPendingError(p);
    assert Quiet(p, p1, ok1);
    if ok1 {
      assert AuditOf(p1.log) == FactsOf(p1).audit;
      NeutralTry(p1, RESET_ALL);
      var (p2, ok2) := SendPendingResetAll(p1);
      assert Quiet(p1, p2, ok2);
      if ok2 {
        assert AuditOf(p2.log) == FactsOf(p2).audit;
        FlushQuiet(p2);
      }
    }
  }

  // ----- Invariant of the flags ------------------------------------------

  ghost predicate Idle(f: Facts) {
    !f.audit.inCall && !f.audit.failing
  }

  /** The plugin has the slot selected that the server believes, and every debt
      is covered by a flag. */
  ghost predicate Covered(f: Facts) {
    && f.current == f.slot
    && (f.slot in f.audit.owed ==> f.dropped)
    && (f.audit.owed - {f.slot} != {} ==> f.slotDropped)
  }

  lemma AnnounceFacts(p: Port)
    ensures var (q, ok) := Announce(p); var f := FactsOf(p);
            FactsOf(q) == if f.dropped then FactsAfter(f, Control, DROPPED, ok).(dropped := !ok) else f
    ensures !p.dropped ==> Announce(p).1
  {
    hide Transport.SendRecord;
    TryFacts(p, Control, DROPPED);
  }

  /** `send_slot` in a call without a failure so far: either everything went
      through, or the slot is unchanged and the call is failing. */
  ghost predicate SlotStep(f: Facts, g: Facts, slot: Int32) {
    && g.current == g.slot
    && g.audit == f.audit.(owed := g.audit.owed, failing := g.audit.failing)
    && if g.audit.failing then
         && g.slot == f.slot && g.slotDropped && (Covered(f) ==> Covered(g))
         && f.audit.owed - {f.slot} <= g.audit.owed <= f.audit.owed
       else g.slot == slot && g.dropped == f.slotDropped && !g.slotDropped
            && g.audit.owed == if f.dropped then f.audit.owed - {f.slot} else f.audit.owed
  }

  lemma SendSlotFacts(p: Port, slot: Int32)
    requires var f := FactsOf(p); f.audit.inCall && !f.audit.failing && f.current == f.slot && slot != f.slot
    ensures SlotStep(FactsOf(p), FactsOf(SendSlot(p, slot)), slot)
  {
    hide Transport.SendRecord, AuditOf, HeardFrom;
    AnnounceFacts(p);
    var (p1, ok1) := Announce(p);
    TryFacts(p1, Control, SetSlot(slot));
    SlotRoundTrip(slot);
  }

  /** The end of a call: the plugin is told if need be, the event is offered. */
  ghost predicate EventStep(f: Facts, g: Facts, slot: Int32, accepted: bool) {
    && g.slot == f.slot && g.slotDropped == f.slotDropped && g.current == g.slot
    && Idle(g)
    && (f.audit.recovered ==> g.audit.recovered)
    && if accepted then
         && !g.dropped
         && g.audit.owed == (if f.dropped then f.audit.owed - {f.slot} else f.audit.owed)
         && g.audit.silent == (f.audit.silent || slot in g.audit.owed)
         && g.audit.astray == (f.audit.astray || slot != f.slot)
         && g.audit.recovered == (f.audit.recovered || f.audit.failing)
       else
         && g.dropped && slot in g.audit.owed
         && f.audit.owed - {f.slot} <= g.audit.owed <= f.audit.owed + {slot}
         && g.audit.silent == f.audit.silent && g.audit.astray == f.audit.astray
  }

  lemma SendOnSlotFacts(p: Port, slot: Int32, e: Record)
    requires var f := FactsOf(p); f.audit.inCall && f.current == f.slot
    ensures var q := SendOnSlot(p, slot, e); EventStep(FactsOf(p), FactsOf(q), slot, EventAccepted(q, slot, e))
  {
    hide Transport.SendRecord, AuditOf, HeardFrom;
    AnnounceFacts(p);
    var (p1, ok1) := Announce(p);
    TryFacts(p1, Input(slot), e);
    AuditSnoc(p1.log, Lost(slot));
    AuditSnoc(Try(p1, Input(slot), e).0.log, Lost(slot));
  }

  // ----- One input event --------------------------------------------------

  /** Whether a call on `slot` can leave a debt behind that no flag covers:
      `slot_dropped` is one flag, so when the server changes slots the only
      debts may be those of the slot it leaves and of the slot it goes to. */
  predicate OneFlagSuffices(p: Port, slot: Int32) {
    slot == p.slot || AuditOf(p.log).owed <= {p.slot, slot}
  }

  /** The last `DEV_SET` the plugin heard names the slot that the server
      believes, and no call is open. */
  ghost predicate InStep(f: Facts) {
    f.current == f.slot && Idle(f)
  }

  /** What one call does to the selection of slots. */
  ghost predicate SlotOutcome(f: Facts, g: Facts, slot: Int32, accepted: bool) {
    && InStep(g) && (g.slot == f.slot || g.slot == slot)
    && g.audit.owed <= f.audit.owed + {slot}
    && (f.audit.recovered ==> g.audit.recovered)
    && (!g.audit.recovered || slot == f.slot ==> g.audit.astray == f.audit.astray)
    && (!g.audit.recovered && accepted ==> g.slot == slot)
  }

  /** What it does to the debts. */
  ghost predicate DebtOutcome(f: Facts, g: Facts, slot: Int32, accepted: bool) {
    && (Covered(g) <==> slot == f.slot || f.audit.owed <= {f.slot, slot} || g.slot != slot)
    && (!g.audit.recovered || slot == f.slot || slot !in f.audit.owed ==> g.audit.silent == f.audit.silent)
    && (!g.audit.recovered && accepted ==> slot !in g.audit.owed)
  }

  ghost predicate CallOutcome(f: Facts, g: Facts, slot: Int32, accepted: bool) {
    SlotOutcome(f, g, slot, accepted) && (Covered(f) ==> DebtOutcome(f, g, slot, accepted))
  }

  lemma SameSlotCall(f: Facts, g: Facts, slot: Int32, accepted: bool)
    requires f.current == f.slot == slot && !f.audit.failing && EventStep(f, g, slot, accepted)
    ensures CallOutcome(f, g, slot, accepted)
  {
  }

  lemma SwitchingCall(f: Facts, h: Facts, g: Facts, slot: Int32, accepted: bool)
    requires f.current == f.slot != slot && !f.audit.failing
    requires SlotStep(f, h, slot) && EventStep(h, g, slot, accepted)
    ensures CallOutcome(f, g, slot, accepted)
  {
    assert SlotOutcome(f, g, slot, accepted);
    if Covered(f) {
      SwitchingDebts(f, h, g, slot, accepted);
    }
  }

  lemma SwitchingDebts(f: Facts, h: Facts, g: Facts, slot: Int32, accepted: bool)
    requires Covered(f) && slot != f.slot && !f.audit.failing
    requires SlotStep(f, h, slot) && EventStep(h, g, slot, accepted)
    ensures DebtOutcome(f, g, slot, accepted)
  {
    if h.audit.failing {
      assert accepted ==> g.audit.recovered;
    } else if third :| third in f.audit.owed && third !in {f.slot, slot} {
      assert third in h.audit.owed && third in g.audit.owed;
      assert third in g.audit.owed - {g.slot};
    } else {
      assert f.audit.owed <= {f.slot, slot};
    }
    if slot in h.audit.owed && !h.audit.failing {
      assert slot in f.audit.owed - {f.slot};
    }
  }

  /** A call that ends before it looks at the slot. */
  function GivenUp(f: Facts, slot: Int32): Facts {
    var g := if f.slot != slot then f.(slotDropped := true) else f.(dropped := true);
    g.(audit := f.audit.(inCall := false, failing := false, owed := f.audit.owed + {slot}))
  }

  lemma RefusedCall(f: Facts, slot: Int32)
    requires f.current == f.slot
    ensures CallOutcome(f, GivenUp(f, slot), slot, false)
  {
    var g := GivenUp(f, slot);
    if slot == f.slot {
      assert g.audit.owed - {g.slot} == f.audit.owed - {f.slot};
    }
  }

  function Opened(f: Facts): Facts {
    f.(audit := f.audit.(inCall := true, failing := false))
  }

  lemma CalledFacts(p: Port)
    ensures FactsOf(Note(p, Called)) == Opened(FactsOf(p))
  {
    AuditSnoc(p.log, Called);
  }

  /** One call, from any state in which server and plugin agree on the slot:
      they agree again, and without a recovery inside the call an event is
      accepted only for that slot.  If every debt was covered, then the flags
      cover all debts again, exactly unless the call changed slots while a third
      slot was owed something; and without a recovery an accepted event is of a
      slot that is owed nothing. */
  lemma EventCall(p: Port, slot: Int32, e: Record)
    requires FactsOf(p).current == p.slot
    ensures var q := SendEvent(p, slot, e); CallOutcome(FactsOf(p), FactsOf(q), slot, EventAccepted(q, slot, e))
  {
    hide Try, AuditOf, HeardFrom, SendPending, SendSlot, SendOnSlot;
    hide EventStep, SlotStep, CallOutcome;
    var f := FactsOf(p);
    CalledFacts(p);
    var p0 := Note(p, Called);
    assert AuditOf(p0.log) == FactsOf(p0).audit;
    SendPendingQuiet(p0);
    var (p1, ready) := SendPending(p0);
    var q := SendEvent(p, slot, e);
    var g, accepted := FactsOf(q), EventAccepted(q, slot, e);
    if !ready {
      AuditSnoc(p1.log, Lost(slot));
      assert g == GivenUp(f, slot);
      RefusedCall(f, slot);
    } else if p1.slot == slot {
      SendOnSlotFacts(p1, slot, e);
      SameSlotCall(Opened(f), g, slot, accepted);
      OpenedOutcome(f, g, slot, accepted);
    } else {
      SendSlotFacts(p1, slot);
      SlotStepKeepsCall(Opened(f), FactsOf(SendSlot(p1, slot)), slot);
      SendOnSlotFacts(SendSlot(p1, slot), slot, e);
      SwitchingCall(Opened(f), FactsOf(SendSlot(p1, slot)), g, slot, accepted);
      OpenedOutcome(f, g, slot, accepted);
    }
  }

  lemma OpenedOutcome(f: Facts, g: Facts, slot: Int32, accepted: bool)
    requires CallOutcome(Opened(f), g, slot, accepted)
    ensures CallOutcome(f, g, slot, accepted)
  {
  }

  lemma SlotStepKeepsCall(f: Facts, g: Facts, slot: Int32)
    requires f.audit.inCall && SlotStep(f, g, slot)
    ensures g.audit.inCall && g.current == g.slot
  {
  }

  // ----- The other calls --------------------------------------------------

  lemma IdleTry(p: Port, rec: Record)
    requires Neutral(rec) && Idle(FactsOf(p))
    ensures FactsOf(Try(p, Control, rec).0) == FactsOf(p)
  {
    assert !FactsOf(p).audit.failing;
    NeutralTry(p, rec);
  }

  /** Device events, like any neutral record outside a call, leave slots, losses
      and flags alone. */
  lemma DeviceEventIsNeutral(p: Port, code: UInt16, value: Byte)
    requires Idle(FactsOf(p)) && (code == DEV_CONF || code == DEV_RESET)
    ensures FactsOf(SendDev(p, code, value)) == FactsOf(p)
  {
    AuditSnoc(p.log, Asked(code, value));
    SendDevBodyIsNeutral(Note(p, Asked(code, value)), code, value);
  }

  lemma SendDevBodyIsNeutral(p: Port, code: UInt16, value: Byte)
    requires Idle(FactsOf(p)) && (code == DEV_CONF || code == DEV_RESET)
    ensures FactsOf(SendDevBody(p, code, value)) == FactsOf(p)
    decreases p.resetall
  {
    hide Try, AuditOf, HeardFrom, Flush, QueueConf, QueueReset;
    assert !FactsOf(p).audit.failing;
    FlushQuiet(p);
    var (p1, ready) := Prepare(p, code, value);
    assert FactsOf(p1) == FactsOf(p);
    IdleTry(p1, if p.resetall then RESET_ALL else Record(EV_DEV, code, value));
    var (p2, ok) := SendHead(p, code, value);
    assert FactsOf(p2) == FactsOf(p);
    if ok && p.resetall {
      SendDevBodyIsNeutral(p2.(resetall := false), code, value);
    }
  }

  lemma ErrorIsNeutral(p: Port, status: UInt32)
    requires Idle(FactsOf(p))
    ensures FactsOf(SendError(p, status)) == FactsOf(p)
  {
    hide Try, AuditOf, HeardFrom;
    AuditSnoc(p.log, Reported(status));
    IdleTry(Note(p, Reported(status)), Record(EV_VM, VM_ERROR, status));
  }

  // ----- Whole runs -------------------------------------------------------

  predicate IsDeviceEvent(op: Op) {
    op.Dev? ==> op.code == DEV_CONF || op.code == DEV_RESET
  }

  /** Traffic of a run: its events are all on one of the two slots. */
  predicate OnTwoSlots(ops: seq<Op>, a: Int32, b: Int32) {
    forall i | 0 <= i < |ops| :: IsDeviceEvent(ops[i]) && (ops[i].Event? ==> ops[i].slot == a || ops[i].slot == b)
  }

  /** One step of a run. */
  lemma StepAudit(p: Port, op: Op)
    requires InStep(FactsOf(p)) && IsDeviceEvent(op)
    ensures var f, g := FactsOf(p), FactsOf(Step(p, op));
            && InStep(g)
            && (op.Event? ==> (g.slot == f.slot || g.slot == op.slot) && g.audit.owed <= f.audit.owed + {op.slot})
            && (!op.Event? ==> g == f)
            && (f.audit.recovered ==> g.audit.recovered)
            && (!g.audit.recovered ==> g.audit.astray == f.audit.astray)
            && (Covered(f) ==>
                  && ((op.Event? ==> OneFlagSuffices(p, op.slot)) ==> Covered(g))
                  && (!g.audit.recovered ==> g.audit.silent == f.audit.silent))
  {
    hide SendEvent, SendDev, SendError, AuditOf, HeardFrom, Covered;
    match op
    case Event(slot, e) => EventCall(p, slot, e);
    case Dev(code, value) => DeviceEventIsNeutral(p, code, value);
    case Error(status) => ErrorIsNeutral(p, status);
  }

  /** Slot coherence, for any number of slots and whatever was lost: over every
      run in which the socket never becomes writable again within one call, each
      accepted event came while the plugin had its slot selected. */
  lemma {:induction false} RunStaysInStep(p: Port, ops: seq<Op>)
    requires InStep(FactsOf(p)) && forall i | 0 <= i < |ops| :: IsDeviceEvent(ops[i])
    ensures var f, g := FactsOf(p), FactsOf(Run(p, ops));
            && InStep(g)
            && (f.audit.recovered ==> g.audit.recovered)
            && (!g.audit.recovered ==> g.audit.astray == f.audit.astray)
    decreases |ops|
  {
    hide Step, AuditOf, HeardFrom;
    if ops != [] {
      StepAudit(p, ops[0]);
      RunStaysInStep(Step(p, ops[0]), ops[1..]);
    }
  }

  /** The same from an accepted connection on. */
  lemma SlotCoherence(script: seq<Outcome>, ops: seq<Op>)
    requires forall i | 0 <= i < |ops| :: IsDeviceEvent(ops[i])
    ensures var q := Run(Accept(script), ops);
            HeardFrom(q.log).current == q.slot && (!AuditOf(q.log).recovered ==> !AuditOf(q.log).astray)
  {
    hide Run;
    RunStaysInStep(Accept(script), ops);
    var q := Run(Accept(script), ops);
    assert FactsOf(q).audit == AuditOf(q.log) && FactsOf(q).current == HeardFrom(q.log).current;
  }

  /** What holds between the calls of a run on two slots, one of them selected
      to begin with. */
  ghost predicate TwoSlotState(p: Port, a: Int32, b: Int32) {
    var f := FactsOf(p);
    && Covered(f) && Idle(f)
    && (f.slot == a || f.slot == b) && f.audit.owed <= {a, b}
    && (!f.audit.recovered ==> !f.audit.silent && !f.audit.astray)
  }

  /** Over every run on two slots the flags cover every debt; and as long as no
      call has recovered, no event was accepted for a slot that was owed a
      `SYN_DROPPED`, and none while another slot was selected. */
  lemma {:induction false} TwoSlotRun(p: Port, ops: seq<Op>, a: Int32, b: Int32)
    requires TwoSlotState(p, a, b) && OnTwoSlots(ops, a, b)
    ensures TwoSlotState(Run(p, ops), a, b)
    decreases |ops|
  {
    hide Step, AuditOf, HeardFrom;
    if ops != [] {
      assert FactsOf(p).slot == p.slot && FactsOf(p).audit == AuditOf(p.log);
      assert OneFlagSuffices(p, a) && OneFlagSuffices(p, b);
      StepAudit(p, ops[0]);
      assert TwoSlotState(Step(p, ops[0]), a, b) by {
        hide Covered;
      }
      assert OnTwoSlots(ops[1..], a, b);
      TwoSlotRun(Step(p, ops[0]), ops[1..], a, b);
    }
  }

  /** The same for any number of slots, where each event finds the one flag
      sufficient. */
  ghost predicate WithinOneFlag(p: Port, ops: seq<Op>)
    decreases |ops|
  {
    ops == [] || (
      && IsDeviceEvent(ops[0])
      && (ops[0].Event? ==> OneFlagSuffices(p, ops[0].slot))
      && WithinOneFlag(Step(p, ops[0]), ops[1..]))
  }

  lemma {:induction false} AnyRun(p: Port, ops: seq<Op>)
    requires Covered(FactsOf(p)) && Idle(FactsOf(p)) && WithinOneFlag(p, ops)
    ensures var f, g := FactsOf(p), FactsOf(Run(p, ops));
            && Covered(g) && Idle(g)
            && (f.audit.recovered ==> g.audit.recovered)
            && (!g.audit.recovered ==> g.audit.silent == f.audit.silent && g.audit.astray == f.audit.astray)
    decreases |ops|
  {
    hide Step, AuditOf, HeardFrom, OneFlagSuffices;
    if ops != [] {
      StepAudit(p, ops[0]);
      AnyRun(Step(p, ops[0]), ops[1..]);
    }
  }

  // ----- A third slot -----------------------------------------------------

  lemma FlowingPending(p: Port, n: nat)
    requires Flowing(p, 2 * |p.queue| + 2 + n)
    ensures var (q, ok) := SendPending(p); ok && q.queue == [] && Flowing(q, n)
  {
    hide Transport.SendRecord, Flows;
    var m := 2 * |p.queue| + n;
    FlowingTry(p, Control, Record(EV_VM, VM_ERROR, p.error), m + 1);
    var (p1, ok1) := SendPendingError(p);
    assert ok1 && Flowing(p1, m + 1) by { FlowsLess(p, m + 2, m + 1); }
    FlowingTry(p1, Control, RESET_ALL, m);
    var (p2, ok2) := SendPendingResetAll(p1);
    assert ok2 && Flowing(p2, m) by { FlowsLess(p1, m + 1, m); }
    FlowingFlush(p2, n);
  }

  lemma FlowsLess(p: Port, n: nat, m: nat)
    requires Flowing(p, n) && m <= n
    ensures Flowing(p, m)
  {
  }

  /** With a socket that takes everything, a call that changes slots reaches
      the new slot. */
  lemma FlowingSwitch(p: Port, slot: Int32, n: nat)
    requires Flowing(p, n + 2)
    ensures var q := SendSlot(p, slot);
            Flowing(q, n) && q.slot == slot && !q.slotDropped && q.queue == p.queue
  {
    hide Transport.SendRecord, Flows;
    FlowingTry(p, Control, DROPPED, n + 1);
    var (p1, ok1) := Announce(p);
    assert ok1 && Flowing(p1, n + 1) by { FlowsLess(p, n + 2, n + 1); }
    FlowingTry(p1, Control, SetSlot(slot), n);
  }

  lemma FlowingDelivery(p: Port, slot: Int32, e: Record, n: nat)
    requires Flowing(p, n + 2)
    ensures var q := SendOnSlot(p, slot, e);
            EventAccepted(q, slot, e) && q.slot == p.slot && q.queue == p.queue && Flowing(q, n)
  {
    hide Transport.SendRecord, Flows;
    FlowingTry(p, Control, DROPPED, n + 1);
    var (p1, ok1) := Announce(p);
    assert ok1 && Flowing(p1, n + 1) by { FlowsLess(p, n + 2, n + 1); }
    FlowingTry(p1, Input(slot), e, n);
  }

  lemma FlowingEvent(p: Port, slot: Int32, e: Record, n: nat)
    requires Flowing(p, 2 * |p.queue| + 6 + n)
    ensures var q := SendEvent(p, slot, e);
            EventAccepted(q, slot, e) && q.slot == slot && q.queue == [] && Flowing(q, n)
  {
    hide Transport.SendRecord, Flows, Try, SendSlot, SendOnSlot;
    var p0 := Note(p, Called);
    assert Flowing(p0, 2 * |p0.queue| + 2 + (4 + n));
    FlowingPending(p0, 4 + n);
    hide SendPending;
    var p1 := SendPending(p0).0;
    FlowingSwitch(p1, slot, 2 + n);
    FlowsLess(p1, 4 + n, 2 + n);
    FlowingDelivery(if p1.slot != slot then SendSlot(p1, slot) else p1, slot, e, n);
  }

  /** What a change of slots leaves of a debt of the new slot when no flag
      remembers it. */
  lemma SwitchKeepsDebt(p: Port, slot: Int32)
    requires var f := FactsOf(p); f.current == f.slot && f.audit.inCall && !f.slotDropped
    requires slot != p.slot && slot in FactsOf(p).audit.owed && Flowing(p, 4)
    ensures var g := FactsOf(SendSlot(p, slot));
            g.current == g.slot == slot && g.audit.inCall && !g.dropped && slot in g.audit.owed
  {
    hide Transport.SendRecord, AuditOf, HeardFrom, Flows;
    AnnounceFacts(p);
    FlowingTry(p, Control, DROPPED, 3);
    var (p1, ok1) := Announce(p);
    assert ok1 && Flowing(p1, 3) by { FlowsLess(p, 4, 3); }
    FlowingTry(p1, Control, SetSlot(slot), 2);
    TryFacts(p1, Control, SetSlot(slot));
    SlotRoundTrip(slot);
  }

  /** A debt that no flag covers is a silent loss waiting to happen: the next
      event of that slot can be accepted without a word about it. */
  lemma UncoveredGoesSilent(p: Port, slot: Int32, e: Record)
    requires FactsOf(p).current == p.slot && slot != p.slot && !p.slotDropped
    requires slot in AuditOf(p.log).owed
    requires Flowing(p, 2 * |p.queue| + 6)
    ensures var q := SendEvent(p, slot, e);
            EventAccepted(q, slot, e) && AuditOf(q.log).silent
  {
    hide Transport.SendRecord, Flows, Try, AuditOf, HeardFrom, SendPending, SendSlot, SendOnSlot;
    FlowingEvent(p, slot, e, 0);
    CalledFacts(p);
    var p0 := Note(p, Called);
    assert AuditOf(p0.log) == FactsOf(p0).audit && AuditOf(p.log) == FactsOf(p).audit;
    SendPendingQuiet(p0);
    FlowingPending(p0, 4);
    var p1 := SendPending(p0).0;
    assert FactsOf(p1) == FactsOf(p0);
    SwitchKeepsDebt(p1, slot);
    SendOnSlotFacts(SendSlot(p1, slot), slot, e);
    var q := SendEvent(p, slot, e);
    assert FactsOf(q).audit == AuditOf(q.log);
  }

  /** The exact condition: whatever the socket does, the flags cover every debt
      after the call if and only if one flag sufficed before it.  A socket that
      takes everything, and so never recovers, is enough to break it. */
  lemma OneFlagIsExact(p: Port, slot: Int32, e: Record)
    requires Covered(FactsOf(p))
    requires p.sender.open && |p.sender.partial| < RECORD_SIZE
    ensures OneFlagSuffices(p, slot) <==>
            forall script :: Covered(FactsOf(SendEvent(WithScript(p, script), slot, e)))
    ensures !AuditOf(p.log).recovered ==>
              (OneFlagSuffices(p, slot) <==>
               forall script :: var q := SendEvent(WithScript(p, script), slot, e);
                 !AuditOf(q.log).recovered ==> Covered(FactsOf(q)))
  {
    hide SendEvent, Covered, AuditOf, HeardFrom;
    CoveredIsInStep(p);
    forall script
      ensures var q := SendEvent(WithScript(p, script), slot, e);
              Covered(FactsOf(q)) <==> OneFlagSuffices(p, slot) || q.slot != slot
    {
      assert FactsOf(WithScript(p, script)) == FactsOf(p);
      EventCall(WithScript(p, script), slot, e);
    }
    if !OneFlagSuffices(p, slot) {
      var script := Takes(2 * (2 * |p.queue| + 6));
      var p' := WithScript(p, script);
      assert FactsOf(p') == FactsOf(p);
      FlowingEvent(p', slot, e, 0);
      var q := SendEvent(p', slot, e);
      assert q.slot == slot && !Covered(FactsOf(q));
      if !AuditOf(p.log).recovered {
        FlowingNeverRecovers(p', slot, e);
        assert !AuditOf(q.log).recovered;
      }
    }
  }

  lemma CoveredIsInStep(p: Port)
    requires Covered(FactsOf(p))
    ensures FactsOf(p).current == p.slot
  {
  }

  /** A call in which every try goes through recovers from nothing. */
  lemma FlowingNeverRecovers(p: Port, slot: Int32, e: Record)
    requires FactsOf(p).current == p.slot && !AuditOf(p.log).recovered && Flowing(p, 2 * |p.queue| + 6)
    ensures !AuditOf(SendEvent(p, slot, e).log).recovered
  {
    hide Transport.SendRecord, Flows, Try, AuditOf, HeardFrom, SendPending, SendSlot, SendOnSlot;
    FlowingEvent(p, slot, e, 0);
    CalledFacts(p);
    var p0 := Note(p, Called);
    assert AuditOf(p0.log) == FactsOf(p0).audit && AuditOf(p.log) == FactsOf(p).audit;
    SendPendingQuiet(p0);
    FlowingPending(p0, 4);
    var p1 := SendPending(p0).0;
    var p2 := if p1.slot != slot then SendSlot(p1, slot) else p1;
    if p1.slot != slot {
      SendSlotFacts(p1, slot);
      FlowingSwitch(p1, slot, 2);
    }
    SendOnSlotFacts(p2, slot, e);
    var q := SendEvent(p, slot, e);
    assert q == SendOnSlot(p2, slot, e);
    assert FactsOf(q).audit == AuditOf(q.log);
  }

  // ----- Wrong slots ------------------------------------------------------

  /** An accepted event misses its slot if and only if an earlier try of its
      call had failed. */
  lemma AstrayExactlyAfterRecovery(p: Port, slot: Int32, e: Record)
    requires FactsOf(p).current == p.slot && !AuditOf(p.log).recovered && !AuditOf(p.log).astray
    ensures var q := SendEvent(p, slot, e);
            EventAccepted(q, slot, e) ==> (AuditOf(q.log).astray <==> AuditOf(q.log).recovered)
  {
    hide Try, AuditOf, HeardFrom, SendPending, SendSlot, SendOnSlot;
    CalledFacts(p);
    var p0 := Note(p, Called);
    assert AuditOf(p0.log) == FactsOf(p0).audit && AuditOf(p.log) == FactsOf(p).audit;
    SendPendingQuiet(p0);
    var (p1, ready) := SendPending(p0);
    var q := SendEvent(p, slot, e);
    assert FactsOf(q).audit == AuditOf(q.log);
    if ready {
      if p1.slot != slot {
        SendSlotFacts(p1, slot);
      }
      SendOnSlotFacts(if p1.slot != slot then SendSlot(p1, slot) else p1, slot, e);
    }
  }

  // ----- Any number of slots ---------------------------------------------

  /** How often the plugin has been told of a loss. */
  function Announcements(log: seq<Mark>): nat {
    if log == [] then 0
    else
      var m := log[|log| - 1];
      Announcements(log[..|log| - 1]) + if m.Tried? && m.origin.Control? && m.rec == DROPPED && m.ok then 1 else 0
  }

  lemma TryAnnouncements(p: Port, origin: Origin, rec: Record)
    ensures var (q, ok) := Try(p, origin, rec);
            Announcements(q.log) == Announcements(p.log) + if origin.Control? && rec == DROPPED && ok then 1 else 0
  {
    hide Transport.SendRecord;
    var m := Tried(origin, rec, Try(p, origin, rec).1);
    assert (p.log + [m])[..|p.log|] == p.log;
  }

  lemma NoteAnnouncements(p: Port, m: Mark)
    requires !m.Tried?
    ensures Announcements(Note(p, m).log) == Announcements(p.log)
  {
    assert (p.log + [m])[..|p.log|] == p.log;
  }

  /** The two flags are a debt that only an accepted `SYN_DROPPED` settles. */
  ghost predicate Settled(p: Port, q: Port) {
    && Announcements(p.log) <= Announcements(q.log)
    && (Announcements(p.log) == Announcements(q.log) ==>
          (p.dropped || p.slotDropped ==> q.dropped || q.slotDropped))
  }

  lemma AnnounceSettles(p: Port)
    ensures Settled(p, Announce(p).0)
    ensures Announcements(Announce(p).0.log) == Announcements(p.log) ==> p.dropped == Announce(p).0.dropped
  {
    hide Transport.SendRecord;
    TryAnnouncements(p, Control, DROPPED);
  }

  lemma SendSlotSettles(p: Port, slot: Int32)
    ensures Settled(p, SendSlot(p, slot))
  {
    hide Transport.SendRecord, Announcements;
    AnnounceSettles(p);
    TryAnnouncements(Announce(p).0, Control, SetSlot(slot));
  }

  lemma SendOnSlotSettles(p: Port, slot: Int32, e: Record)
    ensures Settled(p, SendOnSlot(p, slot, e))
  {
    hide Transport.SendRecord, Announcements;
    AnnounceSettles(p);
    var p1 := Announce(p).0;
    TryAnnouncements(p1, Input(slot), e);
    NoteAnnouncements(p1, Lost(slot));
    NoteAnnouncements(Try(p1, Input(slot), e).0.(dropped := true), Lost(slot));
  }

  ghost predicate SameFlags(p: Port, q: Port) {
    q.dropped == p.dropped && q.slotDropped == p.slotDropped && Announcements(q.log) == Announcements(p.log)
  }

  lemma {:induction false} FlushSameFlags(p: Port)
    ensures SameFlags(p, Flush(p).0)
    decreases |p.queue|
  {
    hide Transport.SendRecord, Announcements;
    if p.queue != [] {
      TryAnnouncements(p, Control, Record(EV_DEV, DEV_RESET, Last(p.queue).slot));
      var (q, ok) := FlushReset(p);
      if ok {
        TryAnnouncements(q, Control, Record(EV_DEV, DEV_CONF, Last(q.queue).slot));
        var (r, ok') := FlushConf(q);
        if ok' {
          FlushSameFlags(r);
        }
      }
    }
  }

  lemma SendPendingSameFlags(p: Port)
    ensures SameFlags(p, SendPending(p).0)
  {
    hide Transport.SendRecord, Announcements, Flush;
    TryAnnouncements(p, Control, Record(EV_VM, VM_ERROR, p.error));
    var (p1, ok1) := SendPendingError(p);
    TryAnnouncements(p1, Control, RESET_ALL);
    FlushSameFlags(SendPendingResetAll(p1).0);
  }

  lemma SendEventSettles(p: Port, slot: Int32, e: Record)
    ensures Settled(p, SendEvent(p, slot, e))
  {
    hide Announcements, SendPending, SendSlot, SendOnSlot;
    NoteAnnouncements(p, Called);
    var p0 := Note(p, Called);
    SendPendingSameFlags(p0);
    var (p1, ready) := SendPending(p0);
    if ready {
      var p2 := if p1.slot != slot then SendSlot(p1, slot) else p1;
      SendSlotSettles(p1, slot);
      SendOnSlotSettles(p2, slot, e);
    } else {
      NoteAnnouncements(if p1.slot != slot then p1.(slotDropped := true) else p1.(dropped := true), Lost(slot));
    }
  }

  lemma SendDevSameFlags(p: Port, code: UInt16, value: Byte)
    requires code == DEV_CONF || code == DEV_RESET
    ensures SameFlags(p, SendDevBody(p, code, value))
    decreases p.resetall
  {
    hide Transport.SendRecord, Announcements, Flush, QueueConf, QueueReset;
    FlushSameFlags(p);
    var p1 := Prepare(p, code, value).0;
    TryAnnouncements(p1, Control, if p.resetall then RESET_ALL else Record(EV_DEV, code, value));
    var (p2, ok) := SendHead(p, code, value);
    if ok && p.resetall {
      SendDevSameFlags(p2.(resetall := false), code, value);
    }
  }

  /** For any number of slots and any behaviour of the socket: between two
      points of a run the flags do not both become clear, having been set,
      without a `SYN_DROPPED` accepted on the way. */
  lemma {:induction false} FlagsClearOnlyByAnnouncing(p: Port, ops: seq<Op>)
    requires forall i | 0 <= i < |ops| :: IsDeviceEvent(ops[i])
    ensures Settled(p, Run(p, ops))
    decreases |ops|
  {
    hide Announcements, SendEvent, SendDevBody, SendError;
    if ops != [] {
      match ops[0] {
        case Event(slot, e) => SendEventSettles(p, slot, e);
        case Dev(code, value) =>
          NoteAnnouncements(p, Asked(code, value));
          SendDevSameFlags(Note(p, Asked(code, value)), code, value);
        case Error(status) => ErrorSameFlags(p, status);
      }
      FlagsClearOnlyByAnnouncing(Step(p, ops[0]), ops[1..]);
    }
  }

  lemma ErrorSameFlags(p: Port, status: UInt32)
    ensures SameFlags(p, SendError(p, status))
  {
    hide Transport.SendRecord, Announcements;
    NoteAnnouncements(p, Reported(status));
    TryAnnouncements(Note(p, Reported(status)), Control, Record(EV_VM, VM_ERROR, status));
  }
}
