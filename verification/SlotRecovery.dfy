/** What a socket does that becomes writable again inside one call:
    `send_plugin_event` goes on after a failed `send_slot`, so the event reaches
    whatever slot the plugin has selected.  This module says from which states
    that can happen, and runs it from an accepted connection. */
module SlotRecovery {
  import opened Wire
  import opened Transport
  import opened PluginPort
  import opened DeviceAgreement
  import opened LossSignalling

  // ----- A socket that blocks at a chosen try -----------------------------

  /** The socket takes everything for exactly `n` tries, the waiting tail along
      with the first of them, and goes on with `rest`. */
  ghost predicate Primed(p: Port, n: nat, rest: seq<Outcome>) {
    && p.sender.open && |p.sender.partial| < RECORD_SIZE
    && p.sender.script == Takes(n + if p.sender.partial == [] then 0 else 1) + rest
  }

  lemma OneTaken(n: nat, rest: seq<Outcome>)
    requires n > 0
    ensures var s := Takes(n) + rest; s[0] == Took(RECORD_SIZE) && s[1..] == Takes(n - 1) + rest
  {
  }

  lemma PrimedTry(p: Port, origin: Origin, rec: Record, n: nat, rest: seq<Outcome>)
    requires Primed(p, n + 1, rest)
    ensures var (q, ok) := Try(p, origin, rec); ok && Primed(q, n, rest)
  {
    OneTaken(n + 1, rest);
    if p.sender.partial != [] {
      OneTaken(n + 2, rest);
    }
  }

  /** Where the socket has taken all but a waiting tail, the next try is the one
      that it refuses. */
  lemma PrimedRefusal(p: Port, origin: Origin, rec: Record, rest: seq<Outcome>)
    requires Primed(p, 0, [Blocked] + rest)
    ensures var (q, ok) := Try(p, origin, rec);
            !ok && q.sender.open && q.sender.partial == [] && q.sender.script == rest
  {
    if p.sender.partial == [] {
      assert Takes(0) + ([Blocked] + rest) == [Blocked] + rest;
    } else {
      OneTaken(1, [Blocked] + rest);
      assert Takes(0) + ([Blocked] + rest) == [Blocked] + rest;
    }
  }

  /** How many tries an entry of the queue takes. */
  function Owed(d: DevEvent): nat {
    (if d.remove then 1 else 0) + if d.add then 1 else 0
  }

  function QueueTries(queue: seq<DevEvent>): nat {
    if queue == [] then 0 else QueueTries(queue[..|queue| - 1]) + Owed(Last(queue))
  }

  lemma PrimedLast(p: Port, n: nat, rest: seq<Outcome>)
    requires p.queue != [] && Primed(p, n + Owed(Last(p.queue)), rest)
    ensures var (q, ok) := FlushLast(p); ok && Primed(q, n, rest) && q.queue == p.queue[..|p.queue| - 1]
  {
    hide Transport.SendRecord, Takes, Encode;
    var d := Last(p.queue);
    var adds := if d.add then 1 else 0;
    if d.remove {
      PrimedTry(p, Control, Record(EV_DEV, DEV_RESET, d.slot), n + adds, rest);
    }
    var (q, ok) := FlushReset(p);
    assert ok && Primed(q, n + adds, rest);
    if d.add {
      PrimedTry(q, Control, Record(EV_DEV, DEV_CONF, d.slot), n, rest);
    }
  }

  lemma {:induction false} PrimedFlush(p: Port, n: nat, rest: seq<Outcome>)
    requires Primed(p, n + QueueTries(p.queue), rest)
    ensures var (q, ok) := Flush(p); ok && Primed(q, n, rest)
    decreases |p.queue|
  {
    if p.queue != [] {
      PrimedLast(p, n + QueueTries(p.queue[..|p.queue| - 1]), rest);
      PrimedFlush(FlushLast(p).0, n, rest);
    }
  }

  /** How many tries `send_plugin_event` makes before it looks at the slot. */
  function PendingTries(p: Port): nat {
    (if p.error != 0 then 1 else 0) + (if p.resetall then 1 else 0) + QueueTries(p.queue)
  }

  lemma PrimedPending(p: Port, rest: seq<Outcome>)
    requires Primed(p, PendingTries(p), rest)
    ensures var (q, ok) := SendPending(p); ok && Primed(q, 0, rest)
  {
    hide Transport.SendRecord, Flush;
    var n := QueueTries(p.queue);
    var m := n + if p.resetall then 1 else 0;
    if p.error != 0 {
      PrimedTry(p, Control, Record(EV_VM, VM_ERROR, p.error), m, rest);
    }
    var (p1, ok1) := SendPendingError(p);
    assert ok1 && Primed(p1, m, rest);
    if p1.resetall {
      PrimedTry(p1, Control, RESET_ALL, n, rest);
    }
    var (p2, ok2) := SendPendingResetAll(p1);
    assert ok2 && Primed(p2, n, rest);
    PrimedFlush(p2, 0, rest);
  }

  // ----- A call that recovers ---------------------------------------------

  /** The first try of `send_slot` is refused and nothing after it. */
  lemma RefusedSwitch(p: Port, slot: Int32)
    requires Primed(p, 0, [Blocked] + Takes(4))
    ensures SendSlot(p, slot).slot == p.slot && Flowing(SendSlot(p, slot), 2)
  {
    hide Transport.SendRecord;
    PrimedRefusal(p, Control, DROPPED, Takes(4));
    PrimedRefusal(p, Control, SetSlot(slot), Takes(4));
  }

  /** Such a call delivers its event to the slot selected before, and a loss
      that the event's own slot is owed stays untold. */
  lemma RecoveringCall(p: Port, slot: Int32, e: Record)
    requires FactsOf(p).current == p.slot && slot != p.slot
    requires Primed(p, PendingTries(p), [Blocked] + Takes(4))
    ensures var a := AuditOf(SendEvent(p, slot, e).log);
            a.astray && (slot in AuditOf(p.log).owed ==> a.silent)
  {
    hide Transport.SendRecord, Primed, AuditOf, HeardFrom, SendPending, SendSlot, SendOnSlot, PendingTries, Flows;
    CalledFacts(p);
    var p0 := Note(p, Called);
    assert AuditOf(p0.log) == FactsOf(p0).audit && AuditOf(p.log) == FactsOf(p).audit;
    SendPendingQuiet(p0);
    NotedPrimed(p, Called);
    PrimedPending(p0, [Blocked] + Takes(4));
    var p1 := SendPending(p0).0;
    assert FactsOf(p1) == FactsOf(p0);
    SendSlotFacts(p1, slot);
    RefusedSwitch(p1, slot);
    var p2 := SendSlot(p1, slot);
    SendOnSlotFacts(p2, slot, e);
    FlowingDelivery(p2, slot, e, 0);
    var q := SendEvent(p, slot, e);
    assert q == SendOnSlot(p2, slot, e);
    assert FactsOf(q).audit == AuditOf(q.log);
  }

  lemma NotedPrimed(p: Port, m: Mark)
    requires Primed(p, PendingTries(p), [Blocked] + Takes(4))
    ensures Primed(Note(p, m), PendingTries(Note(p, m)), [Blocked] + Takes(4))
  {
  }

  /** For every state of the port there is a socket that does this. */
  lemma SomeSocketRecovers(p: Port, slot: Int32, e: Record)
    requires FactsOf(p).current == p.slot && slot != p.slot
    requires p.sender.open && |p.sender.partial| < RECORD_SIZE
    ensures exists script :: var a := AuditOf(SendEvent(WithScript(p, script), slot, e).log);
              a.astray && (slot in AuditOf(p.log).owed ==> a.silent)
  {
    hide AuditOf, HeardFrom, SendEvent, PendingTries;
    var n := PendingTries(p) + if p.sender.partial == [] then 0 else 1;
    var script := Takes(n) + ([Blocked] + Takes(4));
    var q := WithScript(p, script);
    assert FactsOf(q) == FactsOf(p);
    SameTries(p, script);
    RecoveringCall(q, slot, e);
  }

  lemma SameTries(p: Port, script: seq<Outcome>)
    ensures PendingTries(WithScript(p, script)) == PendingTries(p)
  {
  }

  /** Slot coherence, exactly, whatever the socket does: an event can be
      delivered to the wrong slot if and only if the call changes slots. */
  lemma AstrayExactlyOnSwitch(p: Port, slot: Int32, e: Record)
    requires FactsOf(p).current == p.slot && !AuditOf(p.log).astray
    requires p.sender.open && |p.sender.partial| < RECORD_SIZE
    ensures slot == p.slot <==>
            forall script :: !AuditOf(SendEvent(WithScript(p, script), slot, e).log).astray
  {
    hide AuditOf, HeardFrom, SendEvent;
    if slot == p.slot {
      forall script ensures !AuditOf(SendEvent(WithScript(p, script), slot, e).log).astray {
        WhateverTheSocket(p, script, slot, e);
      }
    } else {
      SomeSocketRecovers(p, slot, e);
    }
  }

  /** A covered loss, exactly: an event can be accepted with a loss of its slot
      untold if and only if the call changes to a slot that is owed something. */
  lemma SilentExactlyOnSwitchToDebt(p: Port, slot: Int32, e: Record)
    requires Covered(FactsOf(p)) && !AuditOf(p.log).silent
    requires p.sender.open && |p.sender.partial| < RECORD_SIZE
    ensures slot == p.slot || slot !in AuditOf(p.log).owed <==>
            forall script :: !AuditOf(SendEvent(WithScript(p, script), slot, e).log).silent
  {
    hide AuditOf, HeardFrom, SendEvent, Covered;
    CoveredIsInStep(p);
    if slot == p.slot || slot !in AuditOf(p.log).owed {
      forall script ensures !AuditOf(SendEvent(WithScript(p, script), slot, e).log).silent {
        WhateverTheSocket(p, script, slot, e);
      }
    } else {
      SomeSocketRecovers(p, slot, e);
    }
  }

  lemma WhateverTheSocket(p: Port, script: seq<Outcome>, slot: Int32, e: Record)
    requires FactsOf(p).current == p.slot
    ensures var a, b := AuditOf(p.log), AuditOf(SendEvent(WithScript(p, script), slot, e).log);
            && (slot == p.slot ==> b.astray == a.astray)
            && (Covered(FactsOf(p)) && (slot == p.slot || slot !in a.owed) ==> b.silent == a.silent)
  {
    hide AuditOf, HeardFrom, SendEvent, Covered;
    var p' := WithScript(p, script);
    assert FactsOf(p') == FactsOf(p);
    EventCall(p', slot, e);
    var q := SendEvent(p', slot, e);
    assert FactsOf(q).audit == AuditOf(q.log) && FactsOf(p).audit == AuditOf(p.log);
  }

  // ----- The event after a debt that no flag covers -----------------------

  /** The debt of a third slot survives a change of slots that goes through,
      and the flag is clear. */
  lemma ThirdDebtStays(p: Port, slot: Int32, third: Int32, e: Record)
    requires FactsOf(p).current == p.slot && slot != p.slot && Flowing(p, 2 * |p.queue| + 6)
    requires third in AuditOf(p.log).owed && third != p.slot && third != slot
    ensures var q := SendEvent(p, slot, e);
            third in AuditOf(q.log).owed && !q.slotDropped && FactsOf(q).current == q.slot == slot
  {
    hide Transport.SendRecord, Flows, Try, AuditOf, HeardFrom, SendPending, SendSlot, SendOnSlot;
    FlowingEvent(p, slot, e, 0);
    CalledFacts(p);
    var p0 := Note(p, Called);
    assert AuditOf(p0.log) == FactsOf(p0).audit && AuditOf(p.log) == FactsOf(p).audit;
    SendPendingQuiet(p0);
    FlowingPending(p0, 4);
    var p1 := SendPending(p0).0;
    assert FactsOf(p1) == FactsOf(p0);
    SendSlotFacts(p1, slot);
    FlowingSwitch(p1, slot, 2);
    var p2 := SendSlot(p1, slot);
    SendOnSlotFacts(p2, slot, e);
    var q := SendEvent(p, slot, e);
    assert q == SendOnSlot(p2, slot, e);
    assert FactsOf(q).audit == AuditOf(q.log);
  }

  function TwoEvents(p: Port, slot: Int32, e: Record, next: Int32, e': Record): Port {
    SendEvent(SendEvent(p, slot, e), next, e')
  }

  /** A socket that takes everything hides the loss of a third slot. */
  lemma ThirdSlotGoesSilent(p: Port, slot: Int32, e: Record, third: Int32, e': Record)
    requires FactsOf(p).current == p.slot && slot != p.slot && !AuditOf(p.log).recovered
    requires third in AuditOf(p.log).owed && third != p.slot && third != slot
    requires Flowing(p, 2 * |p.queue| + 12)
    ensures var a := AuditOf(TwoEvents(p, slot, e, third, e').log); a.silent && !a.recovered
  {
    hide Flows, AuditOf, HeardFrom, SendEvent;
    FlowsLess(p, 2 * |p.queue| + 12, 2 * |p.queue| + 6);
    FlowingEvent(p, slot, e, 6);
    FlowingNeverRecovers(p, slot, e);
    ThirdDebtStays(p, slot, third, e);
    var q := SendEvent(p, slot, e);
    FlowingNeverRecovers(q, third, e');
    UncoveredGoesSilent(q, third, e');
  }

  /** What one flag is worth, told without the flags: two events in a row, the
      first for `slot`, keep the promise to announce losses, whatever the next
      slot is and whatever the socket does without recovering inside a call, if
      and only if one flag suffices for the first. */
  lemma OneFlagKeepsThePromise(p: Port, slot: Int32, e: Record, e': Record)
    requires Covered(FactsOf(p)) && Idle(FactsOf(p)) && !AuditOf(p.log).recovered && !AuditOf(p.log).silent
    requires p.sender.open && |p.sender.partial| < RECORD_SIZE
    ensures OneFlagSuffices(p, slot) <==>
            forall script, next :: var a := AuditOf(TwoEvents(WithScript(p, script), slot, e, next, e').log);
              !a.recovered ==> !a.silent
  {
    hide AuditOf, HeardFrom, SendEvent, Covered, Flows;
    CoveredIsInStep(p);
    if OneFlagSuffices(p, slot) {
      forall script, next
        ensures var a := AuditOf(TwoEvents(WithScript(p, script), slot, e, next, e').log); a.recovered || !a.silent
      {
        var p' := WithScript(p, script);
        assert FactsOf(p') == FactsOf(p);
        StepAudit(p', Event(slot, e));
        var q := SendEvent(p', slot, e);
        StepAudit(q, Event(next, e'));
        assert FactsOf(q).audit == AuditOf(q.log) && FactsOf(p).audit == AuditOf(p.log);
        var r := SendEvent(q, next, e');
        assert FactsOf(r).audit == AuditOf(r.log);
      }
    } else {
      var third :| third in AuditOf(p.log).owed && third !in {p.slot, slot};
      var script := Takes(2 * (2 * |p.queue| + 12));
      var p' := WithScript(p, script);
      assert FactsOf(p') == FactsOf(p);
      ThirdSlotGoesSilent(p', slot, e, third, e');
      assert AuditOf(TwoEvents(WithScript(p, script), slot, e, third, e').log).silent;
    }
  }

  // ----- Runs from an accepted connection ---------------------------------

  lemma RunOne(p: Port, op: Op, ops: seq<Op>)
    ensures Run(p, [op] + ops) == Run(Step(p, op), ops)
  {
    assert ([op] + ops)[1..] == ops;
  }

  /** The first event of a connection is delivered to no slot at all when the
      socket blocks once and then takes everything. */
  lemma FirstEventCanGoAstray(slot: Int32, e: Record)
    requires slot != INPUTSLOT_INVALID
    ensures AuditOf(Run(Accept([Blocked] + Takes(4)), [Event(slot, e)]).log).astray
  {
    hide SendEvent;
    var p := Accept([Blocked] + Takes(4));
    assert Takes(0) + p.sender.script == p.sender.script;
    RunOne(p, Event(slot, e), []);
    assert [Event(slot, e)] + [] == [Event(slot, e)];
    RecoveringCall(p, slot, e);
  }

  /** Nothing is pending, and the slot the server believes is the plugin's. */
  ghost predicate Plain(p: Port) {
    && p.error == 0 && !p.resetall && p.queue == []
    && HeardFrom(p.log).current == p.slot
  }

  /** An event of another slot at a blocked socket is lost, and noted. */
  lemma BlockedEvent(p: Port, slot: Int32, e: Record, rest: seq<Outcome>)
    requires Plain(p) && slot != p.slot && p.sender == Sending([Blocked, Blocked] + rest)
    requires !AuditOf(p.log).recovered
    ensures var q := SendEvent(p, slot, e);
            && Plain(q) && q.slot == p.slot && q.sender == Sending(rest)
            && AuditOf(q.log).owed == AuditOf(p.log).owed + {slot} && !AuditOf(q.log).recovered
  {
    hide Transport.SendRecord, Encode;
    var p0 := Note(p, Called);
    AuditSnoc(p.log, Called);
    assert [Blocked, Blocked] + rest == [Blocked] + ([Blocked] + rest);
    var first := if p.dropped then DROPPED else SetSlot(slot);
    BlockedTry(p0, Control, first, [Blocked] + rest);
    AuditSnoc(p0.log, Tried(Control, first, false));
    var p2 := SendSlot(p0, slot);
    var origin, second := if p.dropped then Control else Input(slot), if p.dropped then DROPPED else e;
    BlockedTry(p2, origin, second, rest);
    AuditSnoc(p2.log, Tried(origin, second, false));
    AuditSnoc(Try(p2, origin, second).0.log, Lost(slot));
  }

  /** From an accepted connection, with no recovery inside a call: the socket
      blocks while both slots lose an event and takes everything after; the
      plugin is never told of the loss on the second slot. */
  lemma LossCanStaySilent(a: Int32, b: Int32, e: Record)
    requires a != INPUTSLOT_INVALID && b != INPUTSLOT_INVALID && a != b
    ensures var script := [Blocked, Blocked, Blocked, Blocked] + Takes(24);
            var end := AuditOf(Run(Accept(script), [Event(a, e), Event(b, e), Event(a, e), Event(b, e)]).log);
            end.silent && !end.recovered
  {
    hide SendEvent, Flows;
    var flow := Takes(24);
    var script := [Blocked, Blocked, Blocked, Blocked] + flow;
    assert script == [Blocked, Blocked] + ([Blocked, Blocked] + flow);
    var p := Accept(script);
    BlockedEvent(p, a, e, [Blocked, Blocked] + flow);
    var p1 := SendEvent(p, a, e);
    BlockedEvent(p1, b, e, flow);
    var p2 := SendEvent(p1, b, e);
    ThirdSlotGoesSilent(p2, a, e, b, e);
    var ea, eb := Event(a, e), Event(b, e);
    RunOne(p, ea, [eb, ea, eb]);
    RunOne(p1, eb, [ea, eb]);
    RunOne(p2, ea, [eb]);
    RunOne(SendEvent(p2, a, e), eb, []);
    assert [ea] + [eb, ea, eb] == [ea, eb, ea, eb] && [eb] + [ea, eb] == [eb, ea, eb]
           && [ea] + [eb] == [ea, eb] && [eb] + [] == [eb];
  }
}
