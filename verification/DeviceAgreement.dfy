/** Device events that cannot be sent are folded into one entry per slot and a
    reset-all flag.  This module shows when that compressed form means the same
    as the history it stands for. */
module DeviceAgreement {
  import opened Wire
  import opened Transport
  import opened PluginPort

  function Removes(queue: seq<DevEvent>): set<Byte> {
    set d | d in queue && d.remove :: d.slot
  }

  function Adds(queue: seq<DevEvent>): set<Byte> {
    set d | d in queue && d.add :: d.slot
  }

  ghost predicate OnePerSlot(queue: seq<DevEvent>) {
    forall i, j | 0 <= i < j < |queue| :: queue[i].slot != queue[j].slot
  }

  /** The slots the plugin will hold when it has been told what is pending. */
  function Pending(devices: set<Byte>, queue: seq<DevEvent>): set<Byte> {
    devices - Removes(queue) + Adds(queue)
  }

  /** The plugin's set of devices, as far as the queue is concerned: a pending
      reset-all will have emptied it. */
  function Base(p: Port): set<Byte> {
    if p.resetall then {} else HeardFrom(p.log).devices
  }

  /** The shape of the queue: one entry a slot, and an entry that owes no reset
      stands for a slot that the plugin does not hold. */
  ghost predicate SoundQueue(base: set<Byte>, queue: seq<DevEvent>) {
    && OnePerSlot(queue)
    && (forall d | d in queue :: d.slot != ALL_SLOTS)
    && (forall d | d in queue && !d.remove :: d.slot !in base)
  }

  /** Pending state, applied to what the plugin holds, gives the slots that the
      whole history of configurations and resets asks for. */
  ghost predicate Agreed(p: Port) {
    && SoundQueue(Base(p), p.queue)
    && Pending(Base(p), p.queue) == Wanted(p.log)
  }

  /** A device event as the server issues them: a slot is only configured while
      it is not configured. */
  predicate Proper(p: Port, code: UInt16, value: Byte) {
    || code == DEV_RESET
    || (code == DEV_CONF && value != ALL_SLOTS && value !in Wanted(p.log))
  }

  // ----- The order of flushing -------------------------------------------

  function Tell(devices: set<Byte>, d: DevEvent): set<Byte> {
    var reset := if d.remove then devices - {d.slot} else devices;
    if d.add then reset + {d.slot} else reset
  }

  function TellAll(devices: set<Byte>, queue: seq<DevEvent>): set<Byte>
    decreases |queue|
  {
    if queue == [] then devices else TellAll(Tell(devices, queue[0]), queue[1..])
  }

  lemma ConsEntry(d: DevEvent, rest: seq<DevEvent>)
    ensures Removes([d] + rest) == (if d.remove then {d.slot} else {}) + Removes(rest)
    ensures Adds([d] + rest) == (if d.add then {d.slot} else {}) + Adds(rest)
  {
    assert forall x :: x in [d] + rest <==> x == d || x in rest;
  }

  lemma {:induction false} TellAllIsPending(devices: set<Byte>, queue: seq<DevEvent>)
    requires OnePerSlot(queue)
    ensures TellAll(devices, queue) == Pending(devices, queue)
    decreases |queue|
  {
    if queue != [] {
      var d, rest := queue[0], queue[1..];
      assert queue == [d] + rest;
      ConsEntry(d, rest);
      assert forall x | x in rest :: x.slot != d.slot;
      TellAllIsPending(Tell(devices, d), rest);
    }
  }

  /** The queue may be told in any order: two queues with the same entries leave
      the plugin with the same devices. */
  lemma FlushOrderIsIrrelevant(devices: set<Byte>, q1: seq<DevEvent>, q2: seq<DevEvent>)
    requires OnePerSlot(q1) && OnePerSlot(q2) && multiset(q1) == multiset(q2)
    ensures TellAll(devices, q1) == TellAll(devices, q2)
  {
    TellAllIsPending(devices, q1);
    TellAllIsPending(devices, q2);
    forall d ensures d in q1 <==> d in q2 {
      assert d in q1 <==> d in multiset(q1);
      assert d in q2 <==> d in multiset(q2);
    }
  }

  // ----- Changing one entry ----------------------------------------------

  lemma ReplaceEntry(queue: seq<DevEvent>, i: nat, d: DevEvent)
    requires OnePerSlot(queue) && i < |queue| && d.slot == queue[i].slot
    ensures OnePerSlot(queue[i := d])
    ensures Removes(queue[i := d]) == Removes(queue) - {d.slot} + if d.remove then {d.slot} else {}
    ensures Adds(queue[i := d]) == Adds(queue) - {d.slot} + if d.add then {d.slot} else {}
    ensures forall x | x in queue[i := d] :: x == d || (x in queue && x.slot != d.slot)
  {
    var q := queue[i := d];
    forall x | x in q ensures x == d || (x in queue && x.slot != d.slot) {
      var k :| 0 <= k < |q| && q[k] == x;
    }
    forall x | x in queue && x.slot != d.slot ensures x in q {
      var k :| 0 <= k < |queue| && queue[k] == x;
      assert q[k] == x;
    }
    assert q[i] == d;
  }

  lemma AppendEntry(queue: seq<DevEvent>, d: DevEvent)
    requires OnePerSlot(queue) && forall x | x in queue :: x.slot != d.slot
    ensures OnePerSlot(queue + [d])
    ensures Removes(queue + [d]) == Removes(queue) + if d.remove then {d.slot} else {}
    ensures Adds(queue + [d]) == Adds(queue) + if d.add then {d.slot} else {}
    ensures forall x :: x in queue + [d] <==> x in queue || x == d
  {
    assert forall x :: x in queue + [d] <==> x in queue || x == d;
  }

  /** The last entry against the rest. */
  lemma SplitLast(queue: seq<DevEvent>)
    requires OnePerSlot(queue) && queue != []
    ensures var rest, d := queue[..|queue| - 1], Last(queue);
            && OnePerSlot(rest)
            && Removes(queue) == Removes(rest) + (if d.remove then {d.slot} else {})
            && Adds(queue) == Adds(rest) + (if d.add then {d.slot} else {})
            && d.slot !in Removes(rest) && d.slot !in Adds(rest)
            && forall x | x in rest :: x in queue && x.slot != d.slot
  {
    var rest, d := queue[..|queue| - 1], Last(queue);
    assert queue == rest + [d];
    AppendEntry(rest, d);
  }

  // ----- What a call of send_to_plugin leaves alone ----------------------

  /** Apart from the history and the socket, a try changes nothing; in the
      history it adds at most what the plugin hears. */
  lemma TryHeard(p: Port, origin: Origin, rec: Record)
    ensures var (q, ok) := Try(p, origin, rec);
            && HeardFrom(q.log) == Hear(HeardFrom(p.log), Tried(origin, rec, ok))
            && Wanted(q.log) == Wanted(p.log)
  {
    var ok := Try(p, origin, rec).1;
    HeardSnoc(p.log, Tried(origin, rec, ok));
    WantedSnoc(p.log, Tried(origin, rec, ok));
  }

  lemma NoteHeard(p: Port, m: Mark)
    requires !m.Tried?
    ensures HeardFrom(Note(p, m).log) == HeardFrom(p.log)
    ensures Wanted(Note(p, m).log) == if m.Asked? then Apply(Wanted(p.log), m.code, m.value) else Wanted(p.log)
  {
    HeardSnoc(p.log, m);
    WantedSnoc(p.log, m);
  }

  // ----- Flushing ---------------------------------------------------------

  /** What flushing keeps: without a pending reset-all, the meaning of the
      queue; with one, only that no configuration is added to it. */
  ghost predicate SameMeaning(p: Port, q: Port)
    requires SoundQueue(Base(p), p.queue)
  {
    && q.resetall == p.resetall
    && Wanted(q.log) == Wanted(p.log)
    && SoundQueue(Base(q), q.queue)
    && (!p.resetall ==> Pending(Base(q), q.queue) == Pending(Base(p), p.queue))
    && (p.resetall ==> Adds(q.queue) <= Adds(p.queue))
  }

  lemma FlushResetKeeps(p: Port)
    requires p.queue != [] && SoundQueue(Base(p), p.queue)
    ensures SameMeaning(p, FlushReset(p).0)
    ensures FlushReset(p).1 ==> !Last(FlushReset(p).0.queue).remove
  {
    hide Transport.SendRecord;
    var d := Last(p.queue);
    TryHeard(p, Control, Record(EV_DEV, DEV_RESET, d.slot));
    ReplaceEntry(p.queue, |p.queue| - 1, d.(remove := false));
  }

  lemma FlushConfKeeps(p: Port)
    requires p.queue != [] && SoundQueue(Base(p), p.queue) && !Last(p.queue).remove
    ensures SameMeaning(p, FlushConf(p).0)
  {
    hide Transport.SendRecord;
    var d := Last(p.queue);
    TryHeard(p, Control, Record(EV_DEV, DEV_CONF, d.slot));
    SplitLast(p.queue);
  }

  lemma {:induction false} FlushKeeps(p: Port)
    requires SoundQueue(Base(p), p.queue)
    ensures SameMeaning(p, Flush(p).0)
    decreases |p.queue|
  {
    if p.queue != [] {
      FlushResetKeeps(p);
      var (q, ok) := FlushReset(p);
      if ok {
        FlushConfKeeps(q);
        var (r, ok') := FlushConf(q);
        if ok' {
          FlushKeeps(r);
        }
      }
    }
  }

  // ----- Queueing ---------------------------------------------------------

  lemma QueueConfKeeps(base: set<Byte>, queue: seq<DevEvent>, slot: Byte)
    requires SoundQueue(base, queue) && slot != ALL_SLOTS && slot !in Pending(base, queue)
    ensures SoundQueue(base, QueueConf(queue, slot))
    ensures Pending(base, QueueConf(queue, slot)) == Pending(base, queue) + {slot}
  {
    var i := Find(queue, slot);
    if i < |queue| {
      ReplaceEntry(queue, i, queue[i].(add := true));
    } else {
      AppendEntry(queue, DevEvent(slot, false, true));
    }
  }

  lemma QueueResetKeeps(base: set<Byte>, queue: seq<DevEvent>, slot: Byte)
    requires SoundQueue(base, queue) && slot != ALL_SLOTS
    ensures SoundQueue(base, QueueReset(queue, slot))
    ensures Pending(base, QueueReset(queue, slot)) == Pending(base, queue) - {slot}
  {
    var i := Find(queue, slot);
    if i < |queue| {
      var d := queue[i];
      assert d in queue;
      ReplaceEntry(queue, i, if d.add then d.(add := false) else d.(remove := true));
      OnlyEntry(queue, i);
    } else {
      AppendEntry(queue, DevEvent(slot, true, false));
    }
  }

  lemma OnlyEntry(queue: seq<DevEvent>, i: nat)
    requires OnePerSlot(queue) && i < |queue|
    ensures queue[i].slot in Removes(queue) <==> queue[i].remove
    ensures queue[i].slot in Adds(queue) <==> queue[i].add
  {
    ReplaceEntry(queue, i, queue[i]);
    assert queue[i := queue[i]] == queue;
  }

  lemma EnqueueKeeps(p: Port, code: UInt16, value: Byte)
    requires SoundQueue(Base(p), p.queue)
    requires code == DEV_RESET || (code == DEV_CONF && value != ALL_SLOTS && value !in Pending(Base(p), p.queue))
    requires code == DEV_RESET && value == ALL_SLOTS ==> p.queue == []
    ensures var q := Enqueue(p, code, value);
            && SoundQueue(Base(q), q.queue)
            && Pending(Base(q), q.queue) == Apply(Pending(Base(p), p.queue), code, value)
  {
    if code == DEV_CONF {
      QueueConfKeeps(Base(p), p.queue, value);
    } else if value != ALL_SLOTS {
      QueueResetKeeps(Base(p), p.queue, value);
    }
  }

  // ----- One device event -------------------------------------------------

  /** Whether a call is made in a state from which it cannot go wrong: with a
      reset-all pending, no slot but the one of the call waits to be
      configured; or the call is itself a reset-all. */
  predicate SafeToSend(p: Port, code: UInt16, value: Byte) {
    || !p.resetall
    || (code == DEV_RESET && value == ALL_SLOTS)
    || Adds(p.queue) <= {value}
  }

  lemma PrepareKeeps(p: Port, code: UInt16, value: Byte)
    requires SoundQueue(Base(p), p.queue)
    ensures var (q, ready) := Prepare(p, code, value);
            && Wanted(q.log) == Wanted(p.log) && q.resetall == p.resetall
            && SoundQueue(Base(q), q.queue)
            && (ready ==> q.queue == [])
            && if code == DEV_RESET && value == ALL_SLOTS then ready
               else if p.resetall then Adds(q.queue) <= Adds(p.queue)
               else Pending(Base(q), q.queue) == Pending(Base(p), p.queue)
  {
    FlushKeeps(p);
  }

  /** The state after the one record behind the queue: either that record is
      what the plugin heard last, or nothing but the flushing has happened. */
  lemma SendHeadKeeps(p: Port, code: UInt16, value: Byte)
    requires SoundQueue(Base(p), p.queue)
    requires code == DEV_RESET || code == DEV_CONF
    ensures var (q, ok) := SendHead(p, code, value);
            && Wanted(q.log) == Wanted(p.log) && q.resetall == p.resetall
            && SoundQueue(Base(q), q.queue)
            && (ok || (code == DEV_RESET && value == ALL_SLOTS) ==> q.queue == [])
            && (ok && p.resetall ==> HeardFrom(q.log).devices == {})
            && (ok && !p.resetall ==> HeardFrom(q.log).devices == Apply(Pending(Base(p), p.queue), code, value))
            && (!ok && p.resetall ==> Pending(Base(q), q.queue) <= Adds(p.queue))
            && (!ok && !p.resetall && !(code == DEV_RESET && value == ALL_SLOTS) ==>
                  Pending(Base(q), q.queue) == Pending(Base(p), p.queue))
  {
    hide Transport.SendRecord, Flush, Wanted, HeardFrom;
    PrepareKeeps(p, code, value);
    var (p1, ready) := Prepare(p, code, value);
    TryHeard(p1, Control, if p.resetall then RESET_ALL else Record(EV_DEV, code, value));
  }

  lemma SendDevBodyKeeps(p: Port, code: UInt16, value: Byte)
    requires SoundQueue(Base(p), p.queue) && SafeToSend(p, code, value)
    requires code == DEV_RESET || (code == DEV_CONF && value != ALL_SLOTS && value !in Pending(Base(p), p.queue))
    ensures var q := SendDevBody(p, code, value);
            && Wanted(q.log) == Wanted(p.log)
            && SoundQueue(Base(q), q.queue)
            && Pending(Base(q), q.queue) == Apply(Pending(Base(p), p.queue), code, value)
    decreases p.resetall
  {
    hide SendHead, QueueConf, QueueReset;
    SendHeadKeeps(p, code, value);
    var (p2, ok) := SendHead(p, code, value);
    if !ok {
      EnqueueKeeps(p2, code, value);
    } else if p.resetall {
      SendDevBodyKeeps(p2.(resetall := false), code, value);
    }
  }

  lemma SendDevKeeps(p: Port, code: UInt16, value: Byte)
    requires Agreed(p) && Proper(p, code, value) && SafeToSend(p, code, value)
    ensures Agreed(SendDev(p, code, value))
  {
    NoteHeard(p, Asked(code, value));
    SendDevBodyKeeps(Note(p, Asked(code, value)), code, value);
  }

  // ----- When a device event goes wrong ----------------------------------

  function WithScript(p: Port, script: seq<Outcome>): Port {
    p.(sender := p.sender.(script := script))
  }

  ghost predicate Flowing(p: Port, n: nat) {
    p.sender.open && |p.sender.partial| < RECORD_SIZE && Flows(p.sender.script, 2 * n)
  }

  lemma FlowingTry(p: Port, origin: Origin, rec: Record, n: nat)
    requires Flowing(p, n + 1)
    ensures var (q, ok) := Try(p, origin, rec); ok && Flowing(q, n)
  {
    FlowingAccepts(p.sender, Encode(rec), 2 * n);
  }

  lemma FlowingLast(p: Port, n: nat)
    requires p.queue != [] && Flowing(p, n + 2)
    ensures var (q, ok) := FlushLast(p); ok && Flowing(q, n)
  {
    hide Transport.SendRecord;
    FlowingTry(p, Control, Record(EV_DEV, DEV_RESET, Last(p.queue).slot), n + 1);
    var (q, ok) := FlushReset(p);
    assert Flowing(q, n + 1);
    FlowingTry(q, Control, Record(EV_DEV, DEV_CONF, Last(q.queue).slot), n);
  }

  lemma {:induction false} FlowingFlush(p: Port, n: nat)
    requires Flowing(p, 2 * |p.queue| + n)
    ensures var (q, ok) := Flush(p); ok && Flowing(q, n) && q.queue == [] && q.resetall == p.resetall
    decreases |p.queue|
  {
    if p.queue != [] {
      FlowingLast(p, 2 * (|p.queue| - 1) + n);
      FlowingFlush(FlushLast(p).0, n);
    }
  }

  /** A slot that waits behind a pending reset-all is configured first and then
      swept away, if the socket takes everything during the call. */
  lemma FlowingCallForgets(p: Port, code: UInt16, value: Byte, slot: Byte)
    requires p.resetall && !(code == DEV_RESET && value == ALL_SLOTS)
    requires code == DEV_CONF || code == DEV_RESET
    requires slot in Adds(p.queue) && slot != value
    requires Flowing(p, 2 * |p.queue| + 2)
    ensures var q := SendDevBody(p, code, value);
            slot !in Pending(Base(q), q.queue)
  {
    hide Transport.SendRecord, FlushLast, Flows;
    FlowingFlush(p, 2);
    var p1 := Flush(p).0;
    FlowingTry(p1, Control, RESET_ALL, 1);
    TryHeard(p1, Control, RESET_ALL);
    var p2 := Try(p1, Control, RESET_ALL).0.(resetall := false);
    FlowingTry(p2, Control, Record(EV_DEV, code, value), 0);
    TryHeard(p2, Control, Record(EV_DEV, code, value));
    assert SendDevBody(p, code, value) == SendDevBody(p2, code, value);
    assert Flush(p2) == (p2, true);
  }

  lemma {:induction false} WantedByBody(p: Port, code: UInt16, value: Byte)
    ensures Wanted(SendDevBody(p, code, value).log) == Wanted(p.log)
    decreases p.resetall
  {
    hide Try, Flush;
    FlushWanted(p);
    var (p1, ready) := Prepare(p, code, value);
    TryHeard(p1, Control, if p.resetall then RESET_ALL else Record(EV_DEV, code, value));
    var (p2, ok) := SendHead(p, code, value);
    if ok && p.resetall {
      WantedByBody(p2.(resetall := false), code, value);
    }
  }

  lemma {:induction false} FlushWanted(p: Port)
    ensures Wanted(Flush(p).0.log) == Wanted(p.log)
    decreases |p.queue|
  {
    hide Transport.SendRecord;
    if p.queue != [] {
      TryHeard(p, Control, Record(EV_DEV, DEV_RESET, Last(p.queue).slot));
      var (q, ok) := FlushReset(p);
      if ok {
        TryHeard(q, Control, Record(EV_DEV, DEV_CONF, Last(q.queue).slot));
        var (r, ok') := FlushConf(q);
        if ok' {
          FlushWanted(r);
        }
      }
    }
  }

  function Takes(n: nat): (s: seq<Outcome>)
    ensures Flows(s, n)
  {
    seq(n, _ => Took(RECORD_SIZE))
  }

  /** The exact condition: a device event keeps pending state and history in
      agreement, whatever the socket does, if and only if it is safe to send. */
  lemma DeviceEventKeepsMeaning(p: Port, code: UInt16, value: Byte)
    requires Agreed(p) && Proper(p, code, value)
    requires p.sender.open && |p.sender.partial| < RECORD_SIZE
    ensures SafeToSend(p, code, value) <==>
            forall script :: Agreed(SendDev(WithScript(p, script), code, value))
  {
    if SafeToSend(p, code, value) {
      forall script ensures Agreed(SendDev(WithScript(p, script), code, value)) {
        SendDevKeeps(WithScript(p, script), code, value);
      }
    } else {
      var slot :| slot in Adds(p.queue) && slot != value;
      var script := Takes(2 * (2 * |p.queue| + 2));
      var q := Note(WithScript(p, script), Asked(code, value));
      NoteHeard(p, Asked(code, value));
      FlowingCallForgets(q, code, value, slot);
      WantedByBody(q, code, value);
      assert slot in Wanted(SendDev(WithScript(p, script), code, value).log);
      assert !Agreed(SendDev(WithScript(p, script), code, value));
    }
  }

  // ----- Input events drain what is pending ------------------------------

  ghost predicate SameDevices(p: Port, q: Port) {
    && q.queue == p.queue && q.resetall == p.resetall
    && HeardFrom(q.log).devices == HeardFrom(p.log).devices
    && Wanted(q.log) == Wanted(p.log)
  }

  lemma SendPendingKeeps(p: Port)
    requires Agreed(p)
    ensures var (q, ok) := SendPending(p);
            Agreed(q) && (ok ==> q.queue == [] && !q.resetall)
  {
    hide Transport.SendRecord, Flush, SendPendingError, SendPendingResetAll, SoundQueue, Pending, Wanted, HeardFrom;
    SendPendingErrorKeeps(p);
    var (p1, ok1) := SendPendingError(p);
    SendPendingResetAllKeeps(p1);
    FlushKeeps(SendPendingResetAll(p1).0);
  }

  lemma SendPendingErrorKeeps(p: Port)
    requires Agreed(p)
    ensures Agreed(SendPendingError(p).0)
  {
    hide Transport.SendRecord, SoundQueue, Pending, Wanted, HeardFrom;
    TryHeard(p, Control, Record(EV_VM, VM_ERROR, p.error));
  }

  lemma SendPendingResetAllKeeps(p: Port)
    requires Agreed(p)
    ensures var (q, ok) := SendPendingResetAll(p); Agreed(q) && (ok ==> !q.resetall)
  {
    hide Transport.SendRecord, SoundQueue, Pending, Wanted, HeardFrom;
    TryHeard(p, Control, RESET_ALL);
  }

  lemma AnnounceSameDevices(p: Port)
    ensures SameDevices(p, Announce(p).0)
  {
    TryHeard(p, Control, DROPPED);
  }

  lemma SendSlotSameDevices(p: Port, slot: Int32)
    ensures SameDevices(p, SendSlot(p, slot))
  {
    hide Transport.SendRecord;
    AnnounceSameDevices(p);
    TryHeard(Announce(p).0, Control, SetSlot(slot));
  }

  lemma SendOnSlotSameDevices(p: Port, slot: Int32, e: Record)
    ensures SameDevices(p, SendOnSlot(p, slot, e))
  {
    hide Transport.SendRecord;
    AnnounceSameDevices(p);
    var (p1, ok1) := Announce(p);
    TryHeard(p1, Input(slot), e);
    NoteHeard(p1, Lost(slot));
    NoteHeard(Try(p1, Input(slot), e).0.(dropped := true), Lost(slot));
  }

  /** Whether the last thing that happened is the acceptance of an event. */
  predicate EventAccepted(p: Port, slot: Int32, e: Record) {
    p.log != [] && p.log[|p.log| - 1] == Tried(Input(slot), e, true)
  }

  /** Sending an input event keeps the agreement in every state; and when the
      event is accepted nothing is pending, so that the plugin receives it with
      exactly the devices that the history asks for. */
  lemma InputEventDrains(p: Port, slot: Int32, e: Record)
    requires Agreed(p)
    ensures var q := SendEvent(p, slot, e);
            && Agreed(q)
            && (EventAccepted(q, slot, e) ==> HeardFrom(q.log).devices == Wanted(q.log))
  {
    hide Transport.SendRecord, SendSlot, SendOnSlot, SendPending;
    NoteHeard(p, Called);
    SendPendingKeeps(Note(p, Called));
    var (p1, ready) := SendPending(Note(p, Called));
    if ready {
      var p2 := if p1.slot != slot then SendSlot(p1, slot) else p1;
      SendSlotSameDevices(p1, slot);
      SendOnSlotSameDevices(p2, slot, e);
    } else {
      NoteHeard(if p1.slot != slot then p1.(slotDropped := true) else p1.(dropped := true), Lost(slot));
    }
  }

  lemma ErrorKeeps(p: Port, status: UInt32)
    requires Agreed(p)
    ensures Agreed(SendError(p, status))
  {
    NoteHeard(p, Reported(status));
    TryHeard(Note(p, Reported(status)), Control, Record(EV_VM, VM_ERROR, status));
  }

  // ----- Whole runs -------------------------------------------------------

  /** Every device event of a run is proper and safe where it is made. */
  ghost predicate SafeRun(p: Port, ops: seq<Op>)
    decreases |ops|
  {
    ops == [] || (
      && (ops[0].Dev? ==> Proper(p, ops[0].code, ops[0].value) && SafeToSend(p, ops[0].code, ops[0].value))
      && SafeRun(Step(p, ops[0]), ops[1..]))
  }

  lemma {:induction false} RunKeepsMeaning(p: Port, ops: seq<Op>)
    requires Agreed(p) && SafeRun(p, ops)
    ensures Agreed(Run(p, ops))
    decreases |ops|
  {
    hide Agreed, Proper, SafeToSend, SendEvent, SendDev, SendError;
    if ops != [] {
      match ops[0] {
        case Event(slot, e) => InputEventDrains(p, slot, e);
        case Dev(code, value) => SendDevKeeps(p, code, value);
        case Error(status) => ErrorKeeps(p, status);
      }
      RunKeepsMeaning(Step(p, ops[0]), ops[1..]);
    }
  }

  // ----- Where the conditions come from ----------------------------------

  /** `sock_plugin_sendconfig` resets all slots and configures two of them; the
      socket blocks for the first two calls and takes everything after.  The
      first slot is told before the reset-all and is lost. */
  lemma SendConfigCanLoseASlot()
    ensures exists script :: var p := Run(Accept(script), [Dev(DEV_RESET, ALL_SLOTS), Dev(DEV_CONF, 3), Dev(DEV_CONF, 5)]);
              p.queue == [] && !p.resetall && Wanted(p.log) == {3, 5} && HeardFrom(p.log).devices == {5}
  {
    hide Transport.SendRecord;
    var flow := Takes(8);
    var script := [Blocked, Blocked] + flow;
    var p0 := Accept(script);
    var p1 := AfterFirst(script, flow);
    var p2 := AfterSecond(p1, flow);
    var p3 := AfterThird(p2);
    var ops := [Dev(DEV_RESET, ALL_SLOTS), Dev(DEV_CONF, 3), Dev(DEV_CONF, 5)];
    assert ops[1..] == [Dev(DEV_CONF, 3), Dev(DEV_CONF, 5)];
    assert ops[1..][1..] == [Dev(DEV_CONF, 5)];
    assert ops[1..][1..][1..] == [];
    assert Run(p0, ops) == Run(p1, ops[1..]) == Run(p2, ops[1..][1..]) == Run(p3, []) == p3;
  }

  ghost function Sending(script: seq<Outcome>): Sender {
    Sender(script, [], true, [])
  }

  lemma BlockedTry(p: Port, origin: Origin, rec: Record, rest: seq<Outcome>)
    requires p.sender == Sending([Blocked] + rest)
    ensures var (q, ok) := Try(p, origin, rec);
            && !ok && q == p.(sender := Sending(rest), log := p.log + [Tried(origin, rec, false)])
  {
    assert ([Blocked] + rest)[1..] == rest;
  }

  lemma AfterFirst(script: seq<Outcome>, flow: seq<Outcome>) returns (p: Port)
    requires script == [Blocked, Blocked] + flow
    ensures p == SendDev(Accept(script), DEV_RESET, ALL_SLOTS)
    ensures p.sender == Sending([Blocked] + flow) && p.queue == [] && p.resetall
    ensures Wanted(p.log) == {} && HeardFrom(p.log).devices == {}
  {
    var q := Note(Accept(script), Asked(DEV_RESET, ALL_SLOTS));
    assert script == [Blocked] + ([Blocked] + flow);
    NoteHeard(Accept(script), Asked(DEV_RESET, ALL_SLOTS));
    BlockedTry(q, Control, RESET_ALL, [Blocked] + flow);
    TryHeard(q, Control, RESET_ALL);
    p := SendDev(Accept(script), DEV_RESET, ALL_SLOTS);
  }

  lemma AfterSecond(p: Port, flow: seq<Outcome>) returns (q: Port)
    requires p.sender == Sending([Blocked] + flow) && p.queue == [] && p.resetall
    requires Wanted(p.log) == {} && HeardFrom(p.log).devices == {}
    ensures q == SendDev(p, DEV_CONF, 3)
    ensures q.sender == Sending(flow) && q.queue == [DevEvent(3, false, true)] && q.resetall
    ensures Wanted(q.log) == {3} && HeardFrom(q.log).devices == {}
  {
    var r := Note(p, Asked(DEV_CONF, 3));
    NoteHeard(p, Asked(DEV_CONF, 3));
    BlockedTry(r, Control, RESET_ALL, flow);
    TryHeard(r, Control, RESET_ALL);
    q := SendDev(p, DEV_CONF, 3);
  }

  lemma AfterThird(p: Port) returns (q: Port)
    requires Flowing(p, 4) && p.queue == [DevEvent(3, false, true)] && p.resetall
    requires Wanted(p.log) == {3} && HeardFrom(p.log).devices == {}
    ensures q == SendDev(p, DEV_CONF, 5)
    ensures q.queue == [] && !q.resetall && Wanted(q.log) == {3, 5} && HeardFrom(q.log).devices == {5}
  {
    hide Transport.SendRecord;
    var r := Note(p, Asked(DEV_CONF, 5));
    NoteHeard(p, Asked(DEV_CONF, 5));
    FlowingFlush(r, 2);
    var p1 := Flush(r).0;
    FlushWanted(r);
    FlowingTry(p1, Control, RESET_ALL, 1);
    TryHeard(p1, Control, RESET_ALL);
    var p2 := Try(p1, Control, RESET_ALL).0.(resetall := false);
    FlowingTry(p2, Control, Record(EV_DEV, DEV_CONF, 5), 0);
    TryHeard(p2, Control, Record(EV_DEV, DEV_CONF, 5));
    assert Flush(p2) == (p2, true);
    q := SendDev(p, DEV_CONF, 5);
    assert q == SendDevBody(r, DEV_CONF, 5) == SendDevBody(p2, DEV_CONF, 5);
  }

  /** A device event that finds the socket blocked with one entry owing a
      configuration, or none, in the queue. */
  lemma BlockedConf(p: Port, slot: Byte)
    requires p.queue == [] && !p.resetall && p.sender == Sending([Blocked, Blocked])
    ensures var q := SendDev(p, DEV_CONF, slot);
            && q.queue == [DevEvent(slot, false, true)] && !q.resetall && q.sender == Sending([Blocked])
            && HeardFrom(q.log) == HeardFrom(p.log) && Wanted(q.log) == Wanted(p.log) + {slot}
  {
    hide Transport.SendRecord;
    var r := Note(p, Asked(DEV_CONF, slot));
    NoteHeard(p, Asked(DEV_CONF, slot));
    assert [Blocked, Blocked] == [Blocked] + [Blocked];
    BlockedTry(r, Control, Record(EV_DEV, DEV_CONF, slot), [Blocked]);
    TryHeard(r, Control, Record(EV_DEV, DEV_CONF, slot));
  }

  lemma BlockedReset(p: Port, slot: Byte)
    requires slot != ALL_SLOTS
    requires p.queue == [DevEvent(slot, false, true)] && !p.resetall && p.sender == Sending([Blocked])
    ensures var q := SendDev(p, DEV_RESET, slot);
            && q.queue == [DevEvent(slot, false, false)] && !q.resetall
            && HeardFrom(q.log) == HeardFrom(p.log) && Wanted(q.log) == Wanted(p.log) - {slot}
  {
    hide Transport.SendRecord;
    var r := Note(p, Asked(DEV_RESET, slot));
    NoteHeard(p, Asked(DEV_RESET, slot));
    assert [Blocked] == [Blocked] + [];
    BlockedTry(r, Control, Record(EV_DEV, DEV_CONF, slot), []);
    TryHeard(r, Control, Record(EV_DEV, DEV_CONF, slot));
    assert FlushConf(r) == (Try(r, Control, Record(EV_DEV, DEV_CONF, slot)).0, false);
    assert Flush(r) == FlushConf(r);
  }

  /** Configuring a slot twice is not safe either: with the second
      configuration still queued, a reset only takes that one back. */
  lemma ConfiguringTwiceCanKeepASlot(p: Port)
    requires p.queue == [] && !p.resetall && HeardFrom(p.log).devices == {3} == Wanted(p.log)
    requires p.sender == Sending([Blocked, Blocked])
    ensures Agreed(p)
    ensures var q := SendDev(SendDev(p, DEV_CONF, 3), DEV_RESET, 3);
            Pending(Base(q), q.queue) == {3} && Wanted(q.log) == {}
  {
    hide SendDev;
    BlockedConf(p, 3);
    BlockedReset(SendDev(p, DEV_CONF, 3), 3);
  }
}
