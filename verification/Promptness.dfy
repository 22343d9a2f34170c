/** Nothing waits without a reason: what a plugin has not been told yet was
    refused by the socket, and a socket that takes everything is told everything
    at once. */
module Promptness {
  import opened Wire
  import opened Transport
  import opened PluginPort
  import opened DeviceAgreement
  import EndToEnd

  // ----- The tail ---------------------------------------------------------

  ghost predicate KeptBySending(good: Sender -> bool) {
    forall s: Sender, bytes: seq<Byte> | good(s) && bytes != [] :: good(SendRecord(s, bytes).0)
  }

  lemma TryKeeps(good: Sender -> bool, p: Port, origin: Origin, rec: Record)
    requires KeptBySending(good) && good(p.sender)
    ensures good(Try(p, origin, rec).0.sender)
  {
    hide Transport.SendRecord;
    assert Encode(rec) != [];
  }

  lemma {:induction false} FlushKeepsSender(good: Sender -> bool, p: Port)
    requires KeptBySending(good) && good(p.sender)
    ensures good(Flush(p).0.sender)
    decreases |p.queue|
  {
    hide Try, KeptBySending;
    if p.queue != [] {
      TryKeeps(good, p, Control, Record(EV_DEV, DEV_RESET, Last(p.queue).slot));
      var (q, ok) := FlushReset(p);
      if ok {
        TryKeeps(good, q, Control, Record(EV_DEV, DEV_CONF, Last(q.queue).slot));
        var (r, ok') := FlushConf(q);
        if ok' {
          FlushKeepsSender(good, r);
        }
      }
    }
  }

  lemma SendDevKeepsSender(good: Sender -> bool, p: Port, code: UInt16, value: Byte)
    requires KeptBySending(good) && good(p.sender)
    ensures good(SendDevBody(p, code, value).sender)
    decreases p.resetall
  {
    hide Try, Flush, KeptBySending, QueueConf, QueueReset;
    FlushKeepsSender(good, p);
    var (q, ready) := Prepare(p, code, value);
    TryKeeps(good, q, Control, if p.resetall then RESET_ALL else Record(EV_DEV, code, value));
    var (r, ok) := SendHead(p, code, value);
    if ok && p.resetall {
      SendDevKeepsSender(good, r.(resetall := false), code, value);
    }
  }

  lemma SendPendingKeepsSender(good: Sender -> bool, p: Port)
    requires KeptBySending(good) && good(p.sender)
    ensures good(SendPending(p).0.sender)
  {
    hide Try, Flush, KeptBySending;
    TryKeeps(good, p, Control, Record(EV_VM, VM_ERROR, p.error));
    var (p1, ok1) := SendPendingError(p);
    TryKeeps(good, p1, Control, RESET_ALL);
    FlushKeepsSender(good, SendPendingResetAll(p1).0);
  }

  lemma SendEventKeepsSender(good: Sender -> bool, p: Port, slot: Int32, e: Record)
    requires KeptBySending(good) && good(p.sender)
    ensures good(SendEvent(p, slot, e).sender)
  {
    hide Try, SendPending, KeptBySending;
    SendPendingKeepsSender(good, Note(p, Called));
    var (p1, ready) := SendPending(Note(p, Called));
    AnnounceKeepsSender(good, p1);
    TryKeeps(good, Announce(p1).0, Control, SetSlot(slot));
    var p2 := if p1.slot != slot then SendSlot(p1, slot) else p1;
    AnnounceKeepsSender(good, p2);
    TryKeeps(good, Announce(p2).0, Input(slot), e);
  }

  lemma AnnounceKeepsSender(good: Sender -> bool, p: Port)
    requires KeptBySending(good) && good(p.sender)
    ensures good(Announce(p).0.sender)
  {
    hide Try, KeptBySending;
    TryKeeps(good, p, Control, DROPPED);
  }

  /** What every `send_to_plugin` keeps of the socket and its tail, every run of
      calls keeps. */
  lemma {:induction false} RunKeepsSender(good: Sender -> bool, p: Port, ops: seq<Op>)
    requires KeptBySending(good) && good(p.sender)
    ensures good(Run(p, ops).sender)
    decreases |ops|
  {
    hide Try, KeptBySending, SendEvent, SendDevBody;
    if ops != [] {
      match ops[0] {
        case Event(slot, e) => SendEventKeepsSender(good, p, slot, e);
        case Dev(code, value) => SendDevKeepsSender(good, Note(p, Asked(code, value)), code, value);
        case Error(status) => TryKeeps(good, Note(p, Reported(status)), Control, Record(EV_VM, VM_ERROR, status));
      }
      RunKeepsSender(good, Step(p, ops[0]), ops[1..]);
    }
  }

  ghost predicate WaitsOnBlock(script: seq<Outcome>, s: Sender) {
    Later(script, s.script) && (s.open && s.partial != [] ==> LastBlocked(script, s.script))
  }

  /** Over every run and every script: a standing connection has a torn record
      waiting only while the last thing its socket did was to block. */
  lemma TailWaitsOnlyOnABlock(script: seq<Outcome>, ops: seq<Op>)
    ensures WaitsOnBlock(script, Run(Accept(script), ops).sender)
  {
    hide Run, Transport.SendRecord, LastBlocked;
    var good: Sender -> bool := s => WaitsOnBlock(script, s);
    forall s: Sender, bytes: seq<Byte> | good(s) && bytes != [] ensures good(SendRecord(s, bytes).0) {
      OnlyABlockHoldsBack(s, bytes);
      LaterAgain(script, s.script, SendRecord(s, bytes).0.script);
      SendRecordConserves(s, bytes);
    }
    RunKeepsSender(good, Accept(script), ops);
  }

  // ----- Device events ----------------------------------------------------

  /** The last thing in the history is a record that the socket refused. */
  predicate JustRefused(p: Port) {
    p.log != [] && var m := p.log[|p.log| - 1]; m.Tried? && !m.ok
  }

  lemma TryRefuses(p: Port, origin: Origin, rec: Record)
    ensures var (q, ok) := Try(p, origin, rec);
            (!ok ==> JustRefused(q)) && q.queue == p.queue && q.resetall == p.resetall && q.error == p.error
  {
    hide Transport.SendRecord;
  }

  lemma {:induction false} FlushRefused(p: Port)
    ensures var (q, ok) := Flush(p);
            (!ok ==> JustRefused(q)) && q.resetall == p.resetall
    decreases |p.queue|
  {
    hide Try;
    if p.queue != [] {
      TryRefuses(p, Control, Record(EV_DEV, DEV_RESET, Last(p.queue).slot));
      var (q, ok) := FlushReset(p);
      if ok {
        TryRefuses(q, Control, Record(EV_DEV, DEV_CONF, Last(q.queue).slot));
        var (r, ok') := FlushConf(q);
        if ok' {
          FlushRefused(r);
        }
      }
    }
  }

  /** When something about devices is pending after `send_plugin_dev_event`, the
      last thing that the call did was to be refused by the socket. */
  lemma PendingDeviceEventWasRefused(p: Port, code: UInt16, value: Byte)
    ensures var q := SendDevBody(p, code, value);
            q.queue != [] || q.resetall ==> JustRefused(q)
    decreases p.resetall
  {
    hide Try, Flush, QueueConf, QueueReset;
    FlushRefused(p);
    var (p1, ready) := Prepare(p, code, value);
    TryRefuses(p1, Control, if p.resetall then RESET_ALL else Record(EV_DEV, code, value));
    var (p2, ok) := SendHead(p, code, value);
    if ok && p.resetall {
      PendingDeviceEventWasRefused(p2.(resetall := false), code, value);
    }
  }

  /** So on a socket that takes everything nothing is pending after the call;
      and from agreement, the plugin then holds exactly the devices asked for. */
  lemma FlowingDeviceEvent(p: Port, code: UInt16, value: Byte)
    requires Flowing(p, 2 * |p.queue| + 2)
    ensures var q := SendDev(p, code, value);
            && q.queue == [] && !q.resetall
            && (Agreed(p) && Proper(p, code, value) && SafeToSend(p, code, value) ==>
                  HeardFrom(q.log).devices == Wanted(q.log))
  {
    hide Flows, Wanted, HeardFrom, SendDevBody;
    var p0 := Note(p, Asked(code, value));
    FlowsLess(p0, 2 * |p0.queue| + 2, 2 * |p0.queue| + if p0.resetall then 2 else 1);
    FlowingBody(p0, code, value);
    if Agreed(p) && Proper(p, code, value) && SafeToSend(p, code, value) {
      SendDevKeeps(p, code, value);
    }
  }

  lemma FlowsLess(p: Port, n: nat, m: nat)
    requires Flowing(p, n) && m <= n
    ensures Flowing(p, m)
  {
  }

  lemma FlowingBody(p: Port, code: UInt16, value: Byte)
    requires Flowing(p, 2 * |p.queue| + if p.resetall then 2 else 1)
    ensures var q := SendDevBody(p, code, value); q.queue == [] && !q.resetall
    decreases p.resetall
  {
    hide Transport.SendRecord, FlushLast, Flows, QueueConf, QueueReset;
    var n := if p.resetall then 1 else 0;
    FlowsLess(p, 2 * |p.queue| + n + 1, n + 1);
    FlowingFlush(p, n + 1);
    var (q, ready) := Prepare(p, code, value);
    FlowingTry(q, Control, if p.resetall then RESET_ALL else Record(EV_DEV, code, value), n);
    var r := SendHead(p, code, value).0;
    if p.resetall {
      FlowingBody(r.(resetall := false), code, value);
    }
  }

  // ----- Input events -----------------------------------------------------

  /** The last thing in the history is a loss, and what went before it a record
      that the socket refused. */
  predicate LostByRefusal(p: Port, slot: Int32) {
    |p.log| > 1 && p.log[|p.log| - 1] == Lost(slot) && var m := p.log[|p.log| - 2]; m.Tried? && !m.ok
  }

  lemma SendPendingRefused(p: Port)
    ensures var (q, ok) := SendPending(p);
            if ok then q.error == 0 && q.queue == [] && !q.resetall else JustRefused(q)
  {
    hide Try, Flush;
    TryRefuses(p, Control, Record(EV_VM, VM_ERROR, p.error));
    var (p1, ok1) := SendPendingError(p);
    TryRefuses(p1, Control, RESET_ALL);
    var (p2, ok2) := SendPendingResetAll(p1);
    FlushRefused(p2);
    FlushError(p2);
  }

  lemma {:induction false} FlushError(p: Port)
    ensures Flush(p).0.error == p.error
    decreases |p.queue|
  {
    hide Transport.SendRecord;
    if p.queue != [] {
      var (q, ok) := FlushReset(p);
      if ok {
        var (r, ok') := FlushConf(q);
        if ok' {
          FlushError(r);
        }
      }
    }
  }

  /** An input event is either accepted, and then nothing is pending, or lost,
      and then because the socket has just refused a record. */
  lemma AcceptedOrRefused(p: Port, slot: Int32, e: Record)
    ensures var q := SendEvent(p, slot, e);
            if EventAccepted(q, slot, e) then q.error == 0 && q.queue == [] && !q.resetall && !q.dropped
            else LostByRefusal(q, slot)
  {
    hide Try, SendPending;
    var p0 := Note(p, Called);
    SendPendingRefused(p0);
    var (p1, ready) := SendPending(p0);
    if ready {
      TryRefuses(p1, Control, DROPPED);
      TryRefuses(Announce(p1).0, Control, SetSlot(slot));
      var p2 := if p1.slot != slot then SendSlot(p1, slot) else p1;
      SendSlotKeepsError(p1, slot);
      EndOfEvent(p2, slot, e);
    }
  }

  lemma SendSlotKeepsError(p: Port, slot: Int32)
    ensures var q := SendSlot(p, slot); q.error == p.error && q.queue == p.queue && q.resetall == p.resetall
  {
    hide Transport.SendRecord;
  }

  lemma EndOfEvent(p: Port, slot: Int32, e: Record)
    ensures var q := SendOnSlot(p, slot, e);
            && q.error == p.error && q.queue == p.queue && q.resetall == p.resetall
            && if EventAccepted(q, slot, e) then !q.dropped else LostByRefusal(q, slot)
  {
    hide Transport.SendRecord;
    TryRefuses(p, Control, DROPPED);
    TryRefuses(Announce(p).0, Input(slot), e);
  }

  // ----- A socket that takes everything -----------------------------------

  /** What the plugin should be sent for some calls when the socket never blocks
      and `slot` is selected: each input event behind a `DEV_SET` where the slot
      changes, each device event and each error as it is. */
  function Ideal(ops: seq<Op>, slot: Int32): seq<Record> {
    if ops == [] then []
    else match ops[0]
      case Event(s, e) => (if s != slot then [SetSlot(s), e] else [e]) + Ideal(ops[1..], s)
      case Dev(code, value) => [Record(EV_DEV, code, value)] + Ideal(ops[1..], slot)
      case Error(status) => [Record(EV_VM, VM_ERROR, status)] + Ideal(ops[1..], slot)
  }

  /** Nothing is pending, and the socket takes everything for at least `n` more
      records. */
  ghost predicate Clear(p: Port, n: nat) {
    && p.error == 0 && !p.resetall && p.queue == [] && !p.dropped && !p.slotDropped
    && p.sender.open && p.sender.partial == [] && Flows(p.sender.script, 2 * n)
  }

  lemma ClearTry(p: Port, origin: Origin, rec: Record, n: nat)
    requires Clear(p, n + 1)
    ensures var (q, ok) := Try(p, origin, rec);
            ok && Clear(q, n) && q.slot == p.slot && Accepted(q.log) == Accepted(p.log) + [rec]
  {
    hide Transport.SendRecord;
    FlowingAccepts(p.sender, Encode(rec), 2 * n);
    AcceptedSnoc(p.log, Tried(origin, rec, true));
  }

  lemma ClearNote(p: Port, m: Mark, n: nat)
    requires Clear(p, n) && !m.Tried?
    ensures Clear(Note(p, m), n) && Accepted(Note(p, m).log) == Accepted(p.log)
  {
    AcceptedSnoc(p.log, m);
    assert Accepted(p.log) + [] == Accepted(p.log);
  }

  lemma ClearEvent(p: Port, slot: Int32, e: Record, n: nat)
    requires Clear(p, n + 2)
    ensures var q := SendEvent(p, slot, e);
            && Clear(q, n) && q.slot == slot
            && Accepted(q.log) == Accepted(p.log) + if slot != p.slot then [SetSlot(slot), e] else [e]
  {
    hide Try, Flows;
    ClearNote(p, Called, n + 2);
    var p0 := Note(p, Called);
    if slot != p.slot {
      ClearTry(p0, Control, SetSlot(slot), n + 1);
      var p1 := SendSlot(p0, slot);
      assert Clear(p1, n + 1);
      ClearTry(p1, Input(slot), e, n);
      assert SendEvent(p, slot, e) == Try(p1, Input(slot), e).0;
    } else {
      ClearTry(p0, Input(slot), e, n + 1);
      assert SendEvent(p, slot, e) == Try(p0, Input(slot), e).0;
      ClearLess(SendEvent(p, slot, e), n + 1, n);
    }
  }

  lemma ClearLess(p: Port, n: nat, m: nat)
    requires Clear(p, n) && m <= n
    ensures Clear(p, m)
  {
  }

  lemma ClearStep(p: Port, op: Op, n: nat)
    requires Clear(p, n + 2)
    ensures var q := Step(p, op);
            && Clear(q, n) && q.slot == (if op.Event? then op.slot else p.slot)
            && Accepted(q.log) == Accepted(p.log) + Ideal([op], p.slot)
  {
    hide Try, Flows, SendEvent;
    assert Ideal([op][1..], p.slot) == [] && [op][1..] == [];
    match op
    case Event(slot, e) =>
      ClearEvent(p, slot, e, n);
    case Dev(code, value) =>
      ClearNote(p, Asked(code, value), n + 2);
      var p0 := Note(p, Asked(code, value));
      ClearTry(p0, Control, Record(EV_DEV, code, value), n + 1);
      assert SendDev(p, code, value) == Try(p0, Control, Record(EV_DEV, code, value)).0;
      ClearLess(SendDev(p, code, value), n + 1, n);
    case Error(status) =>
      ClearNote(p, Reported(status), n + 2);
      ClearTry(Note(p, Reported(status)), Control, Record(EV_VM, VM_ERROR, status), n + 1);
      ClearLess(SendError(p, status), n + 1, n);
  }

  lemma IdealCons(op: Op, ops: seq<Op>, slot: Int32)
    ensures Ideal([op] + ops, slot) ==
            Ideal([op], slot) + Ideal(ops, if op.Event? then op.slot else slot)
  {
    assert ([op] + ops)[1..] == ops;
  }

  lemma {:induction false} ClearRun(p: Port, ops: seq<Op>)
    requires Clear(p, 2 * |ops|)
    ensures var q := Run(p, ops);
            Clear(q, 0) && Accepted(q.log) == Accepted(p.log) + Ideal(ops, p.slot)
    decreases |ops|
  {
    hide Step, Flows, Ideal;
    if ops != [] {
      ClearStep(p, ops[0], 2 * |ops[1..]|);
      ClearRun(Step(p, ops[0]), ops[1..]);
      assert ops == [ops[0]] + ops[1..];
      IdealCons(ops[0], ops[1..], p.slot);
    } else {
      IdealOfNothing(p.slot);
    }
  }

  lemma IdealOfNothing(slot: Int32)
    ensures Ideal([], slot) == []
  {
  }

  /** The server without interference: on a socket that takes everything, every
      run puts exactly the ideal records on the wire, none left out, none told
      twice, none in another order, and nothing stays behind. */
  lemma FlowingRunIsIdeal(script: seq<Outcome>, ops: seq<Op>)
    requires Flows(script, 4 * |ops|)
    ensures var p := Run(Accept(script), ops);
            && Accepted(p.log) == Ideal(ops, INPUTSLOT_INVALID)
            && p.sender.wire == EncodeAll(Ideal(ops, INPUTSLOT_INVALID))
            && p.sender.partial == [] && Clear(p, 0)
  {
    hide Run, Ideal, Clear, Accepted, EncodeAll, EndToEnd.Framed;
    var start := Accept(script);
    AcceptIsClear(script, 2 * |ops|);
    ClearRun(start, ops);
    var p := Run(start, ops);
    EndToEnd.RunFramed(start, ops);
    FramedWire(p);
  }

  lemma AcceptIsClear(script: seq<Outcome>, n: nat)
    requires Flows(script, 2 * n)
    ensures Clear(Accept(script), n) && EndToEnd.Framed(Accept(script))
    ensures forall rs: seq<Record> :: Accepted(Accept(script).log) + rs == rs
  {
  }

  lemma FramedWire(p: Port)
    requires Clear(p, 0) && EndToEnd.Framed(p)
    ensures p.sender.wire == EncodeAll(Accepted(p.log)) && p.sender.partial == []
  {
    assert InFlight(p.sender) == p.sender.wire;
  }

  // ----- The backlog ------------------------------------------------------

  function EntryRecords(d: DevEvent): seq<Record> {
    (if d.remove then [Record(EV_DEV, DEV_RESET, d.slot)] else [])
    + (if d.add then [Record(EV_DEV, DEV_CONF, d.slot)] else [])
  }

  /** The queue is told from its end. */
  function QueueRecords(queue: seq<DevEvent>): seq<Record> {
    if queue == [] then [] else EntryRecords(Last(queue)) + QueueRecords(queue[..|queue| - 1])
  }

  /** What a plugin is still to be told, before any event. */
  function Backlog(p: Port): seq<Record> {
    (if p.error != 0 then [Record(EV_VM, VM_ERROR, p.error)] else [])
    + (if p.resetall then [RESET_ALL] else [])
    + QueueRecords(p.queue)
  }

  /** What it is told of slots and losses before an event of `slot`: a loss on the
      slot it leaves while that is selected, and a loss elsewhere once the new one
      is. */
  function Selection(p: Port, slot: Int32): seq<Record> {
    (if p.dropped then [DROPPED] else [])
    + (if p.slot == slot then [] else [SetSlot(slot)] + if p.slotDropped then [DROPPED] else [])
  }

  lemma FlowingTells(p: Port, origin: Origin, rec: Record, n: nat)
    requires Flowing(p, n + 1)
    ensures var (q, ok) := Try(p, origin, rec);
            ok && Flowing(q, n) && Accepted(q.log) == Accepted(p.log) + [rec]
  {
    FlowingTry(p, origin, rec, n);
    AcceptedSnoc(p.log, Tried(origin, rec, true));
  }

  lemma EntryIsTold(p: Port, n: nat)
    requires p.queue != [] && Flowing(p, n + 2)
    ensures var (q, ok) := FlushLast(p);
            && ok && Flowing(q, n) && q.queue == p.queue[..|p.queue| - 1]
            && Accepted(q.log) == Accepted(p.log) + EntryRecords(Last(p.queue))
  {
    hide Try, Flows, Accepted;
    var d := Last(p.queue);
    if d.remove {
      FlowingTells(p, Control, Record(EV_DEV, DEV_RESET, d.slot), n + 1);
    } else {
      FlowsLess(p, n + 2, n + 1);
    }
    var (q, ok) := FlushReset(p);
    assert ok && Flowing(q, n + 1);
    if d.add {
      FlowingTells(q, Control, Record(EV_DEV, DEV_CONF, d.slot), n);
    } else {
      FlowsLess(q, n + 1, n);
    }
    assert Accepted(p.log) + [] == Accepted(p.log) && Accepted(q.log) + [] == Accepted(q.log);
  }

  lemma {:induction false} QueueIsTold(p: Port, n: nat)
    requires Flowing(p, 2 * |p.queue| + n)
    ensures var (q, ok) := Flush(p);
            ok && Flowing(q, n) && Accepted(q.log) == Accepted(p.log) + QueueRecords(p.queue)
    decreases |p.queue|
  {
    hide FlushLast, Flows, Accepted, EntryRecords;
    if p.queue != [] {
      EntryIsTold(p, 2 * (|p.queue| - 1) + n);
      QueueIsTold(FlushLast(p).0, n);
    } else {
      assert Accepted(p.log) + [] == Accepted(p.log);
    }
  }

  lemma BacklogIsTold(p: Port, n: nat)
    requires Flowing(p, 2 * |p.queue| + 2 + n)
    ensures var (q, ok) := SendPending(p);
            ok && Flowing(q, n) && Accepted(q.log) == Accepted(p.log) + Backlog(p)
  {
    hide Try, Flush, Flows, Accepted, QueueRecords;
    var m := 2 * |p.queue| + n;
    if p.error != 0 {
      FlowingTells(p, Control, Record(EV_VM, VM_ERROR, p.error), m + 1);
    } else {
      FlowsLess(p, m + 2, m + 1);
    }
    TryRefuses(p, Control, Record(EV_VM, VM_ERROR, p.error));
    var (p1, ok1) := SendPendingError(p);
    if p1.resetall {
      FlowingTells(p1, Control, RESET_ALL, m);
    } else {
      FlowsLess(p1, m + 1, m);
    }
    TryRefuses(p1, Control, RESET_ALL);
    var (p2, ok2) := SendPendingResetAll(p1);
    QueueIsTold(p2, n);
    assert Accepted(p.log) + [] == Accepted(p.log) && Accepted(p1.log) + [] == Accepted(p1.log);
  }

  lemma PendingKeepsSlots(p: Port)
    ensures var q := SendPending(p).0;
            q.slot == p.slot && q.dropped == p.dropped && q.slotDropped == p.slotDropped
  {
    hide Transport.SendRecord, Flush;
    var (p1, ok1) := SendPendingError(p);
    FlushKeepsSlots(SendPendingResetAll(p1).0);
  }

  lemma {:induction false} FlushKeepsSlots(p: Port)
    ensures var q := Flush(p).0;
            q.slot == p.slot && q.dropped == p.dropped && q.slotDropped == p.slotDropped
    decreases |p.queue|
  {
    hide Transport.SendRecord;
    if p.queue != [] {
      var (q, ok) := FlushReset(p);
      if ok {
        var (r, ok') := FlushConf(q);
        if ok' {
          FlushKeepsSlots(r);
        }
      }
    }
  }

  lemma AnnounceTells(p: Port, n: nat)
    requires Flowing(p, n + 1)
    ensures var (q, ok) := Announce(p);
            && ok && Flowing(q, n) && !q.dropped && q.slot == p.slot && q.slotDropped == p.slotDropped
            && Accepted(q.log) == Accepted(p.log) + if p.dropped then [DROPPED] else []
  {
    hide Transport.SendRecord, Flows, Accepted;
    if p.dropped {
      FlowingTells(p, Control, DROPPED, n);
    } else {
      FlowsLess(p, n + 1, n);
      assert Accepted(p.log) + [] == Accepted(p.log);
    }
  }

  lemma SelectionIsTold(p: Port, slot: Int32, e: Record)
    requires Flowing(p, 4)
    ensures var q := SendOnSlot(if p.slot != slot then SendSlot(p, slot) else p, slot, e);
            Accepted(q.log) == Accepted(p.log) + Selection(p, slot) + [e]
  {
    hide Transport.SendRecord, Flows, Accepted;
    AnnounceTells(p, 3);
    var p1 := Announce(p).0;
    if p.slot != slot {
      FlowingTells(p1, Control, SetSlot(slot), 2);
      var p2 := SendSlot(p, slot);
      AnnounceTells(p2, 1);
      FlowingTells(Announce(p2).0, Input(slot), e, 0);
      assert p2.dropped == p.slotDropped;
    } else {
      FlowingTells(p1, Input(slot), e, 2);
    }
  }

  /** From any state, an event that meets a socket that takes everything is
      preceded by exactly what is still to be told, in this order: the error, the
      reset-all, the queue from its end, losses and the change of slots. */
  lemma EventTellsTheBacklog(p: Port, slot: Int32, e: Record)
    requires Flowing(p, 2 * |p.queue| + 6)
    ensures Accepted(SendEvent(p, slot, e).log) == Accepted(p.log) + Backlog(p) + Selection(p, slot) + [e]
  {
    hide Try, Flows, Accepted, SendPending, SendSlot, SendOnSlot, Backlog, Selection;
    var p0 := Note(p, Called);
    AcceptedSnoc(p.log, Called);
    assert Accepted(p.log) + [] == Accepted(p.log);
    BacklogIsTold(p0, 4);
    PendingKeepsSlots(p0);
    var p1 := SendPending(p0).0;
    SelectionIsTold(p1, slot, e);
    SameBacklog(p, p0, p1, slot);
  }

  lemma SameBacklog(p: Port, p0: Port, p1: Port, slot: Int32)
    requires p0 == Note(p, Called)
    requires p1.slot == p0.slot && p1.dropped == p0.dropped && p1.slotDropped == p0.slotDropped
    ensures Backlog(p0) == Backlog(p) && Selection(p1, slot) == Selection(p, slot)
  {
  }
}
