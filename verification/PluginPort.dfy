/** What the server keeps for a plugin, and the operations that talk to it
    (`socket.c`), as functions on values.  `SockPlugin.dfy` holds the class
    whose methods are proved to compute them. */
module PluginPort {
  import opened Wire
  import opened Transport

  const EV_SYN: UInt16 := 0x0
  const EV_DEV: UInt16 := 0x6
  const EV_VM: UInt16 := 0x7
  const SYN_DROPPED: UInt16 := 0x3
  const DEV_SET: UInt16 := 0x1
  const DEV_CONF: UInt16 := 0x2
  const DEV_RESET: UInt16 := 0x3
  const VM_ERROR: UInt16 := 0x3
  const ALL_SLOTS: Byte := 0xFF
  const INPUTSLOT_INVALID := -2

  type Int32 = x: int | -0x8000_0000 <= x < 0x8000_0000

  function ToInt32(v: UInt32): Int32 {
    if v < 0x8000_0000 then v else v - 0x1_0000_0000
  }

  /** `struct dev_event`: what is still to be told about one slot. */
  datatype DevEvent = DevEvent(slot: Byte, remove: bool, add: bool)

  /** Whether a record is the server's own or an input event of some slot. */
  datatype Origin = Control | Input(slot: Int32)

  /** One line of the history of a port.  `Called` opens a call of
      `send_plugin_event`, `Asked` one of `send_plugin_dev_event`, `Reported`
      one of `send_error`, `Tried` is a
      call of `send_to_plugin` with its result, and `Lost` closes a
      `send_plugin_event` whose event was not accepted. */
  datatype Mark =
    | Called
    | Asked(code: UInt16, value: Byte)
    | Reported(status: UInt32)
    | Tried(origin: Origin, rec: Record, ok: bool)
    | Lost(slot: Int32)

  /** `struct sock_plugin`, sending side, with the history so far. */
  datatype Port = Port(
    sender: Sender,
    slot: Int32,
    dropped: bool,
    slotDropped: bool,
    error: UInt32,
    resetall: bool,
    queue: seq<DevEvent>,
    log: seq<Mark>)

  const RESET_ALL := Record(EV_DEV, DEV_RESET, ALL_SLOTS)
  const DROPPED := Record(EV_SYN, SYN_DROPPED, 0)

  function SetSlot(slot: Int32): Record {
    Record(EV_DEV, DEV_SET, ToUInt32(slot))
  }

  /** A port as `server_accept` leaves it. */
  function Accept(script: seq<Outcome>): Port {
    Port(Sender(script, [], true, []), INPUTSLOT_INVALID, false, false, 0, false, [], [])
  }

  function Note(p: Port, m: Mark): Port {
    p.(log := p.log + [m])
  }

  /** `send_to_plugin` on the port. */
  function Try(p: Port, origin: Origin, rec: Record): (Port, bool) {
    var (sender, ok) := SendRecord(p.sender, Encode(rec));
    (Note(p.(sender := sender), Tried(origin, rec, ok)), ok)
  }

  // ----- Device events ----------------------------------------------------

  /** The first entry of a slot, or the length of the queue. */
  function Find(queue: seq<DevEvent>, slot: Byte): (i: nat)
    ensures i <= |queue|
    ensures i < |queue| ==> queue[i].slot == slot
    ensures forall k | 0 <= k < i :: queue[k].slot != slot
  {
    if queue == [] || queue[0].slot == slot then 0 else 1 + Find(queue[1..], slot)
  }

  /** `add_queue_dev_event_conf`. */
  function QueueConf(queue: seq<DevEvent>, slot: Byte): seq<DevEvent> {
    var i := Find(queue, slot);
    if i < |queue| then queue[i := queue[i].(add := true)]
    else queue + [DevEvent(slot, false, true)]
  }

  /** `add_queue_dev_event_reset` for one slot. */
  function QueueReset(queue: seq<DevEvent>, slot: Byte): seq<DevEvent> {
    var i := Find(queue, slot);
    if i == |queue| then queue + [DevEvent(slot, true, false)]
    else if queue[i].add then queue[i := queue[i].(add := false)]
    else queue[i := queue[i].(remove := true)]
  }

  function Enqueue(p: Port, code: UInt16, value: Byte): Port {
    if code == DEV_CONF then p.(queue := QueueConf(p.queue, value))
    else if code == DEV_RESET then
      if value == ALL_SLOTS then p.(resetall := true) else p.(queue := QueueReset(p.queue, value))
    else p
  }

  function Last(queue: seq<DevEvent>): DevEvent
    requires queue != []
  {
    queue[|queue| - 1]
  }

  /** The first half of the loop body of `flush_queued_dev_events`: the reset
      that the last entry owes; its flag is cleared once that is accepted. */
  function FlushReset(p: Port): (r: (Port, bool))
    requires p.queue != []
    ensures |r.0.queue| == |p.queue|
  {
    if !Last(p.queue).remove then (p, true)
    else
      var (q, ok) := Try(p, Control, Record(EV_DEV, DEV_RESET, Last(p.queue).slot));
      var last := |p.queue| - 1;
      (if ok then q.(queue := p.queue[last := p.queue[last].(remove := false)]) else q, ok)
  }

  /** The second half: the configuration that it owes, and then the entry goes. */
  function FlushConf(p: Port): (r: (Port, bool))
    requires p.queue != []
    ensures |r.0.queue| == |p.queue| - if r.1 then 1 else 0
  {
    var (q, ok) :=
      if Last(p.queue).add then Try(p, Control, Record(EV_DEV, DEV_CONF, Last(p.queue).slot)) else (p, true);
    (if ok then q.(queue := p.queue[..|p.queue| - 1]) else q, ok)
  }

  function FlushLast(p: Port): (r: (Port, bool))
    requires p.queue != []
    ensures |r.0.queue| == |p.queue| - if r.1 then 1 else 0
  {
    var (q, ok) := FlushReset(p);
    if ok then FlushConf(q) else (q, false)
  }

  /** `flush_queued_dev_events`, from the last entry to the first. */
  function Flush(p: Port): (r: (Port, bool))
    ensures r.1 ==> r.0.queue == []
    decreases |p.queue|
  {
    if p.queue == [] then (p, true)
    else
      var (q, ok) := FlushLast(p);
      if ok then Flush(q) else (q, false)
  }

  /** What `send_plugin_dev_event` does with the queue before it sends: a
      reset-all makes the queue pointless, anything else waits behind it. */
  function Prepare(p: Port, code: UInt16, value: Byte): (Port, bool) {
    if code == DEV_RESET && value == ALL_SLOTS then (p.(queue := []), true) else Flush(p)
  }

  /** The one record `send_plugin_dev_event` sends behind the queue: what it
      was asked to send, or the reset-all that is still pending. */
  function SendHead(p: Port, code: UInt16, value: Byte): (Port, bool) {
    var (q, ready) := Prepare(p, code, value);
    if ready then Try(q, Control, if p.resetall then RESET_ALL else Record(EV_DEV, code, value))
    else (q, false)
  }

  /** `send_plugin_dev_event` without its history mark.  With a reset-all
      pending the reset-all goes first and the call starts over. */
  function SendDevBody(p: Port, code: UInt16, value: Byte): Port
    decreases p.resetall
  {
    var (q, ok) := SendHead(p, code, value);
    if !ok then Enqueue(q, code, value)
    else if p.resetall then SendDevBody(q.(resetall := false), code, value)
    else q
  }

  /** `send_plugin_dev_event`. */
  function SendDev(p: Port, code: UInt16, value: Byte): Port {
    SendDevBody(Note(p, Asked(code, value)), code, value)
  }

  // ----- Input events -----------------------------------------------------

  /** The pending error, as `send_plugin_event` sends it. */
  function SendPendingError(p: Port): (Port, bool) {
    if p.error == 0 then (p, true)
    else
      var (q, ok) := Try(p, Control, Record(EV_VM, VM_ERROR, p.error));
      (if ok then q.(error := 0) else q, ok)
  }

  function SendPendingResetAll(p: Port): (Port, bool) {
    if !p.resetall then (p, true)
    else
      var (q, ok) := Try(p, Control, RESET_ALL);
      (if ok then q.(resetall := false) else q, ok)
  }

  /** Everything `send_plugin_event` sends before it looks at the slot. */
  function SendPending(p: Port): (Port, bool) {
    var (p1, ok1) := SendPendingError(p);
    if !ok1 then (p1, false)
    else
      var (p2, ok2) := SendPendingResetAll(p1);
      if ok2 then Flush(p2) else (p2, false)
  }

  /** Sends `SYN_DROPPED` if a loss on the current slot is to be told. */
  function Announce(p: Port): (Port, bool) {
    if !p.dropped then (p, true)
    else
      var (q, ok) := Try(p, Control, DROPPED);
      (q.(dropped := !ok), ok)
  }

  /** `send_slot`. */
  function SendSlot(p: Port, slot: Int32): Port {
    var (p1, ok1) := Announce(p);
    if !ok1 then p1.(slotDropped := true)
    else
      var (p2, ok2) := Try(p1, Control, SetSlot(slot));
      if ok2 then p2.(slot := slot, dropped := p2.slotDropped, slotDropped := false)
      else p2.(slotDropped := true)
  }

  /** The second half of `send_plugin_event`. */
  function SendOnSlot(p: Port, slot: Int32, e: Record): Port {
    var (p1, ok1) := Announce(p);
    if !ok1 then Note(p1, Lost(slot))
    else
      var (p2, ok2) := Try(p1, Input(slot), e);
      if ok2 then p2 else Note(p2.(dropped := true), Lost(slot))
  }

  /** `send_plugin_event`. */
  function SendEvent(p: Port, slot: Int32, e: Record): Port {
    var (p1, ready) := SendPending(Note(p, Called));
    if !ready then
      Note(if p1.slot != slot then p1.(slotDropped := true) else p1.(dropped := true), Lost(slot))
    else
      SendOnSlot(if p1.slot != slot then SendSlot(p1, slot) else p1, slot, e)
  }

  /** `send_error`, with the value already packed. */
  function SendError(p: Port, value: UInt32): Port {
    var (q, ok) := Try(Note(p, Reported(value)), Control, Record(EV_VM, VM_ERROR, value));
    if !ok && q.error == 0 then q.(error := value) else q
  }

  // ----- Runs -------------------------------------------------------------

  /** The calls that other parts of the server make on a port. */
  datatype Op = Event(slot: Int32, e: Record) | Dev(code: UInt16, value: Byte) | Error(status: UInt32)

  function Step(p: Port, op: Op): Port {
    match op
    case Event(slot, e) => SendEvent(p, slot, e)
    case Dev(code, value) => SendDev(p, code, value)
    case Error(value) => SendError(p, value)
  }

  function Run(p: Port, ops: seq<Op>): Port
    decreases |ops|
  {
    if ops == [] then p else Run(Step(p, ops[0]), ops[1..])
  }

  // ----- Readings of the history -----------------------------------------

  /** The records `send_to_plugin` accepted, in order. */
  function Accepted(log: seq<Mark>): seq<Record> {
    if log == [] then []
    else
      var m := log[|log| - 1];
      Accepted(log[..|log| - 1]) + if m.Tried? && m.ok then [m.rec] else []
  }

  /** What a plugin that obeys the accepted control records believes. */
  datatype Heard = Heard(current: Int32, devices: set<Byte>)

  function Hear(h: Heard, m: Mark): Heard {
    if !(m.Tried? && m.ok && m.origin.Control? && m.rec.itype == EV_DEV) then h
    else if m.rec.icode == DEV_SET then h.(current := ToInt32(m.rec.ivalue))
    else if m.rec.ivalue > 0xFF then h
    else h.(devices := Apply(h.devices, m.rec.icode, m.rec.ivalue))
  }

  /** The effect of one device event on a set of configured slots. */
  function Apply(devices: set<Byte>, code: UInt16, value: Byte): set<Byte> {
    if code == DEV_CONF then devices + {value}
    else if code == DEV_RESET then if value == ALL_SLOTS then {} else devices - {value}
    else devices
  }

  function HeardFrom(log: seq<Mark>): Heard {
    if log == [] then Heard(INPUTSLOT_INVALID, {})
    else Hear(HeardFrom(log[..|log| - 1]), log[|log| - 1])
  }

  /** The configured slots, had every device event been delivered at once. */
  function Wanted(log: seq<Mark>): set<Byte> {
    if log == [] then {}
    else
      var m := log[|log| - 1];
      var before := Wanted(log[..|log| - 1]);
      if m.Asked? then Apply(before, m.code, m.value) else before
  }

  lemma AcceptedSnoc(log: seq<Mark>, m: Mark)
    ensures Accepted(log + [m]) == Accepted(log) + if m.Tried? && m.ok then [m.rec] else []
  {
    assert (log + [m])[..|log|] == log;
  }

  lemma HeardSnoc(log: seq<Mark>, m: Mark)
    ensures HeardFrom(log + [m]) == Hear(HeardFrom(log), m)
  {
    assert (log + [m])[..|log|] == log;
  }

  lemma WantedSnoc(log: seq<Mark>, m: Mark)
    ensures Wanted(log + [m]) == if m.Asked? then Apply(Wanted(log), m.code, m.value) else Wanted(log)
  {
    assert (log + [m])[..|log|] == log;
  }
}
