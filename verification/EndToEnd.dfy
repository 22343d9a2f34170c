/** From `send_to_plugin` to the plugin's `process_event`: over every run of the
    server, every behaviour of the socket and every split of the stream into
    reads, the plugin handles a prefix of the accepted records. */
module EndToEnd {
  import opened Wire
  import opened Transport
  import opened PluginPort
  import opened Scanner

  ghost predicate FramedSender(s: Sender, accepted: seq<Record>) {
    && |s.partial| < RECORD_SIZE
    && InFlight(s) <= EncodeAll(accepted)
    && (s.open ==> InFlight(s) == EncodeAll(accepted))
  }

  /** Holds between two calls: what is on the wire and in `partialBuffer` is the
      encoding of the accepted records.  A connection that broke may have
      claimed records it never took. */
  ghost predicate Framed(p: Port) {
    FramedSender(p.sender, Accepted(p.log))
  }

  lemma NoteFramed(p: Port, m: Mark)
    requires Framed(p) && !m.Tried?
    ensures Framed(Note(p, m))
  {
    AcceptedSnoc(p.log, m);
    assert Accepted(p.log) + [] == Accepted(p.log);
  }

  lemma SendRecordFramed(s: Sender, accepted: seq<Record>, rec: Record)
    requires FramedSender(s, accepted)
    ensures var (t, ok) := SendRecord(s, Encode(rec));
            FramedSender(t, if ok then accepted + [rec] else accepted)
  {
    SendRecordConserves(s, Encode(rec));
    if !s.open {
      ClosedStaysSilent(s, Encode(rec));
    }
    EncodeAllAppend(accepted, [rec]);
    EncodeAllOne(rec);
  }

  lemma TryFramed(p: Port, origin: Origin, rec: Record)
    requires Framed(p)
    ensures Framed(Try(p, origin, rec).0)
  {
    SendRecordFramed(p.sender, Accepted(p.log), rec);
    AcceptedSnoc(p.log, Tried(origin, rec, SendRecord(p.sender, Encode(rec)).1));
    assert Accepted(p.log) + [] == Accepted(p.log);
  }

  lemma FlushLastFramed(p: Port)
    requires Framed(p) && p.queue != []
    ensures Framed(FlushLast(p).0)
  {
    TryFramed(p, Control, Record(EV_DEV, DEV_RESET, Last(p.queue).slot));
    var (q, ok) := FlushReset(p);
    if ok {
      TryFramed(q, Control, Record(EV_DEV, DEV_CONF, Last(q.queue).slot));
    }
  }

  lemma {:induction false} FlushFramed(p: Port)
    requires Framed(p)
    ensures Framed(Flush(p).0)
    decreases |p.queue|
  {
    if p.queue != [] {
      FlushLastFramed(p);
      var (q, ok) := FlushLast(p);
      if ok {
        FlushFramed(q);
      }
    }
  }

  lemma SendHeadFramed(p: Port, code: UInt16, value: Byte)
    requires Framed(p)
    ensures Framed(SendHead(p, code, value).0)
  {
    FlushFramed(p);
    var (q, ready) := Prepare(p, code, value);
    TryFramed(q, Control, if p.resetall then RESET_ALL else Record(EV_DEV, code, value));
  }

  lemma SendDevFramed(p: Port, code: UInt16, value: Byte)
    requires Framed(p)
    ensures Framed(SendDevBody(p, code, value))
    decreases p.resetall
  {
    SendHeadFramed(p, code, value);
    var (q, ok) := SendHead(p, code, value);
    if ok && p.resetall {
      SendDevFramed(q.(resetall := false), code, value);
    }
  }

  lemma SendPendingFramed(p: Port)
    requires Framed(p)
    ensures Framed(SendPending(p).0)
  {
    TryFramed(p, Control, Record(EV_VM, VM_ERROR, p.error));
    var (p1, ok1) := SendPendingError(p);
    TryFramed(p1, Control, RESET_ALL);
    var (p2, ok2) := SendPendingResetAll(p1);
    FlushFramed(p2);
  }

  lemma SendSlotFramed(p: Port, slot: Int32)
    requires Framed(p)
    ensures Framed(SendSlot(p, slot))
  {
    TryFramed(p, Control, DROPPED);
    var (p1, ok1) := Announce(p);
    TryFramed(p1, Control, SetSlot(slot));
  }

  lemma SendOnSlotFramed(p: Port, slot: Int32, e: Record)
    requires Framed(p)
    ensures Framed(SendOnSlot(p, slot, e))
  {
    TryFramed(p, Control, DROPPED);
    var (p1, ok1) := Announce(p);
    NoteFramed(p1, Lost(slot));
    if ok1 {
      TryFramed(p1, Input(slot), e);
      var (p2, ok2) := Try(p1, Input(slot), e);
      NoteFramed(p2.(dropped := true), Lost(slot));
    }
  }

  lemma SendEventFramed(p: Port, slot: Int32, e: Record)
    requires Framed(p)
    ensures Framed(SendEvent(p, slot, e))
  {
    NoteFramed(p, Called);
    SendPendingFramed(Note(p, Called));
    var (p1, ready) := SendPending(Note(p, Called));
    if !ready {
      var q := if p1.slot != slot then p1.(slotDropped := true) else p1.(dropped := true);
      assert Framed(q);
      NoteFramed(q, Lost(slot));
    } else {
      SendSlotFramed(p1, slot);
      SendOnSlotFramed(if p1.slot != slot then SendSlot(p1, slot) else p1, slot, e);
    }
  }

  /** Every call keeps the framing, whatever the socket does meanwhile. */
  lemma StepFramed(p: Port, op: Op)
    requires Framed(p)
    ensures Framed(Step(p, op))
  {
    match op
    case Event(slot, e) => SendEventFramed(p, slot, e);
    case Dev(code, value) =>
      NoteFramed(p, Asked(code, value));
      SendDevFramed(Note(p, Asked(code, value)), code, value);
    case Error(status) =>
      NoteFramed(p, Reported(status));
      TryFramed(Note(p, Reported(status)), Control, Record(EV_VM, VM_ERROR, status));
  }

  lemma {:induction false} RunFramed(p: Port, ops: seq<Op>)
    requires Framed(p)
    ensures Framed(Run(p, ops))
    decreases |ops|
  {
    if ops != [] {
      StepFramed(p, ops[0]);
      RunFramed(Step(p, ops[0]), ops[1..]);
    }
  }

  /** A plugin that has read the first `n` bytes of the wire, in any chunks,
      has handled exactly the first `n / 12` accepted records. */
  lemma PluginHandlesPrefix(p: Port, n: nat, chunks: seq<seq<Byte>>)
    requires Framed(p) && n <= |p.sender.wire|
    requires Concat(chunks) == p.sender.wire[..n]
    ensures n / RECORD_SIZE <= |Accepted(p.log)|
    ensures FeedAll(Scanned([], []), chunks).records == Accepted(p.log)[..n / RECORD_SIZE]
  {
    var all := EncodeAll(Accepted(p.log));
    assert p.sender.wire <= InFlight(p.sender) <= all;
    assert p.sender.wire[..n] == all[..n];
    ChunkingIndependence([], chunks);
    assert [] + Concat(chunks) == Concat(chunks);
    ScanEncodedPrefix(Accepted(p.log), n);
  }

  /** End to end: for every script of socket outcomes, every run of calls and
      every way the plugin reads what is on the wire, it handles a prefix of
      the accepted records, in order and untorn; and all of them once the wire
      is read, the tail is gone and the connection stands. */
  lemma LinkDeliversPrefix(script: seq<Outcome>, ops: seq<Op>, n: nat, chunks: seq<seq<Byte>>)
    requires n <= |Run(Accept(script), ops).sender.wire|
    requires Concat(chunks) == Run(Accept(script), ops).sender.wire[..n]
    ensures var p := Run(Accept(script), ops);
            var handled := FeedAll(Scanned([], []), chunks).records;
            && handled <= Accepted(p.log)
            && |handled| == n / RECORD_SIZE
            && (p.sender.open && p.sender.partial == [] && n == |p.sender.wire| ==> handled == Accepted(p.log))
  {
    var p := Run(Accept(script), ops);
    assert Framed(Accept(script));
    RunFramed(Accept(script), ops);
    PluginHandlesPrefix(p, n, chunks);
    if p.sender.open && p.sender.partial == [] && n == |p.sender.wire| {
      assert InFlight(p.sender) == p.sender.wire;
    }
  }
}
