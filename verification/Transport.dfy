/** The sending end: whole records pushed through a non-blocking socket that
    may take any part of what it is offered.  The socket's behaviour is a
    script of outcomes, one per `send` call, so that a claim about every script
    is a claim about every pattern of short writes and failures. */
module Transport {
  import opened Wire

  /** What one `send` call does: takes some bytes, or fails with `EAGAIN`,
      with `EINTR`, or with an error that ends the connection. */
  datatype Outcome = Took(n: nat) | Blocked | Interrupted | Fatal

  /** What the caller of `send` sees once `EINTR` has been retried. */
  datatype Reply = Sent(n: nat) | WouldBlock | Broken

  /** The socket and the two fields of `struct sock_plugin` that belong to it:
      `partial` is `partialBuffer[..delayed]`, `open` is `s != -1`. */
  datatype Sender = Sender(script: seq<Outcome>, wire: seq<Byte>, open: bool, partial: seq<Byte>)

  /** Every byte handed to the socket or waiting for it, in order. */
  function InFlight(s: Sender): seq<Byte> {
    s.wire + s.partial
  }

  function Clamp(n: nat, size: nat): (m: nat)
    requires size > 0
    ensures 0 < m <= size
  {
    if n == 0 then 1 else if n > size then size else n
  }

  /** One offer of `size` bytes: interruptions are retried, and a closed
      descriptor fails at once.  A script that has run out blocks. */
  function Offer(script: seq<Outcome>, open: bool, size: nat): (r: (Reply, seq<Outcome>))
    requires size > 0
    ensures r.0.Sent? ==> open && 0 < r.0.n <= size
    ensures r.0.Broken? || open
    ensures |r.1| <= |script| && (r.0.Sent? ==> |r.1| < |script|)
  {
    if !open then (Broken, script)
    else if script == [] then (WouldBlock, [])
    else match script[0]
      case Took(n) => (Sent(Clamp(n, size)), script[1..])
      case Blocked => (WouldBlock, script[1..])
      case Fatal => (Broken, script[1..])
      case Interrupted => Offer(script[1..], open, size)
  }

  /** `send_delayed_to_plugin`: pushes the tail of a short write until it is
      gone or the socket stops taking bytes. */
  function SendDelayed(s: Sender): (r: (Sender, bool))
    requires s.partial != []
    ensures r.1 ==> r.0.partial == []
    ensures |r.0.partial| <= |s.partial|
    decreases |s.script|
  {
    var (reply, script) := Offer(s.script, s.open, |s.partial|);
    match reply
    case Sent(n) =>
      var t := Sender(script, s.wire + s.partial[..n], s.open, s.partial[n..]);
      if t.partial == [] then (t, true) else SendDelayed(t)
    case WouldBlock => (s.(script := script), false)
    case Broken => (s.(script := script, open := false), false)
  }

  /** `send_to_plugin`: the waiting tail first, then the record; what the
      socket does not take of the record becomes the new tail. */
  function SendRecord(s: Sender, bytes: seq<Byte>): (r: (Sender, bool))
    requires bytes != []
    ensures |r.0.partial| <= |s.partial| || |r.0.partial| < |bytes|
  {
    if s.partial == [] then SendNow(s, bytes)
    else
      var (t, ok) := SendDelayed(s);
      if ok then SendNow(t, bytes) else (t, false)
  }

  function SendNow(s: Sender, bytes: seq<Byte>): (r: (Sender, bool))
    requires s.partial == [] && bytes != []
    ensures |r.0.partial| < |bytes|
  {
    var (reply, script) := Offer(s.script, s.open, |bytes|);
    match reply
    case Sent(n) =>
      var t := Sender(script, s.wire + bytes[..n], s.open, bytes[n..]);
      (if t.partial == [] then t else SendDelayed(t).0, true)
    case WouldBlock => (s.(script := script), false)
    case Broken => (s.(script := script, open := false), true)
  }

  // ----- What is conserved ------------------------------------------------

  lemma {:induction false} SendDelayedConserves(s: Sender)
    requires s.partial != []
    ensures var t := SendDelayed(s).0;
            InFlight(t) == InFlight(s) && s.wire <= t.wire && (t.open ==> s.open)
    decreases |s.script|
  {
    var (reply, script) := Offer(s.script, s.open, |s.partial|);
    if reply.Sent? {
      var t := Sender(script, s.wire + s.partial[..reply.n], s.open, s.partial[reply.n..]);
      assert InFlight(t) == InFlight(s);
      if t.partial != [] {
        SendDelayedConserves(t);
      }
    }
  }

  lemma SendNowConserves(s: Sender, bytes: seq<Byte>)
    requires s.partial == [] && bytes != []
    ensures var (t, ok) := SendNow(s, bytes);
            && s.wire <= t.wire && (t.open ==> s.open)
            && (!ok ==> InFlight(t) == InFlight(s))
            && (ok ==> InFlight(t) == InFlight(s) + bytes || (!t.open && InFlight(t) == InFlight(s)))
  {
    var (reply, script) := Offer(s.script, s.open, |bytes|);
    if reply.Sent? {
      var t := Sender(script, s.wire + bytes[..reply.n], s.open, bytes[reply.n..]);
      assert InFlight(t) == InFlight(s) + bytes;
      if t.partial != [] {
        SendDelayedConserves(t);
      }
    }
  }

  /** A refused record leaves no byte behind, an accepted one leaves all of
      them, in order, behind what was there; only a connection that breaks on
      the first byte of a record can claim it without taking it. */
  lemma SendRecordConserves(s: Sender, bytes: seq<Byte>)
    requires bytes != []
    ensures var (t, ok) := SendRecord(s, bytes);
            && s.wire <= t.wire && (t.open ==> s.open)
            && (!ok ==> InFlight(t) == InFlight(s))
            && (ok ==> InFlight(t) == InFlight(s) + bytes || (!t.open && InFlight(t) == InFlight(s)))
  {
    if s.partial == [] {
      SendNowConserves(s, bytes);
    } else {
      SendDelayedConserves(s);
      var (t, ok) := SendDelayed(s);
      if ok {
        SendNowConserves(t, bytes);
      }
    }
  }

  /** A closed connection moves nothing any more. */
  lemma ClosedStaysSilent(s: Sender, bytes: seq<Byte>)
    requires bytes != [] && !s.open
    ensures var t := SendRecord(s, bytes).0;
            !t.open && t.wire == s.wire && t.partial == s.partial
  {
  }

  // ----- When records are refused ----------------------------------------

  /** Whether the script blocks before it has taken `size` bytes and then the
      first byte of something more. */
  predicate Refuses(script: seq<Outcome>, size: nat) {
    if script == [] then true
    else match script[0]
      case Took(n) => size > 0 && Refuses(script[1..], size - Clamp(n, size))
      case Blocked => true
      case Fatal => false
      case Interrupted => Refuses(script[1..], size)
  }

  lemma {:induction false} OfferRefused(script: seq<Outcome>, size: nat)
    requires size > 0
    ensures Refuses(script, 0) <==> Offer(script, true, size).0.WouldBlock?
    ensures var (reply, rest) := Offer(script, true, size);
            match reply
            case Sent(n) => Refuses(script, size) == Refuses(rest, size - n)
            case WouldBlock => Refuses(script, size)
            case Broken => !Refuses(script, size)
    decreases |script|
  {
    if script != [] && script[0].Interrupted? {
      OfferRefused(script[1..], size);
    }
  }

  lemma {:induction false} SendDelayedRefused(s: Sender)
    requires s.partial != [] && s.open
    ensures var (t, ok) := SendDelayed(s);
            if ok then t.open && Refuses(s.script, |s.partial|) == Refuses(t.script, 0)
            else t.open == Refuses(s.script, |s.partial|)
    decreases |s.script|
  {
    OfferRefused(s.script, |s.partial|);
    var (reply, script) := Offer(s.script, s.open, |s.partial|);
    if reply.Sent? {
      var t := Sender(script, s.wire + s.partial[..reply.n], s.open, s.partial[reply.n..]);
      if t.partial != [] {
        SendDelayedRefused(t);
      }
    }
  }

  /** A record is refused exactly when the socket blocks before it has taken
      the whole waiting tail and one byte of the record itself. */
  lemma RefusedExactly(s: Sender, bytes: seq<Byte>)
    requires bytes != [] && s.open
    ensures var (t, ok) := SendRecord(s, bytes);
            !ok && t.open <==> Refuses(s.script, |s.partial|)
  {
    if s.partial == [] {
      OfferRefused(s.script, |bytes|);
    } else {
      SendDelayedRefused(s);
      var (t, ok) := SendDelayed(s);
      if ok {
        OfferRefused(t.script, |bytes|);
      }
    }
  }

  // ----- When records are accepted ---------------------------------------

  /** Whether the script takes `size` bytes and then does not block at once. */
  predicate Passes(script: seq<Outcome>, size: nat) {
    if script == [] then false
    else match script[0]
      case Took(n) => size == 0 || Passes(script[1..], size - Clamp(n, size))
      case Blocked => false
      case Fatal => size == 0
      case Interrupted => Passes(script[1..], size)
  }

  lemma {:induction false} OfferPasses(script: seq<Outcome>, size: nat)
    requires size > 0
    ensures Passes(script, 0) <==> !Offer(script, true, size).0.WouldBlock?
    ensures var (reply, rest) := Offer(script, true, size);
            Passes(script, size) <==> reply.Sent? && Passes(rest, size - reply.n)
    decreases |script|
  {
    if script != [] && script[0].Interrupted? {
      OfferPasses(script[1..], size);
    }
  }

  lemma {:induction false} SendDelayedPasses(s: Sender)
    requires s.partial != [] && s.open
    ensures var (t, ok) := SendDelayed(s);
            && (ok ==> t.open)
            && (Passes(s.script, |s.partial|) <==> ok && Passes(t.script, 0))
    decreases |s.script|
  {
    OfferPasses(s.script, |s.partial|);
    var (reply, script) := Offer(s.script, s.open, |s.partial|);
    if reply.Sent? {
      var t := Sender(script, s.wire + s.partial[..reply.n], s.open, s.partial[reply.n..]);
      if t.partial != [] {
        SendDelayedPasses(t);
      }
    }
  }

  /** A record is accepted exactly when the socket takes the whole waiting tail
      and then does anything but block: also when it breaks on the first byte of
      the record. */
  lemma AcceptedExactly(s: Sender, bytes: seq<Byte>)
    requires bytes != [] && s.open
    ensures SendRecord(s, bytes).1 <==> Passes(s.script, |s.partial|)
  {
    if s.partial == [] {
      OfferPasses(s.script, |bytes|);
    } else {
      SendDelayedPasses(s);
      var (t, ok) := SendDelayed(s);
      if ok {
        OfferPasses(t.script, |bytes|);
      }
    }
  }

  // ----- How far the bytes get -------------------------------------------

  /** `after` is what is left of a script when some outcomes have been used. */
  predicate Later(before: seq<Outcome>, after: seq<Outcome>) {
    after == before || (before != [] && Later(before[1..], after))
  }

  /** It is, and the last outcome used was a block; a script that has run out
      blocks. */
  predicate LastBlocked(before: seq<Outcome>, after: seq<Outcome>) {
    if before == [] then after == []
    else (before[0].Blocked? && after == before[1..]) || LastBlocked(before[1..], after)
  }

  lemma {:induction false} LaterAgain(a: seq<Outcome>, b: seq<Outcome>, c: seq<Outcome>)
    requires Later(a, b)
    ensures Later(b, c) ==> Later(a, c)
    ensures LastBlocked(b, c) ==> LastBlocked(a, c)
  {
    if a != b {
      LaterAgain(a[1..], b, c);
    }
  }

  lemma {:induction false} OfferUses(script: seq<Outcome>, open: bool, size: nat)
    requires size > 0
    ensures var (reply, rest) := Offer(script, open, size);
            Later(script, rest) && (reply.WouldBlock? ==> LastBlocked(script, rest))
    decreases |script|
  {
    if open && script != [] {
      assert Later(script[1..], script[1..]);
      if script[0].Interrupted? {
        OfferUses(script[1..], open, size);
      }
    }
  }

  lemma {:induction false} SendDelayedUntilBlocked(s: Sender)
    requires s.partial != []
    ensures var (t, ok) := SendDelayed(s);
            Later(s.script, t.script) && (!ok && t.open ==> LastBlocked(s.script, t.script))
    decreases |s.script|
  {
    OfferUses(s.script, s.open, |s.partial|);
    var (reply, script) := Offer(s.script, s.open, |s.partial|);
    if reply.Sent? && s.partial[reply.n..] != [] {
      var u := Sender(script, s.wire + s.partial[..reply.n], s.open, s.partial[reply.n..]);
      SendDelayedUntilBlocked(u);
      LaterAgain(s.script, script, SendDelayed(u).0.script);
    }
  }

  lemma SendNowUntilBlocked(s: Sender, bytes: seq<Byte>)
    requires s.partial == [] && bytes != []
    ensures var (t, ok) := SendNow(s, bytes);
            Later(s.script, t.script) && (t.open && (t.partial != [] || !ok) ==> LastBlocked(s.script, t.script))
  {
    hide Offer, Later, LastBlocked;
    OfferUses(s.script, s.open, |bytes|);
    var (reply, script) := Offer(s.script, s.open, |bytes|);
    if reply.Sent? && bytes[reply.n..] != [] {
      var u := Sender(script, s.wire + bytes[..reply.n], s.open, bytes[reply.n..]);
      SendDelayedUntilBlocked(u);
      LaterAgain(s.script, script, SendDelayed(u).0.script);
    }
  }

  /** Only a block holds bytes back: when a call leaves a tail, or refuses its
      record, on a standing connection, the last thing the socket did was to
      block. */
  lemma OnlyABlockHoldsBack(s: Sender, bytes: seq<Byte>)
    requires bytes != []
    ensures var (t, ok) := SendRecord(s, bytes);
            Later(s.script, t.script) && (t.open && (t.partial != [] || !ok) ==> LastBlocked(s.script, t.script))
  {
    hide SendDelayed, SendNow, Later, LastBlocked;
    if s.partial == [] {
      SendNowUntilBlocked(s, bytes);
    } else {
      SendDelayedUntilBlocked(s);
      var (t, ok) := SendDelayed(s);
      if ok {
        SendNowUntilBlocked(t, bytes);
        LaterAgain(s.script, t.script, SendNow(t, bytes).0.script);
      }
    }
  }

  /** A socket that takes what it is given, at least for the next `n` calls. */
  predicate Flows(script: seq<Outcome>, n: nat) {
    n <= |script| && forall i | 0 <= i < |script| :: script[i] == Took(RECORD_SIZE)
  }

  lemma FlowingAccepts(s: Sender, bytes: seq<Byte>, n: nat)
    requires s.open && |bytes| == RECORD_SIZE && |s.partial| < RECORD_SIZE
    requires Flows(s.script, n + 2)
    ensures var (t, ok) := SendRecord(s, bytes);
            ok && t.open && t.partial == [] && Flows(t.script, n)
  {
  }

  // ----- The socket and the two methods ----------------------------------

  class Socket {
    var script: seq<Outcome>
    var wire: seq<Byte>
    var open: bool

    constructor (script: seq<Outcome>)
      ensures this.script == script && wire == [] && open
    {
      this.script, wire, open := script, [], true;
    }

    /** `send` on a non-blocking descriptor, one call. */
    method Send(bytes: seq<Byte>) returns (o: Outcome)
      requires bytes != []
      modifies this`script, this`wire
      ensures !open ==> o == Fatal && script == old(script) && wire == old(wire)
      ensures open && old(script) == [] ==> o == Blocked && script == [] && wire == old(wire)
      ensures open && old(script) != [] ==> script == old(script)[1..]
      ensures open && old(script) != [] && old(script)[0].Took? ==>
                o == Took(Clamp(old(script)[0].n, |bytes|)) && wire == old(wire) + bytes[..o.n]
      ensures open && old(script) != [] && !old(script)[0].Took? ==>
                o == old(script)[0] && wire == old(wire)
    {
      if !open {
        o := Fatal;
      } else if script == [] {
        o := Blocked;
      } else {
        o := script[0];
        script := script[1..];
        if o.Took? {
          o := Took(Clamp(o.n, |bytes|));
          wire := wire + bytes[..o.n];
        }
      }
    }

    /** The loop around `send` that retries `EINTR`. */
    method SendRetrying(bytes: seq<Byte>) returns (r: Reply)
      requires bytes != []
      modifies this`script, this`wire
      ensures (r, script) == Offer(old(script), open, |bytes|)
      ensures wire == old(wire) + (if r.Sent? then bytes[..r.n] else [])
    {
      var o := Send(bytes);
      while o.Interrupted?
        invariant open == old(open) && (o.Interrupted? ==> open)
        invariant o.Interrupted? ==> Offer(script, open, |bytes|) == Offer(old(script), open, |bytes|)
        invariant o.Interrupted? ==> wire == old(wire)
        invariant o.Took? ==> 0 < o.n <= |bytes| && (Reply.Sent(o.n), script) == Offer(old(script), open, |bytes|)
        invariant o.Took? ==> wire == old(wire) + bytes[..o.n]
        invariant o.Blocked? ==> (WouldBlock, script) == Offer(old(script), open, |bytes|) && wire == old(wire)
        invariant o.Fatal? ==> (Broken, script) == Offer(old(script), open, |bytes|) && wire == old(wire)
        decreases |script| + if o.Interrupted? then 1 else 0
      {
        o := Send(bytes);
      }
      r := match o
        case Took(n) => Reply.Sent(n)
        case Blocked => WouldBlock
        case Fatal => Broken;
    }
  }

  /** `s`, `delayed` and `partialBuffer` of `struct sock_plugin`. */
  class PartialSender {
    const socket: Socket
    const partialBuffer: array<Byte>
    var delayed: nat

    predicate Valid()
      reads this
    {
      partialBuffer.Length == RECORD_SIZE && delayed < RECORD_SIZE
    }

    function State(): Sender
      requires Valid()
      reads this, socket, partialBuffer
    {
      Sender(socket.script, socket.wire, socket.open, partialBuffer[..delayed])
    }

    constructor (socket: Socket)
      ensures Valid() && this.socket == socket && fresh(partialBuffer) && delayed == 0
      ensures State() == Sender(socket.script, socket.wire, socket.open, [])
    {
      this.socket := socket;
      partialBuffer := new Byte[RECORD_SIZE](_ => 0);
      delayed := 0;
    }

    /** `send_delayed_to_plugin`. */
    method SendDelayedToPlugin() returns (ok: bool)
      requires Valid() && delayed > 0
      modifies this`delayed, socket, partialBuffer
      ensures Valid()
      ensures (State(), ok) == SendDelayed(old(State()))
    {
      ghost var target := SendDelayed(State());
      while true
        invariant Valid() && delayed > 0
        invariant SendDelayed(State()) == target
        decreases |socket.script|
      {
        ghost var before := State();
        var r := socket.SendRetrying(partialBuffer[..delayed]);
        assert partialBuffer[..delayed] == before.partial;
        match r
        case Sent(n) =>
          delayed := delayed - n;
          forall i | 0 <= i < delayed {
            partialBuffer[i] := partialBuffer[i + n];
          }
          assert partialBuffer[..delayed] == before.partial[n..];
          if delayed == 0 {
            return true;
          }
        case WouldBlock =>
          assert State() == before.(script := socket.script);
          return false;
        case Broken =>
          socket.open := false;
          assert State() == before.(script := socket.script, open := false);
          return false;
      }
    }

    /** `send_to_plugin`. */
    method SendToPlugin(r: Record) returns (ok: bool)
      requires Valid()
      modifies this`delayed, socket, partialBuffer
      ensures Valid()
      ensures (State(), ok) == SendRecord(old(State()), Encode(r))
    {
      var e := Encode(r);
      if delayed > 0 {
        ok := SendDelayedToPlugin();
        if !ok {
          return;
        }
      }
      ghost var before := State();
      assert before.partial == [];
      var reply := socket.SendRetrying(e);
      match reply
      case WouldBlock =>
        assert State() == before.(script := socket.script);
        ok := false;
      case Broken =>
        socket.open := false;
        assert State() == before.(script := socket.script, open := false);
        ok := true;
      case Sent(n) =>
        if n < RECORD_SIZE {
          delayed := RECORD_SIZE - n;
          forall i | 0 <= i < delayed {
            partialBuffer[i] := e[n + i];
          }
          assert State() == Sender(socket.script, before.wire + e[..n], socket.open, e[n..]);
          var _ := SendDelayedToPlugin();
        }
        ok := true;
    }
  }
}
