/** What a finger does between touching the pad and leaving it, told from the
    raw packets, and what gestures make of it. */
module TouchpadContacts {
  import opened TouchpadTypes
  import G = Gestures

  /** A packet that is not within the limits of a tap that began at (x, y). */
  predicate Strays(pk: Packet, x: int, y: int, tl: Limits) {
    || (pk.x != tl.noX && !(-tl.tapMove < pk.x - x < tl.tapMove))
    || (pk.y != tl.noY && !(-tl.tapMove < pk.y - y < tl.tapMove))
  }

  predicate AnyStrays(on: seq<Packet>, x: int, y: int, tl: Limits) {
    exists i | 0 <= i < |on| :: Strays(on[i], x, y, tl)
  }

  /** A tap that begins at height y may click: not on the buttons of a
      clickpad. */
  predicate MayClick(y: int, tl: Limits) {
    tl.tapToClick && (!tl.isClickpad || y <= tl.bottomEdge)
  }

  function Arrivals(on: seq<Packet>, tl: Limits): seq<G.Op> {
    if on == [] then [] else [G.Arrive(on[0], tl)] + Arrivals(on[1..], tl)
  }

  /** One contact: the finger lands, stays, and leaves. */
  function Contact(land: Packet, on: seq<Packet>, leave: Packet, tl: Limits): seq<G.Op> {
    [G.Arrive(land, tl)] + (Arrivals(on, tl) + [G.Arrive(leave, tl)])
  }

  predicate AreOn(on: seq<Packet>) {
    forall i | 0 <= i < |on| :: on[i].finger
  }

  lemma {:induction false} RunAppend(p: G.Pad, a: seq<G.Op>, b: seq<G.Op>)
    ensures G.Run(p, a + b) == G.Run(G.Run(p, a), b)
    decreases |a|
  {
    hide G.Step;
    if a == [] {
      assert a + b == b;
    } else {
      assert (a + b)[1..] == a[1..] + b;
      RunAppend(G.Step(p, a[0]), a[1..], b);
    }
  }

  lemma RunOne(p: G.Pad, op: G.Op)
    ensures G.Run(p, [op]) == G.Step(p, op)
  {
    hide G.Step;
    assert [op][1..] == [];
    assert G.Run(G.Step(p, op), []) == G.Step(p, op);
  }

  /** Where the switch of states goes when the finger has strayed. */
  function Astray(t: G.TapState): G.TapState {
    match t
    case Touching => G.Moving
    case PossibleDrag => G.Drag
    case _ => t
  }

  /** The finger is on the pad since it landed at (x, y). */
  predicate On(p: G.Pad, x: int, y: int, bottom: bool) {
    && !p.off && p.lastFinger && G.FingerDown(p.tap)
    && p.touchX == x && p.touchY == y && p.touchEdge.bottom == bottom
  }

  lemma StaysOn(p: G.Pad, pk: Packet, tl: Limits, x: int, y: int, bottom: bool)
    requires On(p, x, y, bottom) && pk.finger
    ensures var q := G.Step(p, G.Arrive(pk, tl));
            && On(q, x, y, bottom)
            && q.tap == (if Strays(pk, x, y, tl) then Astray(p.tap) else p.tap)
            && q.clicks == p.clicks + (if p.tap.PossibleDrag? && Strays(pk, x, y, tl) then [true] else [])
  {
  }

  /** While it stays on, only straying matters, and only once. */
  lemma {:induction false} StaysOnAll(p: G.Pad, on: seq<Packet>, tl: Limits, x: int, y: int, bottom: bool)
    requires On(p, x, y, bottom) && AreOn(on)
    ensures var q := G.Run(p, Arrivals(on, tl));
            && On(q, x, y, bottom)
            && q.tap == (if AnyStrays(on, x, y, tl) then Astray(p.tap) else p.tap)
            && q.clicks == p.clicks + (if p.tap.PossibleDrag? && AnyStrays(on, x, y, tl) then [true] else [])
    decreases |on|
  {
    hide G.Step, Strays, On;
    if on != [] {
      var q := G.Step(p, G.Arrive(on[0], tl));
      StaysOn(p, on[0], tl, x, y, bottom);
      StaysOnAll(q, on[1..], tl, x, y, bottom);
      assert Arrivals(on, tl)[1..] == Arrivals(on[1..], tl);
      StraysCons(on, x, y, tl);
    }
  }

  lemma StraysCons(on: seq<Packet>, x: int, y: int, tl: Limits)
    requires on != []
    ensures AnyStrays(on, x, y, tl) <==> Strays(on[0], x, y, tl) || AnyStrays(on[1..], x, y, tl)
  {
    hide Strays;
    if AnyStrays(on, x, y, tl) {
      var i :| 0 <= i < |on| && Strays(on[i], x, y, tl);
      assert i > 0 ==> on[1..][i - 1] == on[i];
    }
    if AnyStrays(on[1..], x, y, tl) {
      var i :| 0 <= i < |on[1..]| && Strays(on[1..][i], x, y, tl);
      assert on[i + 1] == on[1..][i];
    }
  }

  /** The finger lands: where, is told by the packet or, for a coordinate that is
      missing, by the last one known. */
  lemma Lands(p: G.Pad, pk: Packet, tl: Limits)
    requires !p.off && !p.lastFinger && pk.finger && (p.tap.Start? || p.tap.SingleTapPending?)
    ensures var x, y := if pk.x != tl.noX then pk.x else p.lastX, if pk.y != tl.noY then pk.y else p.lastY;
            var q := G.Step(p, G.Arrive(pk, tl));
            && On(q, x, y, y > tl.bottomEdge)
            && q.tap == (if p.tap.SingleTapPending? && MayClick(y, tl) then G.PossibleDrag else G.Touching)
            && q.clicks == p.clicks + (if p.tap.SingleTapPending? && !MayClick(y, tl) then [true, false] else [])
  {
  }

  lemma Leaves(p: G.Pad, pk: Packet, tl: Limits, x: int, y: int)
    requires On(p, x, y, y > tl.bottomEdge) && !pk.finger
    ensures var q := G.Step(p, G.Arrive(pk, tl));
            && !q.lastFinger && !q.off
            && q.tap == (if p.tap.Touching? && MayClick(y, tl) then G.SingleTapPending else G.Start)
            && q.clicks == p.clicks + (match p.tap
                                       case PossibleDrag => [true, false, true, false]
                                       case Drag => [false]
                                       case _ => [])
  {
    assert p.clicks + [true, false] + [true, false] == p.clicks + [true, false, true, false];
  }

  /** What a contact means, on any path of the finger.  A first contact is a tap
      exactly if it never strayed and may click.  A contact while a tap is
      pending makes that tap a click of its own where clicking is not allowed;
      otherwise it is a drag if it strayed, pressed and released once, and a
      double click if it did not. */
  lemma ContactMeansExactly(p: G.Pad, land: Packet, on: seq<Packet>, leave: Packet, tl: Limits)
    requires !p.off && !p.lastFinger && (p.tap.Start? || p.tap.SingleTapPending?)
    requires land.finger && AreOn(on) && !leave.finger
    ensures var x, y := if land.x != tl.noX then land.x else p.lastX, if land.y != tl.noY then land.y else p.lastY;
            var strayed, may := AnyStrays(on, x, y, tl), MayClick(y, tl);
            var q := G.Run(p, Contact(land, on, leave, tl));
            && !q.lastFinger && !q.off
            && q.tap == (if p.tap.Start? && may && !strayed then G.SingleTapPending else G.Start)
            && q.clicks == p.clicks + (if p.tap.Start? then []
                                       else if !may || strayed then [true, false]
                                       else [true, false, true, false])
  {
    hide G.Step, G.Run, On, AnyStrays, Arrivals, MayClick;
    var x, y := if land.x != tl.noX then land.x else p.lastX, if land.y != tl.noY then land.y else p.lastY;
    Lands(p, land, tl);
    var p1 := G.Step(p, G.Arrive(land, tl));
    OnIsDown(p1, x, y, y > tl.bottomEdge);
    StaysOnAll(p1, on, tl, x, y, y > tl.bottomEdge);
    var p2 := G.Run(p1, Arrivals(on, tl));
    Leaves(p2, leave, tl, x, y);
    RunOne(p, G.Arrive(land, tl));
    RunOne(p2, G.Arrive(leave, tl));
    RunAppend(p1, Arrivals(on, tl), [G.Arrive(leave, tl)]);
    RunAppend(p, [G.Arrive(land, tl)], Arrivals(on, tl) + [G.Arrive(leave, tl)]);
    assert p.clicks + [true] + [false] == p.clicks + [true, false];
  }

  lemma OnIsDown(p: G.Pad, x: int, y: int, bottom: bool)
    requires On(p, x, y, bottom)
    ensures G.FingerDown(p.tap)
  {
  }

  /** A first contact followed by the timer is one click exactly if it was a
      tap. */
  lemma TapClicksExactly(p: G.Pad, land: Packet, on: seq<Packet>, leave: Packet, tl: Limits)
    requires !p.off && !p.lastFinger && p.tap.Start?
    requires land.finger && AreOn(on) && !leave.finger
    ensures var x, y := if land.x != tl.noX then land.x else p.lastX, if land.y != tl.noY then land.y else p.lastY;
            var q := G.Step(G.Run(p, Contact(land, on, leave, tl)), G.TimerFires);
            && q.tap == G.Start && !q.timer
            && q.clicks == p.clicks + (if MayClick(y, tl) && !AnyStrays(on, x, y, tl) then [true, false] else [])
  {
    hide G.Run, AnyStrays, Contact, MayClick;
    ContactMeansExactly(p, land, on, leave, tl);
  }
}
