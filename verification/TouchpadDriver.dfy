/** The touchpad driver: the state that `process_packet` updates packet by
    packet, and the click timer. */
module TouchpadDriver {
  import opened TouchpadTypes
  import G = Gestures
  import M = Motion
  import S = Scrolling

  /** The driver between two packets, with what it has sent on. */
  datatype Driver = Driver(
    pad: G.Pad, glide: M.Glide, scroll: S.Scroll, moves: seq<(int, int)>, wheel: seq<int>)

  /** There are samples for everything that the driver may look up. */
  predicate Backed(d: Driver) {
    M.Counted(d.glide) && S.Sampled(d.scroll, d.glide.samples)
  }

  lemma BackedIsSampled(d: Driver)
    requires Backed(d)
    ensures S.Sampled(d.scroll, d.glide.samples)
  {
  }

  /** The position that a packet stands for: a missing coordinate is the last. */
  function At(p: G.Pad, pk: Packet, tl: Limits): M.Sample {
    M.Sample(if pk.x == tl.noX then p.lastX else pk.x, if pk.y == tl.noY then p.lastY else pk.y, pk.time)
  }

  function EdgeAt(p: G.Pad, pk: Packet, tl: Limits): Edge {
    DetectEdge(At(p, pk, tl).x, At(p, pk, tl).y, tl)
  }

  /** `handle_gestures`; fractions start anew where no pointer moves. */
  function GestureStage(d: Driver, pk: Packet, tl: Limits): (r: Driver)
    requires Backed(d)
    ensures Backed(r)
  {
    var resting := d.pad.tap.Start? || d.pad.tap.SingleTapPending?;
    d.(pad := G.Handle(d.pad, pk, tl),
       glide := if resting then d.glide.(fracX := 0.0, fracY := 0.0) else d.glide)
  }

  function ScrollTouch(p: G.Pad, pk: Packet, tl: Limits): S.Touch {
    S.Touch(At(p, pk, tl).y, pk.finger, pk.finger && !p.lastFinger, EdgeAt(p, pk, tl), pk.time)
  }

  /** `handle_scrolling`. */
  function ScrollStage(d: Driver, pk: Packet, tl: Limits): (r: Driver)
    requires Backed(d)
    ensures M.Counted(r.glide) && r.scroll.packets <= |r.glide.samples| + 1
    ensures r.glide == d.glide && r.pad == d.pad
  {
    if !tl.scrolling then d
    else
      var (s, w) := S.Handle(d.scroll, d.glide.samples, ScrollTouch(d.pad, pk, tl), tl.scrollDist);
      d.(scroll := s, wheel := d.wheel + WheelEvents(w))
  }

  function DeltaInput(d: Driver, pk: Packet, tl: Limits): M.Input {
    M.Input(At(d.pad, pk, tl), (d.pad.tap.Moving? || d.pad.tap.Drag?) && !d.scroll.on, tl.speed)
  }

  /** `compute_deltas`, and the move event unless a clickpad is being pressed. */
  function DeltaStage(d: Driver, pk: Packet, tl: Limits, clickpadPressed: bool): (r: Driver)
    requires M.Counted(d.glide) && d.scroll.packets <= |d.glide.samples| + 1
    ensures Backed(r) && r.pad == d.pad
  {
    var i := DeltaInput(d, pk, tl);
    var move := (M.Delta(d.glide, i, true), M.Delta(d.glide, i, false));
    var silent := move == (0, 0) || (clickpadPressed && EdgeAt(d.pad, pk, tl).bottom);
    d.(glide := M.Compute(d.glide, i), moves := d.moves + if silent then [] else [move])
  }

  /** `process_packet` after the buttons. */
  function Process(d: Driver, pk: Packet, tl: Limits, clickpadPressed: bool): (r: Driver)
    requires Backed(d)
    ensures Backed(r)
  {
    if d.pad.off then d
    else
      var r := DeltaStage(ScrollStage(GestureStage(d, pk, tl), pk, tl), pk, tl, clickpadPressed);
      r.(pad := G.Save(r.pad, pk, tl))
  }

  /** Each packet is one step of the gesture machine, one input of the motion
      estimator, and keeps what the two keep. */
  lemma ProcessKeeps(d: Driver, pk: Packet, tl: Limits, clickpadPressed: bool)
    requires Backed(d) && G.Disciplined(d.pad) && M.SmallFrac(d.glide)
    ensures var r := Process(d, pk, tl, clickpadPressed);
            && G.Disciplined(r.pad) && M.SmallFrac(r.glide)
            && r.pad == G.Step(d.pad, G.Arrive(pk, tl))
  {
    hide G.Handle, S.Handle, M.Carried, M.Delta;
    G.StepIsDisciplined(d.pad, G.Arrive(pk, tl));
    var d1 := GestureStage(d, pk, tl);
    var d2 := ScrollStage(d1, pk, tl);
    M.FractionStaysSmall(d2.glide, DeltaInput(d2, pk, tl));
  }

  // ----- The autoscroll timer --------------------------------------------

  /** `send_autoscroll_event`, when the timer fires; it sets itself again. */
  function AutoScroll(d: Driver): Driver {
    if d.scroll.timer then d.(wheel := d.wheel + [Notch(d.scroll.upward)]) else d
  }

  function Notch(up: bool): int {
    if up then 1 else -1
  }

  /** A finger that leaves stops the automatic scrolling, exactly unless the
      touchpad is off or scrolling has been switched off meanwhile. */
  lemma LiftingStopsAutoscroll(d: Driver, pk: Packet, tl: Limits, clickpadPressed: bool)
    requires Backed(d) && !pk.finger
    ensures Process(d, pk, tl, clickpadPressed).scroll.timer <==> d.scroll.timer && (d.pad.off || !tl.scrolling)
  {
    hide S.Handle, G.Handle, M.Compute, M.Delta, WheelEvents;
    var d1 := GestureStage(d, pk, tl);
    S.TimerOnlyInCorner(d1.scroll, d1.glide.samples, ScrollTouch(d1.pad, pk, tl), tl.scrollDist);
  }

  // ----- Everything that happens -----------------------------------------

  /** One arrival: a packet with the limits in force and the clickpad state. */
  datatype Arrival = Arrival(pk: Packet, tl: Limits, clickpadPressed: bool)

  /** What reaches the driver between two resets. */
  datatype Happening = Arrived(a: Arrival) | ClickTimer | ScrollTimer | Disabled

  function Happen(d: Driver, h: Happening): (r: Driver)
    requires Backed(d)
    ensures Backed(r)
  {
    match h
    case Arrived(a) => Process(d, a.pk, a.tl, a.clickpadPressed)
    case ClickTimer => d.(pad := G.Fire(d.pad))
    case ScrollTimer => AutoScroll(d)
    case Disabled => d.(pad := d.pad.(off := true))
  }

  function HappenAll(d: Driver, hs: seq<Happening>): (r: Driver)
    requires Backed(d)
    ensures Backed(r)
    decreases |hs|
  {
    if hs == [] then d else HappenAll(Happen(d, hs[0]), hs[1..])
  }

  /** What a run of the driver is for its gestures. */
  function GestureOps(hs: seq<Happening>): seq<G.Op> {
    if hs == [] then []
    else
      var op := match hs[0]
                case Arrived(a) => [G.Arrive(a.pk, a.tl)]
                case ClickTimer => [G.TimerFires]
                case ScrollTimer => []
                case Disabled => [G.Disable];
      op + GestureOps(hs[1..])
  }

  /** Over every interleaving of packets, both timers and the switching off of
      the touchpad, the whole driver keeps the discipline of gestures and the
      small fractions, and its gestures are a run of their own machine, whose
      taps are conserved. */
  lemma DriverRun(d: Driver, hs: seq<Happening>)
    requires Backed(d) && G.Disciplined(d.pad) && M.SmallFrac(d.glide)
    ensures var r, ops := HappenAll(d, hs), GestureOps(hs);
            && G.Disciplined(r.pad) && M.SmallFrac(r.glide)
            && r.pad == G.Run(d.pad, ops)
            && G.Presses(r.pad.clicks) + G.Owed(r.pad)
               == G.Presses(d.pad.clicks) + G.Owed(d.pad) + G.AllTaps(d.pad, ops)
  {
    DriverRunsGestures(d, hs);
    G.RunConservesTaps(d.pad, GestureOps(hs));
  }

  lemma {:induction false} DriverRunsGestures(d: Driver, hs: seq<Happening>)
    requires Backed(d) && G.Disciplined(d.pad) && M.SmallFrac(d.glide)
    ensures var r := HappenAll(d, hs);
            G.Disciplined(r.pad) && M.SmallFrac(r.glide) && r.pad == G.Run(d.pad, GestureOps(hs))
    decreases |hs|
  {
    hide G.Disciplined, M.SmallFrac, Process, G.Fire;
    if hs != [] {
      HappeningKeeps(d, hs[0]);
      DriverRunsGestures(Happen(d, hs[0]), hs[1..]);
      var rest := GestureOps(hs[1..]);
      if !hs[0].ScrollTimer? {
        var op := GestureOps(hs)[0];
        assert GestureOps(hs) == [op] + rest;
        assert GestureOps(hs)[1..] == rest;
      } else {
        assert GestureOps(hs) == rest;
      }
    }
  }

  lemma HappeningKeeps(d: Driver, h: Happening)
    requires Backed(d) && G.Disciplined(d.pad) && M.SmallFrac(d.glide)
    ensures var r := Happen(d, h);
            && G.Disciplined(r.pad) && M.SmallFrac(r.glide)
            && match h
               case Arrived(a) => r.pad == G.Step(d.pad, G.Arrive(a.pk, a.tl))
               case ClickTimer => r.pad == G.Step(d.pad, G.TimerFires)
               case ScrollTimer => r.pad == d.pad
               case Disabled => r.pad == G.Step(d.pad, G.Disable)
  {
    hide G.Disciplined, M.SmallFrac, Process;
    match h
    case Arrived(a) => ProcessKeeps(d, a.pk, a.tl, a.clickpadPressed);
    case ClickTimer =>
      G.StepIsDisciplined(d.pad, G.TimerFires);
      assert d.(pad := G.Fire(d.pad)).glide == d.glide;
    case ScrollTimer =>
      assert AutoScroll(d).glide == d.glide;
    case Disabled =>
      G.StepIsDisciplined(d.pad, G.Disable);
      assert d.(pad := d.pad.(off := true)).glide == d.glide;
  }

  function Firings(hs: seq<Happening>): nat {
    if hs == [] then 0 else (if hs[0].ScrollTimer? then 1 else 0) + Firings(hs[1..])
  }

  /** A touchpad that is switched off during a corner scroll goes on scrolling:
      whatever packets come, each firing of the timer sends one more notch in
      the same direction. */
  lemma {:induction false} DisabledGoesOnScrolling(d: Driver, hs: seq<Happening>)
    requires Backed(d) && d.pad.off && d.scroll.timer
    ensures var r := HappenAll(d, hs);
            && r.pad.off && r.scroll == d.scroll
            && r.wheel == d.wheel + seq(Firings(hs), _ => Notch(d.scroll.upward))
    decreases |hs|
  {
    hide G.Handle;
    if hs == [] {
      assert seq(0, _ => Notch(d.scroll.upward)) == [];
    } else {
      var r := Happen(d, hs[0]);
      assert r.pad.off && r.scroll == d.scroll;
      DisabledGoesOnScrolling(r, hs[1..]);
      var notch := Notch(d.scroll.upward);
      if hs[0].ScrollTimer? {
        assert seq(Firings(hs), _ => notch) == [notch] + seq(Firings(hs[1..]), _ => notch);
      }
    }
  }

  /** A packet of a finger on the right edge, away from its corners. */
  predicate EdgePacket(pk: Packet, tl: Limits) {
    var e := DetectEdge(pk.x, pk.y, tl);
    pk.finger && pk.x != tl.noX && pk.y != tl.noY && e.right && !e.top && !e.bottom
  }

  lemma EdgePacketCounts(d: Driver, a: Arrival)
    requires Backed(d) && !d.pad.off && a.tl.scrolling && a.tl.scrollDist > 0 && EdgePacket(a.pk, a.tl)
    requires d.pad.lastFinger ==> d.scroll.on && d.scroll.autoSpeed == 0.0
    ensures var r := Happen(d, Arrived(a));
            && !r.pad.off && r.pad.lastFinger && r.scroll.on && r.scroll.autoSpeed == 0.0 && !r.scroll.timer
            && r.scroll.packets == 1 + if d.pad.lastFinger then d.scroll.packets else 0
  {
    hide M.Compute, M.Delta, WheelEvents, S.StepsIn, S.UnitsIn;
  }

  /** How the timer comes to be set: from a driver that is on and untouched, a
      finger that comes down on the right edge, stays for three more packets and
      then reaches a corner sets it; and from there on switching the touchpad
      off does not end the scrolling. */
  lemma ScrollIntoCorner(d: Driver, on: seq<Arrival>, corner: Arrival, later: seq<Happening>)
    requires Backed(d) && !d.pad.off && !d.pad.lastFinger && |on| == 4
    requires forall i | 0 <= i < 4 :: on[i].tl.scrolling && on[i].tl.scrollDist > 0 && EdgePacket(on[i].pk, on[i].tl)
    requires corner.tl.scrolling && corner.pk.finger && corner.pk.x != corner.tl.noX && corner.pk.y != corner.tl.noY
    requires var e := DetectEdge(corner.pk.x, corner.pk.y, corner.tl); e.right && (e.top || e.bottom)
    ensures var r := HappenAll(d, [Arrived(on[0])] + ([Arrived(on[1])] + Tail(on, corner)));
            && r.pad.off && r.scroll.timer
            && HappenAll(r, later).wheel == r.wheel + seq(Firings(later), _ => Notch(r.scroll.upward))
  {
    hide Process, Backed;
    EdgePacketCounts(d, on[0]);
    var d1 := Happen(d, Arrived(on[0]));
    EdgePacketCounts(d1, on[1]);
    var d2 := Happen(d1, Arrived(on[1]));
    EdgePacketCounts(d2, on[2]);
    var d3 := Happen(d2, Arrived(on[2]));
    EdgePacketCounts(d3, on[3]);
    var d4 := Happen(d3, Arrived(on[3]));
    CornerPacketArms(d4, corner);
    var r := Happen(Happen(d4, Arrived(corner)), Disabled);
    HappenCons(Happen(d4, Arrived(corner)), Disabled, []);
    HappenCons(d4, Arrived(corner), [Disabled]);
    HappenCons(d3, Arrived(on[3]), [Arrived(corner)] + [Disabled]);
    HappenCons(d2, Arrived(on[2]), [Arrived(on[3])] + ([Arrived(corner)] + [Disabled]));
    HappenCons(d1, Arrived(on[1]), Tail(on, corner));
    HappenCons(d, Arrived(on[0]), [Arrived(on[1])] + Tail(on, corner));
    DisabledGoesOnScrolling(r, later);
  }

  /** The last packets of that way into the corner, and the switching off. */
  function Tail(on: seq<Arrival>, corner: Arrival): seq<Happening>
    requires |on| == 4
  {
    [Arrived(on[2])] + ([Arrived(on[3])] + ([Arrived(corner)] + [Disabled]))
  }

  lemma CornerPacketArms(d: Driver, a: Arrival)
    requires Backed(d) && !d.pad.off && d.pad.lastFinger && a.tl.scrolling
    requires d.scroll.on && d.scroll.autoSpeed == 0.0 && !d.scroll.timer && d.scroll.packets > 3
    requires a.pk.finger && a.pk.x != a.tl.noX && a.pk.y != a.tl.noY
    requires var e := DetectEdge(a.pk.x, a.pk.y, a.tl); e.right && (e.top || e.bottom)
    ensures Happen(d, Arrived(a)).scroll.timer
  {
    hide S.Handle, M.Compute, M.Delta, WheelEvents;
    var d1 := GestureStage(d, a.pk, a.tl);
    S.CornerSetsTimerExactly(d1.scroll, d1.glide.samples, ScrollTouch(d1.pad, a.pk, a.tl), a.tl.scrollDist);
  }

  lemma HappenCons(d: Driver, h: Happening, rest: seq<Happening>)
    requires Backed(d)
    ensures HappenAll(d, [h] + rest) == HappenAll(Happen(d, h), rest)
  {
    hide Process;
    assert ([h] + rest)[1..] == rest;
  }

  // ----- Strokes ----------------------------------------------------------

  function ProcessAll(d: Driver, arrivals: seq<Arrival>): (r: Driver)
    requires Backed(d)
    ensures Backed(r)
    decreases |arrivals|
  {
    if arrivals == [] then d
    else ProcessAll(Process(d, arrivals[0].pk, arrivals[0].tl, arrivals[0].clickpadPressed), arrivals[1..])
  }

  /** A run in which no packet finds the touchpad off or the fractions due for a
      reset. */
  ghost predicate BetweenResets(d: Driver, arrivals: seq<Arrival>)
    requires Backed(d)
    decreases |arrivals|
  {
    arrivals == [] || (
      var a := arrivals[0];
      && !d.pad.off && !d.pad.tap.Start? && !d.pad.tap.SingleTapPending?
      && BetweenResets(Process(d, a.pk, a.tl, a.clickpadPressed), arrivals[1..]))
  }

  /** What such a run feeds to the motion estimator. */
  function Inputs(d: Driver, arrivals: seq<Arrival>): seq<M.Input>
    requires Backed(d)
    decreases |arrivals|
  {
    if arrivals == [] then []
    else
      var a := arrivals[0];
      [DeltaInput(ScrollStage(GestureStage(d, a.pk, a.tl), a.pk, a.tl), a.pk, a.tl)]
      + Inputs(Process(d, a.pk, a.tl, a.clickpadPressed), arrivals[1..])
  }

  /** No motion is lost to rounding in the driver: over any run of packets
      between fraction resets, with gestures and scrolling interfering as they
      do, the deltas computed plus the fraction carried out equal the scaled
      estimates plus the fraction carried in. */
  lemma DriverConservesMotion(d: Driver, arrivals: seq<Arrival>, horizontal: bool)
    requires Backed(d) && M.SmallFrac(d.glide) && BetweenResets(d, arrivals)
    ensures var ins := Inputs(d, arrivals);
            && ProcessAll(d, arrivals).glide == M.ComputeAll(d.glide, ins)
            && M.Travel(d.glide, ins, horizontal) as real + ProcessAll(d, arrivals).glide.Frac(horizontal)
               == d.glide.Frac(horizontal) + M.Intended(d.glide, ins, horizontal)
  {
    StrokeFeedsEstimator(d, arrivals);
    M.MotionIsConserved(d.glide, Inputs(d, arrivals), horizontal);
  }

  lemma {:induction false} StrokeFeedsEstimator(d: Driver, arrivals: seq<Arrival>)
    requires Backed(d) && BetweenResets(d, arrivals)
    ensures ProcessAll(d, arrivals).glide == M.ComputeAll(d.glide, Inputs(d, arrivals))
    decreases |arrivals|
  {
    hide G.Handle, S.Handle, M.Compute, M.Delta, G.Save;
    if arrivals != [] {
      var a := arrivals[0];
      var r := Process(d, a.pk, a.tl, a.clickpadPressed);
      StrokeFeedsEstimator(r, arrivals[1..]);
      assert Inputs(d, arrivals)[1..] == Inputs(r, arrivals[1..]);
    }
  }

  class Touchpad {
    // Gestures.
    var tap: G.TapState
    var touchX: int
    var touchY: int
    var touchEdge: Edge
    var lastFinger: bool
    var lastX: int
    var lastY: int
    var timerArmed: bool
    var off: bool
    // Motion.
    const ring: M.Ring
    var fracX: real
    var fracY: real
    var moveCount: nat
    // Scrolling.
    var vertScrollOn: bool
    var scrollY: int
    var scrollPackets: nat
    var autoSpeed: real
    var autoY: real
    var scrollTimer: bool
    var scrollUpward: bool
    // What has been sent on: gesture presses, pointer moves, wheel steps.
    var clicks: seq<bool>
    var moves: seq<(int, int)>
    var wheel: seq<int>

    ghost function Pad(): G.Pad
      reads this
    {
      G.Pad(tap, touchX, touchY, touchEdge, lastFinger, lastX, lastY, timerArmed, off, clicks)
    }

    ghost function Glide(): M.Glide
      reads this, ring
    {
      M.Glide(fracX, fracY, moveCount, ring.samples)
    }

    ghost function Scroll(): S.Scroll
      reads this
    {
      S.Scroll(vertScrollOn, scrollY, scrollPackets, autoSpeed, autoY, scrollTimer, scrollUpward)
    }

    ghost function View(): Driver
      reads this, ring
    {
      Driver(Pad(), Glide(), Scroll(), moves, wheel)
    }

    /** Holds between packets. */
    ghost predicate Valid()
      reads this, ring, ring.hist
    {
      ring.Valid() && Backed(View()) && G.Disciplined(Pad()) && M.SmallFrac(Glide())
    }

    /** `init_touchpad_state`. */
    constructor ()
      ensures Valid() && fresh(ring) && fresh(ring.hist)
      ensures Pad() == G.Fresh(0, 0, Edge(false, false, false))
      ensures Glide() == M.Glide(0.0, 0.0, 0, [])
      ensures Scroll() == S.Scroll(false, 0, 0, 0.0, 0.0, false, true)
    {
      tap, touchX, touchY, touchEdge := G.Start, 0, 0, Edge(false, false, false);
      lastFinger, lastX, lastY := false, 0, 0;
      timerArmed, off := false, false;
      ring := new M.Ring();
      fracX, fracY, moveCount := 0.0, 0.0, 0;
      vertScrollOn, scrollY, scrollPackets, autoSpeed, autoY := false, 0, 0, 0.0, 0.0;
      scrollTimer, scrollUpward := false, true;
      clicks, moves, wheel := [], [], [];
    }

    method ButtonChange(down: bool)
      modifies this`clicks
      ensures clicks == old(clicks) + [down]
    {
      clicks := clicks + [down];
    }

    /** `send_left_click_event`, as the timer callback. */
    method SendLeftClick()
      requires Valid()
      modifies this`clicks, this`tap, this`timerArmed
      ensures Valid() && Pad() == G.Fire(old(Pad()))
    {
      hide G.Disciplined, M.SmallFrac, S.Sampled, M.Counted, M.Ring.Valid;
      G.StepIsDisciplined(Pad(), G.TimerFires);
      if tap == G.SingleTapPending {
        ButtonChange(true);
        ButtonChange(false);
        assert clicks == old(clicks) + [true, false];
        tap := G.Start;
      }
      timerArmed := false;
      assert Glide() == old(Glide()) && Scroll() == old(Scroll());
    }

    /** `handle_gestures`. */
    method HandleGestures(pk: Packet, tl: Limits)
      modifies this`tap, this`touchX, this`touchY, this`touchEdge, this`timerArmed, this`clicks, this`fracX, this`fracY
      ensures Pad() == G.Handle(old(Pad()), pk, tl)
      ensures (fracX, fracY) ==
              if old(tap).Start? || old(tap).SingleTapPending? then (0.0, 0.0) else (old(fracX), old(fracY))
    {
      var touch := pk.finger && !lastFinger;
      var release := !pk.finger && lastFinger;
      var move := false;
      if pk.finger {
        if touch {
          move := false;
        } else if (pk.x != tl.noX && Abs(pk.x - touchX) >= tl.tapMove) ||
                  (pk.y != tl.noY && Abs(pk.y - touchY) >= tl.tapMove) {
          move := true;
        }
      }
      if touch {
        touchX := if pk.x != tl.noX then pk.x else lastX;
        touchY := if pk.y != tl.noY then pk.y else lastY;
        touchEdge := DetectEdge(touchX, touchY, tl);
      }
      assert Pad() == G.NoteTouch(old(Pad()), pk, tl);
      Switch(touch, release, move, tl);
    }

    /** The switch of `handle_gestures` over the tap state. */
    method Switch(touch: bool, release: bool, move: bool, tl: Limits)
      modifies this`tap, this`timerArmed, this`clicks, this`fracX, this`fracY
      ensures Pad() == G.Advance(old(Pad()), touch, release, move, tl)
      ensures (fracX, fracY) ==
              if old(tap).Start? || old(tap).SingleTapPending? then (0.0, 0.0) else (old(fracX), old(fracY))
    {
      match tap
      case Start =>
        if touch {
          tap := G.Touching;
        }
        fracX, fracY := 0.0, 0.0;
      case Touching =>
        if move {
          tap := G.Moving;
        } else if release {
          tap := G.Start;
          if tl.tapToClick && !(tl.isClickpad && touchEdge.bottom) {
            timerArmed := true;
            tap := G.SingleTapPending;
          }
        }
      case Moving =>
        if release {
          tap := G.Start;
        }
      case SingleTapPending =>
        if touch {
          timerArmed := false;
          if tl.tapToClick && !(tl.isClickpad && touchEdge.bottom) {
            tap := G.PossibleDrag;
          } else {
            ClickOnce();
            tap := G.Touching;
          }
        }
        fracX, fracY := 0.0, 0.0;
      case PossibleDrag =>
        if move {
          ButtonChange(true);
          tap := G.Drag;
        } else if release {
          tap := G.Start;
          ClickOnce();
          ClickOnce();
        }
      case Drag =>
        if release {
          tap := G.Start;
          ButtonChange(false);
        }
    }

    method ClickOnce()
      modifies this`clicks
      ensures clicks == old(clicks) + [true, false]
    {
      ButtonChange(true);
      ButtonChange(false);
    }

    /** The estimates at the heart of `compute_deltas`. */
    method EstimateMotion(x: int, y: int) returns (ex: real, ey: real)
      requires ring.Valid() && moveCount <= |ring.samples| + 1
      ensures ex == M.Estimate(ring.samples, x, moveCount, true)
      ensures ey == M.Estimate(ring.samples, y, moveCount, false)
    {
      ex, ey := 0.0, 0.0;
      if moveCount > 3 {
        var h0 := ring.Hist(0);
        var h1 := ring.Hist(1);
        var h2 := ring.Hist(2);
        ex := M.EstimateDelta(x as real, h0.x as real, h1.x as real, h2.x as real);
        ey := M.EstimateDelta(y as real, h0.y as real, h1.y as real, h2.y as real);
      } else if moveCount > 1 {
        var h0 := ring.Hist(0);
        ex := M.EstimateDeltaPrevious(x as real, h0.x as real);
        ey := M.EstimateDeltaPrevious(y as real, h0.y as real);
      }
    }

    /** `compute_deltas`. */
    method ComputeDeltas(pk: Packet, tl: Limits) returns (dx: int, dy: int)
      requires ring.Valid() && M.Counted(Glide())
      modifies this`fracX, this`fracY, this`moveCount, ring, ring.hist
      ensures ring.Valid() && |ring.samples| == |old(ring.samples)| + 1
      ensures var i := DeltaInput(old(View()), pk, tl);
              && Glide() == M.Compute(old(Glide()), i)
              && dx == M.Delta(old(Glide()), i, true) && dy == M.Delta(old(Glide()), i, false)
    {
      hide M.Carried, M.Delta;
      var x := if pk.x == tl.noX then lastX else pk.x;
      var y := if pk.y == tl.noY then lastY else pk.y;
      dx, dy := MovePointer(M.Sample(x, y, pk.time), (tap == G.Moving || tap == G.Drag) && !vertScrollOn, tl.speed);
      ring.Store(M.Sample(x, y, pk.time));
    }

    /** The body of `compute_deltas`, before the position is stored. */
    method MovePointer(at: M.Sample, active: bool, speed: real) returns (dx: int, dy: int)
      requires ring.Valid() && M.Counted(Glide())
      modifies this`fracX, this`fracY, this`moveCount
      ensures var i := M.Input(at, active, speed);
              && moveCount == (if active then old(moveCount) + 1 else 0)
              && fracX == M.Carried(old(Glide()), i, true) && fracY == M.Carried(old(Glide()), i, false)
              && dx == M.Delta(old(Glide()), i, true) && dy == M.Delta(old(Glide()), i, false)
    {
      hide M.Estimate, M.Trunc, TouchpadTypes.Times;
      dx, dy := 0, 0;
      if active {
        moveCount := moveCount + 1;
        var ex, ey := EstimateMotion(at.x, at.y);
        dx, fracX := CarryFraction(ex, speed, fracX);
        dy, fracY := CarryFraction(ey, speed, fracY);
      } else {
        moveCount := 0;
      }
    }

    /** The use of `modf`: whole units go out, the rest is kept. */
    method CarryFraction(estimate: real, speed: real, frac: real) returns (units: int, rest: real)
      ensures var d := Times(estimate, speed) + frac;
              units == M.Trunc(d) && rest == d - M.Trunc(d) as real
    {
      var d := Times(estimate, speed) + frac;
      units := M.Trunc(d);
      rest := d - units as real;
    }

    /** `start_corner_scrolling`. */
    method StartCornerScrolling(y: int, step: int)
      requires ring.Valid() && scrollPackets <= |ring.samples|
      modifies this`autoSpeed, this`autoY, this`scrollPackets
      modifies this`scrollTimer, this`scrollUpward
      ensures forall t: S.Touch | t.y == y :: Scroll() == S.StartCorner(old(Scroll()), ring.samples, t, step)
      ensures scrollPackets == 0 && (ring.samples == [] ==> autoSpeed == old(autoSpeed))
    {
      autoY := 0.0;
      if scrollPackets > 3 {
        var h0 := ring.Hist(0);
        var h3 := ring.Hist(3);
        var elapsed := h0.time - h3.time;
        if elapsed > 0.0 && step > 0 {
          autoSpeed := (h0.y - h3.y) as real / elapsed / step as real;
          autoY := (y - scrollY) as real / step as real;
        }
        scrollTimer := true;
        scrollUpward := y < scrollY;
      }
      scrollPackets := 0;
    }

    /** The part of `handle_scrolling` that switches scrolling on and off. */
    method SwitchScrolling(t: S.Touch, step: int)
      requires ring.Valid() && scrollPackets <= |ring.samples|
      modifies this`vertScrollOn, this`scrollY, this`autoSpeed, this`autoY, this`scrollPackets
      modifies this`scrollTimer, this`scrollUpward
      ensures Scroll() == S.Prepare(old(Scroll()), ring.samples, t, step)
      ensures scrollPackets <= |ring.samples| + 1
      ensures autoSpeed != 0.0 ==> old(autoSpeed) != 0.0 || ring.samples != []
    {
      hide S.Switches, S.StartCorner, M.Ring.Valid;
      SwitchOnAndOff(t);
      if vertScrollOn && S.Corner(t) && autoSpeed == 0.0 {
        StartCornerScrolling(t.y, step);
      }
      if vertScrollOn {
        scrollPackets := scrollPackets + 1;
      }
    }

    /** Its statements before `start_corner_scrolling`. */
    method SwitchOnAndOff(t: S.Touch)
      modifies this`vertScrollOn, this`scrollY, this`autoSpeed, this`scrollPackets, this`scrollTimer
      ensures Scroll() == S.Switches(old(Scroll()), t)
      ensures scrollPackets <= old(scrollPackets) && (autoSpeed != 0.0 ==> autoSpeed == old(autoSpeed))
    {
      if t.landed {
        autoSpeed, scrollPackets := 0.0, 0;
        if t.edge.right {
          vertScrollOn := true;
          scrollY := t.y;
        }
      }
      if vertScrollOn && (!t.edge.right || !t.finger) {
        vertScrollOn := false;
      }
      var corner := t.edge.right && (t.edge.top || t.edge.bottom);
      if autoSpeed != 0.0 && (!t.finger || !corner) {
        autoSpeed, scrollPackets := 0.0, 0;
      }
      if !t.finger || !corner {
        scrollTimer := false;
      }
    }

    /** `handle_scrolling`. */
    method HandleScrolling(pk: Packet, tl: Limits)
      requires ring.Valid() && Backed(View())
      modifies this`vertScrollOn, this`scrollY, this`autoSpeed, this`autoY, this`scrollPackets
      modifies this`scrollTimer, this`scrollUpward, this`wheel
      ensures View() == ScrollStage(old(View()), pk, tl)
    {
      hide S.Handle, WheelEvents, DetectEdge, M.Ring.Valid, Backed, S.Sampled;
      if !tl.scrolling {
        return;
      }
      BackedIsSampled(View());
      var x := if pk.x == tl.noX then lastX else pk.x;
      var y := if pk.y == tl.noY then lastY else pk.y;
      ScrollBy(S.Touch(y, pk.finger, pk.finger && !lastFinger, DetectEdge(x, y, tl), pk.time), tl.scrollDist);
      assert Pad() == old(Pad()) && Glide() == old(Glide());
      assert Scroll() == ScrollStage(old(View()), pk, tl).scroll;
    }

    /** `send_autoscroll_event`, as the timer callback. */
    method SendAutoscroll()
      requires Valid() && scrollTimer
      modifies this`wheel
      ensures Valid() && View() == AutoScroll(old(View()))
    {
      hide M.SmallFrac;
      wheel := wheel + [Notch(scrollUpward)];
    }

    /** The body of `handle_scrolling` for a packet that is to be scrolled by. */
    method ScrollBy(t: S.Touch, step: int)
      requires ring.Valid() && S.Sampled(Scroll(), ring.samples)
      modifies this`vertScrollOn, this`scrollY, this`autoSpeed, this`autoY, this`scrollPackets
      modifies this`scrollTimer, this`scrollUpward, this`wheel
      ensures Scroll() == S.Handle(old(Scroll()), ring.samples, t, step).0
      ensures wheel == old(wheel) + WheelEvents(S.Handle(old(Scroll()), ring.samples, t, step).1)
    {
      hide S.Prepare, S.Follow, S.VerticalWheel, S.AutoFollow, S.AutoWheel, WheelEvents;
      SwitchScrolling(t, step);
      var v := FollowVertically(t, step);
      var a := FollowAutomatically(t);
      EmitWheel(S.Wheel(v.up + a.up, v.down + a.down));
    }

    /** The loops of `handle_scrolling` that follow the finger. */
    method FollowVertically(t: S.Touch, step: int) returns (w: S.Wheel)
      modifies this`scrollY
      ensures w == S.VerticalWheel(old(Scroll()), t, step)
      ensures Scroll() == S.Follow(old(Scroll()), t, step)
    {
      w := S.Wheel(0, 0);
      if vertScrollOn {
        w, scrollY := S.FollowFinger(t.y, scrollY, step);
      }
    }

    /** The part of `handle_scrolling` that goes on in a corner. */
    method FollowAutomatically(t: S.Touch) returns (w: S.Wheel)
      requires ring.Valid() && S.Sampled(Scroll().(packets := 0), ring.samples)
      modifies this`autoY
      ensures w == S.AutoWheel(old(Scroll()), ring.samples, t)
      ensures Scroll() == S.AutoFollow(old(Scroll()), ring.samples, t)
    {
      hide TouchpadTypes.Times, S.UnitsIn;
      w := S.Wheel(0, 0);
      if autoSpeed != 0.0 {
        var h0 := ring.Hist(0);
        var seconds := t.time - h0.time;
        if seconds < 0.2 {
          w, autoY := S.FollowReach(autoY + Times(autoSpeed, seconds));
        }
      }
    }

    /** The two loops at the end of `handle_scrolling`. */
    method EmitWheel(w: S.Wheel)
      modifies this`wheel
      ensures wheel == old(wheel) + WheelEvents(w)
    {
      var up := w.up;
      while up > 0
        invariant wheel == old(wheel) + seq(w.up - up, _ => 1)
      {
        wheel := wheel + [1];
        up := up - 1;
      }
      var down := w.down;
      while down > 0
        invariant wheel == old(wheel) + seq(w.up, _ => 1) + seq(w.down - down, _ => -1)
      {
        wheel := wheel + [-1];
        down := down - 1;
      }
    }

    /** `save_previous_packet_values`. */
    method SavePreviousValues(pk: Packet, tl: Limits)
      modifies this`lastFinger, this`lastX, this`lastY
      ensures Pad() == G.Save(old(Pad()), pk, tl)
    {
      lastFinger := pk.finger;
      if pk.x != tl.noX {
        lastX := pk.x;
      }
      if pk.y != tl.noY {
        lastY := pk.y;
      }
    }

    /** The move events of `process_packet`. */
    method MoveEvents(pk: Packet, tl: Limits, clickpadPressed: bool)
      requires ring.Valid() && M.Counted(Glide()) && scrollPackets <= |ring.samples| + 1
      modifies this`fracX, this`fracY, this`moveCount, this`moves, ring, ring.hist
      ensures ring.Valid()
      ensures View() == DeltaStage(old(View()), pk, tl, clickpadPressed)
    {
      hide M.Compute, M.Delta, DetectEdge, M.Ring.Valid;
      var x := if pk.x == tl.noX then lastX else pk.x;
      var y := if pk.y == tl.noY then lastY else pk.y;
      var edge := DetectEdge(x, y, tl);
      var dx, dy := ComputeDeltas(pk, tl);
      if (dx != 0 || dy != 0) && !(clickpadPressed && edge.bottom) {
        moves := moves + [(dx, dy)];
      }
      assert Pad() == old(Pad()) && Scroll() == old(Scroll());
      assert Glide() == DeltaStage(old(View()), pk, tl, clickpadPressed).glide;
      assert moves == DeltaStage(old(View()), pk, tl, clickpadPressed).moves;
    }

    /** `process_packet` after the buttons, with the finger already detected;
        `clickpadPressed` is `is_clickpad_pressed`. */
    method ProcessPacket(pk: Packet, tl: Limits, clickpadPressed: bool)
      requires Valid()
      modifies this, ring, ring.hist
      ensures Valid()
      ensures View() == Process(old(View()), pk, tl, clickpadPressed)
    {
      hide G.Disciplined, M.SmallFrac, Process;
      ProcessKeeps(View(), pk, tl, clickpadPressed);
      HandlePacket(pk, tl, clickpadPressed);
    }

    method HandlePacket(pk: Packet, tl: Limits, clickpadPressed: bool)
      requires ring.Valid() && Backed(View())
      modifies this, ring, ring.hist
      ensures ring.Valid()
      ensures View() == Process(old(View()), pk, tl, clickpadPressed)
    {
      hide GestureStage, ScrollStage, DeltaStage, G.Save, Backed;
      if off {
        return;
      }
      GesturesThenScrolling(pk, tl);
      MovesThenSave(pk, tl, clickpadPressed);
    }

    method GesturesThenScrolling(pk: Packet, tl: Limits)
      requires ring.Valid() && Backed(View())
      modifies this`tap, this`touchX, this`touchY, this`touchEdge, this`timerArmed, this`clicks, this`fracX, this`fracY
      modifies this`vertScrollOn, this`scrollY, this`autoSpeed, this`autoY, this`scrollPackets
      modifies this`scrollTimer, this`scrollUpward, this`wheel
      ensures View() == ScrollStage(GestureStage(old(View()), pk, tl), pk, tl)
    {
      hide G.Handle, S.Handle, ScrollStage, M.Ring.Valid;
      HandleGestures(pk, tl);
      assert View() == GestureStage(old(View()), pk, tl);
      HandleScrolling(pk, tl);
    }

    method MovesThenSave(pk: Packet, tl: Limits, clickpadPressed: bool)
      requires ring.Valid() && M.Counted(Glide()) && scrollPackets <= |ring.samples| + 1
      modifies this`fracX, this`fracY, this`moveCount, this`moves, this`lastFinger, this`lastX, this`lastY, ring, ring.hist
      ensures ring.Valid()
      ensures View() == var r := DeltaStage(old(View()), pk, tl, clickpadPressed); r.(pad := G.Save(r.pad, pk, tl))
    {
      hide DeltaStage, M.Ring.Valid, G.Save;
      MoveEvents(pk, tl, clickpadPressed);
      SavePreviousValues(pk, tl);
    }
  }

  /** The wheel events of one packet: the steps up, then the steps down. */
  function WheelEvents(w: S.Wheel): seq<int> {
    seq(w.up, _ => 1) + seq(w.down, _ => -1)
  }
}
