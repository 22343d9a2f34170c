/** What leaves the driver, against the raw packets that came in: the pointer
    goes where the finger goes, and the wheel turns as the finger scrolls. */
module TouchpadStrokes {
  import opened TouchpadTypes
  import opened TouchpadDriver
  import G = Gestures
  import M = Motion
  import S = Scrolling

  // ----- Moves ------------------------------------------------------------

  /** The moves that were sent, added up on one axis. */
  function Sum(moves: seq<(int, int)>, horizontal: bool): int {
    if moves == [] then 0
    else
      var m := moves[|moves| - 1];
      Sum(moves[..|moves| - 1], horizontal) + if horizontal then m.0 else m.1
  }

  lemma SumSnoc(moves: seq<(int, int)>, m: (int, int), horizontal: bool)
    ensures Sum(moves + [m], horizontal) == Sum(moves, horizontal) + if horizontal then m.0 else m.1
  {
    assert (moves + [m])[..|moves|] == moves;
  }

  predicate NoClickpad(arrivals: seq<Arrival>) {
    forall i | 0 <= i < |arrivals| :: !arrivals[i].clickpadPressed
  }

  /** One packet sends what was computed for it, each component on its axis. */
  lemma PacketMoves(d: Driver, a: Arrival, horizontal: bool)
    requires Backed(d) && !d.pad.off && !a.clickpadPressed
    ensures var s := ScrollStage(GestureStage(d, a.pk, a.tl), a.pk, a.tl);
            var r := Process(d, a.pk, a.tl, a.clickpadPressed);
            Sum(r.moves, horizontal) == Sum(d.moves, horizontal) + M.Delta(s.glide, DeltaInput(s, a.pk, a.tl), horizontal)
  {
    hide G.Handle, S.Handle, M.Delta, M.Carried, WheelEvents, Sum;
    var s := ScrollStage(GestureStage(d, a.pk, a.tl), a.pk, a.tl);
    var i := DeltaInput(s, a.pk, a.tl);
    SumSnoc(d.moves, (M.Delta(s.glide, i, true), M.Delta(s.glide, i, false)), horizontal);
    assert d.moves + [] == d.moves;
  }

  lemma {:induction false} MovesAreDeltas(d: Driver, arrivals: seq<Arrival>, horizontal: bool)
    requires Backed(d) && BetweenResets(d, arrivals) && NoClickpad(arrivals)
    ensures Sum(ProcessAll(d, arrivals).moves, horizontal)
            == Sum(d.moves, horizontal) + M.Travel(d.glide, Inputs(d, arrivals), horizontal)
    decreases |arrivals|
  {
    hide G.Handle, S.Handle, M.Compute, M.Delta, G.Save, Sum, WheelEvents;
    if arrivals != [] {
      var a := arrivals[0];
      var r := Process(d, a.pk, a.tl, a.clickpadPressed);
      PacketMoves(d, a, horizontal);
      MovesAreDeltas(r, arrivals[1..], horizontal);
      assert Inputs(d, arrivals)[1..] == Inputs(r, arrivals[1..]);
    }
  }

  /** No motion that is sent is lost to rounding: over any run of packets between
      fraction resets, without a clickpad being pressed, the moves sent on each
      axis plus the fraction carried out are the intended motion on that axis
      plus the fraction carried in. */
  lemma SentMotionIsConserved(d: Driver, arrivals: seq<Arrival>, horizontal: bool)
    requires Backed(d) && M.SmallFrac(d.glide) && BetweenResets(d, arrivals) && NoClickpad(arrivals)
    ensures var r := ProcessAll(d, arrivals);
            (Sum(r.moves, horizontal) - Sum(d.moves, horizontal)) as real + r.glide.Frac(horizontal)
            == d.glide.Frac(horizontal) + M.Intended(d.glide, Inputs(d, arrivals), horizontal)
  {
    hide Process, Sum;
    MovesAreDeltas(d, arrivals, horizontal);
    DriverConservesMotion(d, arrivals, horizontal);
  }

  // ----- Strokes ----------------------------------------------------------

  /** A finger is moving the pointer. */
  ghost predicate Gliding(d: Driver) {
    && Backed(d) && M.SmallFrac(d.glide)
    && d.pad.tap.Moving? && d.pad.lastFinger && !d.pad.off && !d.scroll.on
  }

  /** A packet of a stroke; it may lack coordinates. */
  predicate StrokePacket(a: Arrival, speed: real) {
    a.pk.finger && a.tl.speed == speed && !a.clickpadPressed
  }

  predicate Stroke(arrivals: seq<Arrival>, speed: real) {
    forall i | 0 <= i < |arrivals| :: StrokePacket(arrivals[i], speed)
  }

  /** The coordinate that a packet tells, if it does. */
  predicate Tells(a: Arrival, horizontal: bool) {
    if horizontal then a.pk.x != a.tl.noX else a.pk.y != a.tl.noY
  }

  /** Where the finger is known to be at the k-th of some packets: as the last
      packet tells that did so, or as known before. */
  function Known(arrivals: seq<Arrival>, k: nat, before: int, horizontal: bool): int
    requires k < |arrivals|
  {
    if Tells(arrivals[k], horizontal) then if horizontal then arrivals[k].pk.x else arrivals[k].pk.y
    else if k == 0 then before
    else Known(arrivals, k - 1, before, horizontal)
  }

  function Positions(arrivals: seq<Arrival>, x: int, y: int): seq<M.Sample> {
    seq(|arrivals|, k requires 0 <= k < |arrivals| =>
      M.Sample(Known(arrivals, k, x, true), Known(arrivals, k, y, false), arrivals[k].pk.time))
  }

  lemma {:induction false} KnownCons(arrivals: seq<Arrival>, k: nat, before: int, horizontal: bool)
    requires 0 < k < |arrivals|
    ensures Known(arrivals, k, before, horizontal) ==
            Known(arrivals[1..], k - 1, Known(arrivals, 0, before, horizontal), horizontal)
  {
    if !Tells(arrivals[k], horizontal) && k > 1 {
      KnownCons(arrivals, k - 1, before, horizontal);
    }
  }

  lemma NoPositions(x: int, y: int)
    ensures Positions([], x, y) == []
  {
  }

  lemma PositionsCons(arrivals: seq<Arrival>, x: int, y: int)
    requires arrivals != []
    ensures var s := M.Sample(Known(arrivals, 0, x, true), Known(arrivals, 0, y, false), arrivals[0].pk.time);
            Positions(arrivals, x, y) == [s] + Positions(arrivals[1..], s.x, s.y)
  {
    hide Known;
    forall k | 0 < k < |arrivals|
      ensures Known(arrivals, k, x, true) == Known(arrivals[1..], k - 1, Known(arrivals, 0, x, true), true)
      ensures Known(arrivals, k, y, false) == Known(arrivals[1..], k - 1, Known(arrivals, 0, y, false), false)
    {
      KnownCons(arrivals, k, x, true);
      KnownCons(arrivals, k, y, false);
    }
  }

  lemma ScrollStaysOff(s: S.Scroll, samples: seq<M.Sample>, t: S.Touch, step: int)
    requires S.Sampled(s, samples) && !s.on && !t.landed
    ensures !S.Handle(s, samples, t, step).0.on
  {
    hide S.StepsIn, S.UnitsIn;
  }

  /** A packet of a stroke adds the position of the finger and nothing else. */
  lemma GlideOn(d: Driver, a: Arrival, speed: real)
    requires Gliding(d) && StrokePacket(a, speed)
    ensures var r := Process(d, a.pk, a.tl, a.clickpadPressed);
            && Gliding(r)
            && r.glide.count == d.glide.count + 1
            && r.pad.lastX == Known([a], 0, d.pad.lastX, true) && r.pad.lastY == Known([a], 0, d.pad.lastY, false)
            && r.glide.samples == d.glide.samples + [M.Sample(r.pad.lastX, r.pad.lastY, a.pk.time)]
    ensures var s := ScrollStage(GestureStage(d, a.pk, a.tl), a.pk, a.tl);
            var i := DeltaInput(s, a.pk, a.tl);
            i.active && i.speed == speed
  {
    hide S.Handle, M.Delta, M.Carried, WheelEvents;
    var d1 := GestureStage(d, a.pk, a.tl);
    if a.tl.scrolling {
      ScrollStaysOff(d1.scroll, d1.glide.samples, ScrollTouch(d1.pad, a.pk, a.tl), a.tl.scrollDist);
    }
    var s := ScrollStage(d1, a.pk, a.tl);
    assert s.glide == d.glide;
    M.FractionStaysSmall(s.glide, DeltaInput(s, a.pk, a.tl));
  }

  lemma {:induction false} GlideOnAll(d: Driver, arrivals: seq<Arrival>, speed: real)
    requires Gliding(d) && Stroke(arrivals, speed)
    ensures var r := ProcessAll(d, arrivals);
            && Gliding(r)
            && r.glide.count == d.glide.count + |arrivals|
            && r.glide.samples == d.glide.samples + Positions(arrivals, d.pad.lastX, d.pad.lastY)
            && (arrivals != [] ==>
                  && r.pad.lastX == Known(arrivals, |arrivals| - 1, d.pad.lastX, true)
                  && r.pad.lastY == Known(arrivals, |arrivals| - 1, d.pad.lastY, false))
    ensures BetweenResets(d, arrivals) && NoClickpad(arrivals)
    ensures M.SteadyStroke(Inputs(d, arrivals), speed)
    decreases |arrivals|
  {
    hide Process, ScrollStage, GestureStage, M.SmallFrac, Positions, Known;
    NoPositions(d.pad.lastX, d.pad.lastY);
    if arrivals != [] {
      var a := arrivals[0];
      var r := Process(d, a.pk, a.tl, a.clickpadPressed);
      GlideOn(d, a, speed);
      GlideOnAll(r, arrivals[1..], speed);
      PositionsCons(arrivals, d.pad.lastX, d.pad.lastY);
      LastKnownCons(arrivals, d.pad.lastX, d.pad.lastY);
      SteadyCons(Inputs(d, arrivals)[0], Inputs(r, arrivals[1..]), speed);
    }
  }

  lemma SteadyCons(i: M.Input, rest: seq<M.Input>, speed: real)
    requires i.active && i.speed == speed && M.SteadyStroke(rest, speed)
    ensures M.SteadyStroke([i] + rest, speed)
  {
  }

  lemma LastKnownCons(arrivals: seq<Arrival>, x: int, y: int)
    requires arrivals != []
    ensures var n := |arrivals| - 1;
            && Known(arrivals, 0, x, true) == Known([arrivals[0]], 0, x, true)
            && Known(arrivals, 0, y, false) == Known([arrivals[0]], 0, y, false)
            && (n > 0 ==>
                  && Known(arrivals, n, x, true) == Known(arrivals[1..], n - 1, Known(arrivals, 0, x, true), true)
                  && Known(arrivals, n, y, false) == Known(arrivals[1..], n - 1, Known(arrivals, 0, y, false), false))
  {
    var n := |arrivals| - 1;
    if n > 0 {
      KnownCons(arrivals, n, x, true);
      KnownCons(arrivals, n, y, false);
    }
  }

  /** Where the finger was at three packets from the k-th on, smoothed. */
  function Mean(arrivals: seq<Arrival>, k: nat, before: int, horizontal: bool): real
    requires k + 2 < |arrivals|
  {
    Known(arrivals, k, before, horizontal) as real * 0.3
    + Known(arrivals, k + 1, before, horizontal) as real * 0.4
    + Known(arrivals, k + 2, before, horizontal) as real * 0.3
  }

  function LastKnown(d: Driver, horizontal: bool): int {
    if horizontal then d.pad.lastX else d.pad.lastY
  }

  lemma SmoothedIsMean(samples: seq<M.Sample>, all: seq<Arrival>, n: nat, d: Driver, horizontal: bool)
    requires 3 <= n <= |all|
    ensures M.Smoothed(samples + Positions(all, d.pad.lastX, d.pad.lastY)[..n], horizontal)
            == Mean(all, n - 3, LastKnown(d, horizontal), horizontal)
  {
    hide Known;
    var positions := Positions(all, d.pad.lastX, d.pad.lastY);
    var list := samples + positions[..n];
    forall k | 0 <= k < 3 ensures M.Past(list, k) == positions[n - 1 - k] {
    }
  }

  /** The pointer follows the finger: from the third packet of a stroke on, on
      whatever path and with whatever coordinates missing, the moves sent on each
      axis add up to speed times the way of the finger on that axis, to within two
      units. */
  lemma PointerFollowsFinger(d: Driver, first: seq<Arrival>, rest: seq<Arrival>, speed: real, horizontal: bool)
    requires Gliding(d) && |first| == 3 && Stroke(first + rest, speed)
    ensures var m := ProcessAll(d, first);
            var r := ProcessAll(m, rest);
            var all, before := first + rest, LastKnown(d, horizontal);
            var way := Mean(all, |all| - 3, before, horizontal) - Mean(all, 0, before, horizontal);
            -2.0 < (Sum(r.moves, horizontal) - Sum(m.moves, horizontal)) as real - way * speed < 2.0
  {
    hide ProcessAll, Mean, M.Smoothed, Sum, BetweenResets, M.SteadyStroke, Stroke, Gliding, NoClickpad, Positions, Known;
    var all := first + rest;
    var positions := Positions(all, d.pad.lastX, d.pad.lastY);
    StrokeParts(first, rest, speed);
    GlideOnAll(d, first, speed);
    var m := ProcessAll(d, first);
    MovesOfStroke(m, rest, speed, horizontal);
    PositionsAppend(first, rest, d.pad.lastX, d.pad.lastY);
    SmoothedIsMean(d.glide.samples, all, 3, d, horizontal);
    SmoothedIsMean(d.glide.samples, all, |all|, d, horizontal);
    SplitSamples(d.glide.samples, positions, m.glide.samples, ProcessAll(m, rest).glide.samples);
  }

  lemma SplitSamples(samples: seq<M.Sample>, positions: seq<M.Sample>, middle: seq<M.Sample>, end: seq<M.Sample>)
    requires |positions| >= 3 && middle == samples + positions[..3] && end == middle + positions[3..]
    ensures end == samples + positions[..|positions|]
  {
  }

  lemma PositionsAppend(a: seq<Arrival>, b: seq<Arrival>, x: int, y: int)
    requires a != []
    ensures var n := |a| - 1;
            && |Positions(a + b, x, y)| == |a| + |b|
            && Positions(a + b, x, y)[..|a|] == Positions(a, x, y)
            && Positions(a + b, x, y)[|a|..] == Positions(b, Known(a, n, x, true), Known(a, n, y, false))
  {
    hide Known;
    forall k | 0 <= k < |a|
      ensures Known(a + b, k, x, true) == Known(a, k, x, true) && Known(a + b, k, y, false) == Known(a, k, y, false)
    {
      KnownPrefix(a, b, k, x, true);
      KnownPrefix(a, b, k, y, false);
    }
    forall j | |a| <= j < |a + b|
      ensures Known(a + b, j, x, true) == Known(b, j - |a|, Known(a, |a| - 1, x, true), true)
      ensures Known(a + b, j, y, false) == Known(b, j - |a|, Known(a, |a| - 1, y, false), false)
    {
      KnownSuffix(a, b, j - |a|, x, true);
      KnownSuffix(a, b, j - |a|, y, false);
    }
  }

  lemma {:induction false} KnownPrefix(a: seq<Arrival>, b: seq<Arrival>, k: nat, before: int, horizontal: bool)
    requires k < |a|
    ensures Known(a + b, k, before, horizontal) == Known(a, k, before, horizontal)
  {
    if k > 0 {
      KnownPrefix(a, b, k - 1, before, horizontal);
    }
  }

  lemma {:induction false} KnownSuffix(a: seq<Arrival>, b: seq<Arrival>, k: nat, before: int, horizontal: bool)
    requires a != [] && k < |b|
    ensures Known(a + b, |a| + k, before, horizontal) == Known(b, k, Known(a, |a| - 1, before, horizontal), horizontal)
  {
    if k > 0 {
      KnownSuffix(a, b, k - 1, before, horizontal);
    } else {
      KnownPrefix(a, b, |a| - 1, before, horizontal);
    }
  }

  lemma MovesOfStroke(m: Driver, rest: seq<Arrival>, speed: real, horizontal: bool)
    requires Gliding(m) && m.glide.count >= 3 && Stroke(rest, speed)
    ensures var r := ProcessAll(m, rest);
            && |m.glide.samples| >= 3 && r.glide.samples == m.glide.samples + Positions(rest, m.pad.lastX, m.pad.lastY)
            && var way := M.Smoothed(r.glide.samples, horizontal) - M.Smoothed(m.glide.samples, horizontal);
               -2.0 < (Sum(r.moves, horizontal) - Sum(m.moves, horizontal)) as real - way * speed < 2.0
  {
    hide ProcessAll, M.Smoothed, Sum, BetweenResets, M.SteadyStroke, Inputs, M.ComputeAll, M.Travel, M.SmallFrac;
    hide Positions, Known;
    GlideOnAll(m, rest, speed);
    MovesAreDeltas(m, rest, horizontal);
    M.StrokeDoesNotDrift(m.glide, Inputs(m, rest), speed, horizontal);
    StrokeFeedsEstimator(m, rest);
  }

  lemma StrokeParts(first: seq<Arrival>, rest: seq<Arrival>, speed: real)
    requires Stroke(first + rest, speed)
    ensures Stroke(first, speed) && Stroke(rest, speed)
  {
    assert forall i | 0 <= i < |first| :: (first + rest)[i] == first[i];
    assert forall i | 0 <= i < |rest| :: (first + rest)[|first| + i] == rest[i];
  }

  // ----- The start of a stroke --------------------------------------------

  /** The count of a stroke starts anew with it. */
  ghost predicate CountsStrokes(d: Driver) {
    Backed(d) && M.SmallFrac(d.glide) && (d.pad.tap.Moving? || d.pad.tap.Drag? || d.glide.count == 0)
  }

  lemma {:induction false} RunCountsStrokes(d: Driver, hs: seq<Happening>)
    requires CountsStrokes(d)
    ensures CountsStrokes(HappenAll(d, hs))
    decreases |hs|
  {
    hide CountsStrokes, Happen;
    CountingIsBacked(d);
    if hs != [] {
      HappeningCountsStrokes(d, hs[0]);
      RunCountsStrokes(Happen(d, hs[0]), hs[1..]);
    }
  }

  lemma CountingIsBacked(d: Driver)
    requires CountsStrokes(d)
    ensures Backed(d)
  {
  }

  lemma HappeningCountsStrokes(d: Driver, h: Happening)
    requires CountsStrokes(d)
    ensures CountsStrokes(Happen(d, h))
  {
    hide G.Handle, S.Handle, M.Carried, M.Delta, WheelEvents;
    if h.Arrived? && !d.pad.off {
      var s := ScrollStage(GestureStage(d, h.a.pk, h.a.tl), h.a.pk, h.a.tl);
      M.FractionStaysSmall(s.glide, DeltaInput(s, h.a.pk, h.a.tl));
    }
  }

  /** The packet with which a touching finger strays is the first of a stroke: it
      sends no motion. */
  lemma StrokeBegins(d: Driver, a: Arrival, speed: real)
    requires CountsStrokes(d) && d.pad.tap.Touching? && d.pad.lastFinger && !d.pad.off && !d.scroll.on
    requires StrokePacket(a, speed) && G.Moved(d.pad, a.pk, a.tl)
    ensures var r := Process(d, a.pk, a.tl, a.clickpadPressed);
            && Gliding(r) && r.glide.count == 1 && r.moves == d.moves
            && r.pad.lastX == Known([a], 0, d.pad.lastX, true) && r.pad.lastY == Known([a], 0, d.pad.lastY, false)
            && r.glide.samples == d.glide.samples + [M.Sample(r.pad.lastX, r.pad.lastY, a.pk.time)]
  {
    hide S.Handle, WheelEvents;
    var d1 := GestureStage(d, a.pk, a.tl);
    if a.tl.scrolling {
      ScrollStaysOff(d1.scroll, d1.glide.samples, ScrollTouch(d1.pad, a.pk, a.tl), a.tl.scrollDist);
    }
    var i := DeltaInput(ScrollStage(d1, a.pk, a.tl), a.pk, a.tl);
    NothingAtFirst(d.glide, i);
    assert d.moves + [] == d.moves;
  }

  lemma NothingAtFirst(g: M.Glide, i: M.Input)
    requires M.Counted(g) && M.SmallFrac(g) && g.count == 0 && i.active
    ensures M.Delta(g, i, true) == 0 && M.Delta(g, i, false) == 0
    ensures M.Carried(g, i, true) == g.fracX && M.Carried(g, i, false) == g.fracY
    ensures M.Compute(g, i).count == 1
  {
  }

  /** The second and the third packet of a stroke are estimated from two samples
      each: together they intend four tenths of the way. */
  lemma StartIntends(g: M.Glide, i: M.Input, j: M.Input, horizontal: bool)
    requires M.Counted(g) && g.count == 1 && i.active && j.active && i.speed == j.speed
    ensures M.Intended(g, [i, j], horizontal)
            == 0.4 * (j.at.At(horizontal) - M.Past(g.samples, 0).At(horizontal)) as real * i.speed
  {
    hide M.Carried;
    var h := M.Compute(g, i);
    assert M.Past(h.samples, 0) == i.at;
    var a, b, c := M.Past(g.samples, 0).At(horizontal) as real, i.at.At(horizontal) as real, j.at.At(horizontal) as real;
    assert [i, j][1..] == [j] && [j][1..] == [];
    assert M.Intended(M.Compute(h, j), [], horizontal) == 0.0;
    assert M.Intended(h, [j], horizontal) == M.Scaled(h, j, horizontal);
    assert M.Scaled(g, i, horizontal) == (b - a) * 0.4 * i.speed;
    assert M.Scaled(h, j, horizontal) == (c - b) * 0.4 * i.speed;
  }

  /** From a stroke's first packet to its third the pointer moves by four tenths
      of the way of the finger, at its speed, to within two units. */
  lemma StrokeStartsSlowly(d: Driver, a: Arrival, b: Arrival, c: Arrival, speed: real, horizontal: bool)
    requires CountsStrokes(d) && d.pad.tap.Touching? && d.pad.lastFinger && !d.pad.off && !d.scroll.on
    requires Stroke([a, b, c], speed) && G.Moved(d.pad, a.pk, a.tl)
    ensures var r := ProcessAll(Process(d, a.pk, a.tl, a.clickpadPressed), [b, c]);
            var way := Known([a, b, c], 2, LastKnown(d, horizontal), horizontal)
                       - Known([a, b, c], 0, LastKnown(d, horizontal), horizontal);
            && Gliding(r)
            && -2.0 < (Sum(r.moves, horizontal) - Sum(d.moves, horizontal)) as real - 0.4 * way as real * speed < 2.0
  {
    hide Process, M.Intended, M.Travel, Sum, BetweenResets, Gliding, M.SmallFrac, CountsStrokes, G.Moved;
    CountingIsBacked(d);
    assert [a, b, c][0] == a && [a, b, c][1..] == [b, c];
    StrokeBegins(d, a, speed);
    var m := Process(d, a.pk, a.tl, a.clickpadPressed);
    StrokeParts([a], [b, c], speed);
    assert [a] + [b, c] == [a, b, c];
    GlideOnAll(m, [b, c], speed);
    KnownCons([a, b, c], 2, LastKnown(d, horizontal), horizontal);
    GlidingIsBacked(m);
    TwoInputs(m, b, c, speed);
    SentMotionIsConserved(m, [b, c], horizontal);
    var ins := Inputs(m, [b, c]);
    StartIntends(m.glide, ins[0], ins[1], horizontal);
    assert ins == [ins[0], ins[1]];
    GlidingIsBacked(ProcessAll(m, [b, c]));
  }

  lemma GlidingIsBacked(d: Driver)
    requires Gliding(d)
    ensures Backed(d) && M.SmallFrac(d.glide) && M.Counted(d.glide)
    ensures -1.0 < d.glide.fracX < 1.0 && -1.0 < d.glide.fracY < 1.0
  {
  }

  /** What two packets of a stroke feed to the estimator. */
  lemma TwoInputs(d: Driver, b: Arrival, c: Arrival, speed: real)
    requires Gliding(d) && Stroke([b, c], speed)
    ensures var ins := Inputs(d, [b, c]);
            && |ins| == 2 && ins[0].active && ins[1].active && ins[0].speed == speed && ins[1].speed == speed
            && ins[1].at.x == Known([b, c], 1, d.pad.lastX, true)
            && ins[1].at.y == Known([b, c], 1, d.pad.lastY, false)
  {
    hide Process, Gliding;
    assert [b, c][0] == b && [b, c][1] == c && [b, c][1..] == [c] && [c][1..] == [];
    GlideOn(d, b, speed);
    var r := Process(d, b.pk, b.tl, b.clickpadPressed);
    GlideOn(r, c, speed);
    GlidingIsBacked(r);
    GlidingIsBacked(d);
    InputIsAt(r, c);
    KnownCons([b, c], 1, d.pad.lastX, true);
    KnownCons([b, c], 1, d.pad.lastY, false);
    assert Inputs(Process(r, c.pk, c.tl, c.clickpadPressed), []) == [];
  }

  lemma InputIsAt(d: Driver, a: Arrival)
    requires Backed(d)
    ensures var i := DeltaInput(ScrollStage(GestureStage(d, a.pk, a.tl), a.pk, a.tl), a.pk, a.tl);
            i.at.x == Known([a], 0, d.pad.lastX, true) && i.at.y == Known([a], 0, d.pad.lastY, false)
  {
    hide S.Handle, WheelEvents;
  }

  // ----- When nothing is sent ---------------------------------------------

  /** A packet that finds the pad at rest leaves no fraction behind. */
  lemma RestClearsFractions(d: Driver, a: Arrival)
    requires Backed(d) && !d.pad.off && (d.pad.tap.Start? || d.pad.tap.SingleTapPending?)
    ensures Process(d, a.pk, a.tl, a.clickpadPressed).glide.fracX == 0.0
    ensures Process(d, a.pk, a.tl, a.clickpadPressed).glide.fracY == 0.0
  {
    hide S.Handle, WheelEvents, M.Delta, M.Scaled;
  }

  /** The pointer rests while the finger neither moves it nor drags, and while it
      scrolls; and what a pressed clickpad computes on its bottom edge is not
      sent. */
  lemma PointerRests(d: Driver, a: Arrival)
    requires Backed(d) && !d.pad.off
    ensures var r := Process(d, a.pk, a.tl, a.clickpadPressed);
            && (r.scroll.on || !(r.pad.tap.Moving? || r.pad.tap.Drag?) ==> r.moves == d.moves)
            && (a.clickpadPressed && Known([a], 0, d.pad.lastY, false) > a.tl.bottomEdge ==> r.moves == d.moves)
  {
    hide G.Handle, S.Handle, WheelEvents, M.Scaled, M.Carried;
    GesturesKeepLast(d.pad, a.pk, a.tl);
    assert d.moves + [] == d.moves;
  }

  lemma GesturesKeepLast(p: G.Pad, pk: Packet, tl: Limits)
    ensures G.Handle(p, pk, tl).lastX == p.lastX && G.Handle(p, pk, tl).lastY == p.lastY
  {
  }

  /** Otherwise a pressed clickpad makes no difference. */
  lemma ClickpadMutesOnlyItsEdge(d: Driver, a: Arrival)
    requires Backed(d) && Known([a], 0, d.pad.lastY, false) <= a.tl.bottomEdge
    ensures Process(d, a.pk, a.tl, true) == Process(d, a.pk, a.tl, false)
  {
    hide G.Handle, S.Handle, WheelEvents, M.Delta, M.Carried;
    GesturesKeepLast(d.pad, a.pk, a.tl);
  }

  /** No empty move is ever sent. */
  lemma NoEmptyMoves(d: Driver, a: Arrival)
    requires Backed(d) && (0, 0) !in d.moves
    ensures (0, 0) !in Process(d, a.pk, a.tl, a.clickpadPressed).moves
  {
    hide G.Handle, S.Handle, WheelEvents, M.Delta, M.Carried;
  }

  // ----- The wheel --------------------------------------------------------

  /** The notches that were sent, up counted positively. */
  function Net(wheel: seq<int>): int {
    if wheel == [] then 0 else Net(wheel[..|wheel| - 1]) + wheel[|wheel| - 1]
  }

  lemma NetSnoc(wheel: seq<int>, v: int)
    ensures Net(wheel + [v]) == Net(wheel) + v
  {
    assert (wheel + [v])[..|wheel|] == wheel;
  }

  lemma {:induction false} NetOfRepeat(wheel: seq<int>, n: nat, v: int)
    ensures Net(wheel + seq(n, _ => v)) == Net(wheel) + n * v
    decreases n
  {
    hide Net;
    if n == 0 {
      assert wheel + seq(0, _ => v) == wheel;
    } else {
      NetOfRepeat(wheel, n - 1, v);
      NetSnoc(wheel + seq(n - 1, _ => v), v);
      assert seq(n, _ => v) == seq(n - 1, _ => v) + [v];
      assert wheel + seq(n, _ => v) == (wheel + seq(n - 1, _ => v)) + [v];
    }
  }

  lemma NetOfEvents(wheel: seq<int>, w: S.Wheel)
    ensures Net(wheel + WheelEvents(w)) == Net(wheel) + w.up - w.down
  {
    NetOfRepeat(wheel, w.up, 1);
    NetOfRepeat(wheel + seq(w.up, _ => 1), w.down, -1);
    assert wheel + WheelEvents(w) == (wheel + seq(w.up, _ => 1)) + seq(w.down, _ => -1);
  }

  /** A packet of a finger on the right edge, clear of the corners. */
  predicate OnRightEdge(a: Arrival, step: int) {
    && a.pk.finger && a.tl.scrolling && a.tl.scrollDist == step
    && a.pk.x != a.tl.noX && a.pk.y != a.tl.noY
    && a.pk.x > a.tl.rightEdge && a.tl.topEdge <= a.pk.y <= a.tl.bottomEdge
  }

  /** During a scroll the reference point and the notches sent keep pace. */
  ghost predicate Scrolls(d: Driver, step: int, sum: int) {
    && Backed(d) && !d.pad.off && d.pad.lastFinger
    && d.scroll.on && d.scroll.autoSpeed == 0.0
    && d.scroll.y + step * Net(d.wheel) == sum
  }

  lemma LandingStartsScroll(d: Driver, a: Arrival, step: int)
    requires Backed(d) && !d.pad.off && !d.pad.lastFinger && OnRightEdge(a, step) && step > 0
    ensures var r := Process(d, a.pk, a.tl, a.clickpadPressed);
            Scrolls(r, step, a.pk.y + step * Net(d.wheel)) && r.scroll.y == a.pk.y && r.wheel == d.wheel
  {
    hide M.Compute, M.Delta, Net;
    assert WheelEvents(S.Wheel(0, 0)) == [];
    assert d.wheel + [] == d.wheel;
    var d1 := GestureStage(d, a.pk, a.tl);
    LandsOnEdge(d1.scroll, d1.glide.samples, ScrollTouch(d1.pad, a.pk, a.tl), step);
  }

  lemma LandsOnEdge(s: S.Scroll, samples: seq<M.Sample>, t: S.Touch, step: int)
    requires S.Sampled(s, samples) && step > 0
    requires t.landed && t.finger && t.edge.right && !t.edge.top && !t.edge.bottom
    ensures var (r, w) := S.Handle(s, samples, t, step);
            r.on && r.y == t.y && r.autoSpeed == 0.0 && w == S.Wheel(0, 0)
  {
  }

  lemma ScrollGoesOn(d: Driver, a: Arrival, step: int, sum: int)
    requires Scrolls(d, step, sum) && OnRightEdge(a, step) && step > 0
    ensures var r := Process(d, a.pk, a.tl, a.clickpadPressed);
            Scrolls(r, step, sum) && -step <= a.pk.y - r.scroll.y <= step
  {
    hide M.Compute, M.Delta, Net, WheelEvents, S.Handle;
    var d1 := GestureStage(d, a.pk, a.tl);
    var t := ScrollTouch(d1.pad, a.pk, a.tl);
    S.ScrollStepIsConserved(d1.scroll, d1.glide.samples, t, step);
    var (r, w) := S.Handle(d1.scroll, d1.glide.samples, t, step);
    NetOfEvents(d.wheel, w);
    Spread(step, Net(d.wheel), w.down, w.up);
  }

  lemma Spread(step: int, n: int, down: int, up: int)
    ensures step * (n + up - down) == step * n - step * (down - up)
  {
  }

  lemma {:induction false} ScrollGoesOnAll(d: Driver, arrivals: seq<Arrival>, step: int, sum: int)
    requires Scrolls(d, step, sum) && step > 0 && forall i | 0 <= i < |arrivals| :: OnRightEdge(arrivals[i], step)
    ensures var r := ProcessAll(d, arrivals);
            && Scrolls(r, step, sum)
            && (arrivals != [] ==> -step <= arrivals[|arrivals| - 1].pk.y - r.scroll.y <= step)
    decreases |arrivals|
  {
    hide Process, Net, OnRightEdge;
    if arrivals != [] {
      var a := arrivals[0];
      var r := Process(d, a.pk, a.tl, a.clickpadPressed);
      ScrollGoesOn(d, a, step, sum);
      ScrollGoesOnAll(r, arrivals[1..], step, sum);
      if arrivals[1..] == [] {
        assert ProcessAll(r, []) == r && arrivals[|arrivals| - 1] == a;
      }
    }
  }

  /** A landing finger starts a scroll exactly if it is on the right edge. */
  lemma LandingScrollsExactly(d: Driver, a: Arrival)
    requires Backed(d) && !d.pad.off && !d.pad.lastFinger && a.pk.finger && a.tl.scrolling
    ensures Process(d, a.pk, a.tl, a.clickpadPressed).scroll.on
            <==> Known([a], 0, d.pad.lastX, true) > a.tl.rightEdge
  {
    hide M.Compute, M.Delta, WheelEvents, S.StepsIn, S.UnitsIn;
  }

  /** The wheel follows the finger: from where a finger lands on the right edge,
      clear of the corners, the notches sent downwards times their step are the
      way down of the finger, to within one step. */
  lemma WheelFollowsFinger(d: Driver, land: Arrival, rest: seq<Arrival>, step: int)
    requires Backed(d) && !d.pad.off && !d.pad.lastFinger && step > 0 && rest != []
    requires OnRightEdge(land, step) && forall i | 0 <= i < |rest| :: OnRightEdge(rest[i], step)
    ensures var r := ProcessAll(Process(d, land.pk, land.tl, land.clickpadPressed), rest);
            var down := Net(d.wheel) - Net(r.wheel);
            -step <= rest[|rest| - 1].pk.y - land.pk.y - step * down <= step
  {
    hide Process, Net, ProcessAll, OnRightEdge;
    LandingStartsScroll(d, land, step);
    var m := Process(d, land.pk, land.tl, land.clickpadPressed);
    var sum := land.pk.y + step * Net(d.wheel);
    ScrollGoesOnAll(m, rest, step, sum);
    var r := ProcessAll(m, rest);
    Spread(step, 0, Net(d.wheel), Net(r.wheel));
    assert step * (Net(d.wheel) - Net(r.wheel)) == step * Net(d.wheel) - step * Net(r.wheel);
  }
}
