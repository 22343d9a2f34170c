/** `compute_deltas`: pointer motion estimated from a short history, scaled, and
    cut to whole units with the fraction carried over. */
module Motion {
  import opened TouchpadTypes

  /** `struct move_history_rec`. */
  datatype Sample = Sample(x: int, y: int, time: real) {
    function At(horizontal: bool): int {
      if horizontal then x else y
    }
  }

  /** The motion part of `struct touchpad_state`, with the plain list of all
      samples since the reset in place of the ring of four. */
  datatype Glide = Glide(fracX: real, fracY: real, count: nat, samples: seq<Sample>) {
    function Frac(horizontal: bool): real {
      if horizontal then fracX else fracY
    }
  }

  /** The k-th sample from the end. */
  function Past(samples: seq<Sample>, k: nat): Sample
    requires k < |samples|
  {
    samples[|samples| - 1 - k]
  }

  /** There has been a sample for every counted packet. */
  predicate Counted(g: Glide) {
    g.count <= |g.samples|
  }

  function EstimateDelta(x0: real, x1: real, x2: real, x3: real): real {
    x0 * 0.3 + x1 * 0.1 - x2 * 0.1 - x3 * 0.3
  }

  function EstimateDeltaPrevious(x0: real, x1: real): real {
    (x0 - x1) * 0.4
  }

  /** The estimate for the packet that brings the count to `count`. */
  function Estimate(samples: seq<Sample>, now: int, count: nat, horizontal: bool): real
    requires count <= |samples| + 1
  {
    if count > 3 then
      EstimateDelta(now as real, Past(samples, 0).At(horizontal) as real,
                    Past(samples, 1).At(horizontal) as real, Past(samples, 2).At(horizontal) as real)
    else if count > 1 then EstimateDeltaPrevious(now as real, Past(samples, 0).At(horizontal) as real)
    else 0.0
  }

  /** The integral part that `modf` returns: truncation towards zero. */
  function Trunc(r: real): int {
    if r >= 0.0 then r.Floor else -((-r).Floor)
  }

  /** One call of `compute_deltas`: the position after missing coordinates have
      been filled in, whether the finger is moving the pointer, the speed. */
  datatype Input = Input(at: Sample, active: bool, speed: real)

  function Scaled(g: Glide, i: Input, horizontal: bool): real
    requires Counted(g)
  {
    if i.active then Times(Estimate(g.samples, i.at.At(horizontal), g.count + 1, horizontal), i.speed) else 0.0
  }

  function Delta(g: Glide, i: Input, horizontal: bool): int
    requires Counted(g)
  {
    if i.active then Trunc(Scaled(g, i, horizontal) + g.Frac(horizontal)) else 0
  }

  function Carried(g: Glide, i: Input, horizontal: bool): real
    requires Counted(g)
  {
    if i.active then
      var d := Scaled(g, i, horizontal) + g.Frac(horizontal);
      d - Trunc(d) as real
    else g.Frac(horizontal)
  }

  function Compute(g: Glide, i: Input): (h: Glide)
    requires Counted(g)
    ensures Counted(h)
  {
    Glide(Carried(g, i, true), Carried(g, i, false), if i.active then g.count + 1 else 0, g.samples + [i.at])
  }

  function ComputeAll(g: Glide, ins: seq<Input>): (h: Glide)
    requires Counted(g)
    ensures Counted(h)
    decreases |ins|
  {
    if ins == [] then g else ComputeAll(Compute(g, ins[0]), ins[1..])
  }

  /** The deltas of a run of packets, added up on one axis. */
  function Travel(g: Glide, ins: seq<Input>, horizontal: bool): int
    requires Counted(g)
    decreases |ins|
  {
    if ins == [] then 0 else Delta(g, ins[0], horizontal) + Travel(Compute(g, ins[0]), ins[1..], horizontal)
  }

  /** The scaled estimates of a run, added up. */
  function Intended(g: Glide, ins: seq<Input>, horizontal: bool): real
    requires Counted(g)
    decreases |ins|
  {
    if ins == [] then 0.0 else Scaled(g, ins[0], horizontal) + Intended(Compute(g, ins[0]), ins[1..], horizontal)
  }

  ghost predicate SmallFrac(g: Glide) {
    -1.0 < g.fracX < 1.0 && -1.0 < g.fracY < 1.0
  }

  lemma TruncIsClose(r: real)
    ensures -1.0 < r - Trunc(r) as real < 1.0
    ensures r >= 0.0 ==> r - Trunc(r) as real >= 0.0
    ensures r <= 0.0 ==> r - Trunc(r) as real <= 0.0
  {
  }

  lemma FractionStaysSmall(g: Glide, i: Input)
    requires Counted(g) && SmallFrac(g)
    ensures SmallFrac(Compute(g, i))
  {
    TruncIsClose(Scaled(g, i, true) + g.fracX);
    TruncIsClose(Scaled(g, i, false) + g.fracY);
  }

  /** No motion is lost to rounding: over any run of packets, whatever their
      speeds, what was emitted plus the carried fraction is what was intended
      plus the fraction carried in; and the fraction stays below one. */
  lemma {:induction false} MotionIsConserved(g: Glide, ins: seq<Input>, horizontal: bool)
    requires Counted(g) && SmallFrac(g)
    ensures SmallFrac(ComputeAll(g, ins))
    ensures Travel(g, ins, horizontal) as real + ComputeAll(g, ins).Frac(horizontal)
            == g.Frac(horizontal) + Intended(g, ins, horizontal)
    decreases |ins|
  {
    if ins != [] {
      TruncIsClose(Scaled(g, ins[0], true) + g.fracX);
      TruncIsClose(Scaled(g, ins[0], false) + g.fracY);
      MotionIsConserved(Compute(g, ins[0]), ins[1..], horizontal);
    }
  }

  // ----- No drift ---------------------------------------------------------

  /** A weighted mean of the last three samples. */
  function Smoothed(samples: seq<Sample>, horizontal: bool): real
    requires |samples| >= 3
  {
    Past(samples, 0).At(horizontal) as real * 0.3
    + Past(samples, 1).At(horizontal) as real * 0.4
    + Past(samples, 2).At(horizontal) as real * 0.3
  }

  /** The four-point estimate is the step of the smoothed position. */
  lemma EstimateIsStep(samples: seq<Sample>, s: Sample, count: nat, horizontal: bool)
    requires |samples| >= 3 && 3 < count <= |samples| + 1
    ensures Estimate(samples, s.At(horizontal), count, horizontal)
            == Smoothed(samples + [s], horizontal) - Smoothed(samples, horizontal)
  {
    var after := samples + [s];
    assert Past(after, 0) == s && Past(after, 1) == Past(samples, 0) && Past(after, 2) == Past(samples, 1);
  }

  ghost predicate SteadyStroke(ins: seq<Input>, speed: real) {
    forall i | 0 <= i < |ins| :: ins[i].active && ins[i].speed == speed
  }

  lemma Telescope(a: real, b: real, c: real, speed: real)
    ensures (b - a) * speed + (c - b) * speed == (c - a) * speed
  {
  }

  lemma {:induction false} IntendedTelescopes(g: Glide, ins: seq<Input>, speed: real, horizontal: bool)
    requires Counted(g) && g.count >= 3 && SteadyStroke(ins, speed)
    ensures |ComputeAll(g, ins).samples| >= 3
    ensures Intended(g, ins, horizontal)
            == (Smoothed(ComputeAll(g, ins).samples, horizontal) - Smoothed(g.samples, horizontal)) * speed
    decreases |ins|
  {
    hide Smoothed, Estimate, Carried, Delta;
    if ins != [] {
      var h := Compute(g, ins[0]);
      EstimateIsStep(g.samples, ins[0].at, g.count + 1, horizontal);
      assert SteadyStroke(ins[1..], speed) by {
        assert forall i | 0 <= i < |ins[1..]| :: ins[1..][i] == ins[i + 1];
      }
      IntendedTelescopes(h, ins[1..], speed, horizontal);
      Telescope(Smoothed(g.samples, horizontal), Smoothed(h.samples, horizontal),
                Smoothed(ComputeAll(h, ins[1..]).samples, horizontal), speed);
    }
  }

  /** The pointer does not drift: during a stroke at constant speed it has
      travelled, to within two units, the scaled distance between the smoothed
      positions of the finger, whatever path the finger took. */
  lemma StrokeDoesNotDrift(g: Glide, ins: seq<Input>, speed: real, horizontal: bool)
    requires Counted(g) && SmallFrac(g) && g.count >= 3 && SteadyStroke(ins, speed)
    ensures |ComputeAll(g, ins).samples| >= 3
    ensures var way := (Smoothed(ComputeAll(g, ins).samples, horizontal) - Smoothed(g.samples, horizontal)) * speed;
            -2.0 < Travel(g, ins, horizontal) as real - way < 2.0
  {
    MotionIsConserved(g, ins, horizontal);
    IntendedTelescopes(g, ins, speed, horizontal);
  }

  // ----- The ring ---------------------------------------------------------

  const NUM_MOVE_HISTORY_REC := 4

  /** `move_hist` and `move_hist_index`. */
  class Ring {
    const hist: array<Sample>
    var index: int
    ghost var samples: seq<Sample>

    /** The last four samples are where `HIST` looks for them. */
    ghost predicate Valid()
      reads this, hist
    {
      && hist.Length == NUM_MOVE_HISTORY_REC
      && -1 <= index < NUM_MOVE_HISTORY_REC
      && (|samples| > 0 ==> index >= 0)
      && forall k | 0 <= k < NUM_MOVE_HISTORY_REC && k < |samples| :: hist[Slot(index, k)] == Past(samples, k)
    }

    /** The index that the macro `HIST` computes. */
    static function Slot(index: int, k: nat): (i: nat)
      requires k < NUM_MOVE_HISTORY_REC && -1 <= index < NUM_MOVE_HISTORY_REC
      ensures i < NUM_MOVE_HISTORY_REC
    {
      (index - k + NUM_MOVE_HISTORY_REC) % NUM_MOVE_HISTORY_REC
    }

    constructor ()
      ensures Valid() && samples == [] && fresh(hist)
    {
      hist := new Sample[NUM_MOVE_HISTORY_REC](_ => Sample(0, 0, 0.0));
      index := -1;
      samples := [];
    }

    /** `HIST(k)`. */
    method Hist(k: nat) returns (s: Sample)
      requires Valid() && k < NUM_MOVE_HISTORY_REC && k < |samples|
      ensures s == Past(samples, k)
    {
      s := hist[Slot(index, k)];
    }

    /** `store_history`. */
    method Store(s: Sample)
      requires Valid()
      modifies this, hist
      ensures Valid() && samples == old(samples) + [s]
    {
      ghost var before, earlier := samples, index;
      var idx := (index + 1) % NUM_MOVE_HISTORY_REC;
      hist[idx] := s;
      index := idx;
      samples := samples + [s];
      forall k | 0 <= k < NUM_MOVE_HISTORY_REC && k < |samples| ensures hist[Slot(index, k)] == Past(samples, k) {
        if k > 0 {
          assert Slot(index, k) == Slot(earlier, k - 1) != idx;
          assert Past(samples, k) == Past(before, k - 1);
        }
      }
    }
  }
}

/** `handle_scrolling`: finger travel along the right edge becomes wheel steps,
    and in a corner the steps go on at the speed of the finger. */
module Scrolling {
  import opened TouchpadTypes
  import opened Motion

  /** The scrolling part of `struct touchpad_state`; `timer` and `upward` are
      `is_autoscroll_timer_set` and `current_scroll_type`. */
  datatype Scroll = Scroll(
    on: bool, y: int, packets: nat, autoSpeed: real, autoY: real, timer: bool, upward: bool)

  /** `up` and `down` of `struct scroll_data`. */
  datatype Wheel = Wheel(up: nat, down: nat)

  /** Whole steps in a distance, leaving the last one, up to its full length,
      for later. */
  function StepsIn(gap: int, step: int): (n: nat)
    requires step > 0
    ensures gap <= step ==> n == 0
    decreases gap
  {
    if gap > step then 1 + StepsIn(gap - step, step) else 0
  }

  lemma {:induction false} StepsLeaveLess(gap: int, step: int)
    requires step > 0 && gap > step
    ensures 0 < gap - step * StepsIn(gap, step) <= step
    decreases gap
  {
    var n := StepsIn(gap - step, step);
    assert step * (1 + n) == step + step * n;
    if gap - step > step {
      StepsLeaveLess(gap - step, step);
    }
  }

  function UnitsIn(gap: real): (n: nat)
    ensures gap <= 1.0 ==> n == 0
    ensures gap > 1.0 ==> 0.0 < gap - n as real <= 1.0
    decreases if gap > 1.0 then gap.Floor else 0
  {
    if gap > 1.0 then 1 + UnitsIn(gap - 1.0) else 0
  }

  /** What one packet brings to the scroller: the filled-in height, whether the
      finger touches and has just come down, where it is, and when. */
  datatype Touch = Touch(y: int, finger: bool, landed: bool, edge: Edge, time: real)

  function Stop(s: Scroll): Scroll {
    s.(autoSpeed := 0.0, packets := 0)
  }

  /** Switching vertical scrolling and corner scrolling on and off. */
  function Switches(s: Scroll, t: Touch): Scroll {
    var s1 := if t.landed then
                if t.edge.right then Stop(s).(on := true, y := t.y) else Stop(s)
              else s;
    var s2 := if s1.on && (!t.edge.right || !t.finger) then s1.(on := false) else s1;
    var s3 := if s2.autoSpeed != 0.0 && (!t.finger || !Corner(t)) then Stop(s2) else s2;
    if !t.finger || !Corner(t) then s3.(timer := false) else s3
  }

  predicate Corner(t: Touch) {
    t.edge.right && (t.edge.top || t.edge.bottom)
  }

  /** `start_corner_scrolling`.  The timer is set in a scroll that has lasted,
      even when there is no speed to go on with. */
  function StartCorner(s: Scroll, samples: seq<Sample>, t: Touch, step: int): Scroll
    requires s.packets <= |samples|
  {
    var elapsed := if s.packets > 3 then Past(samples, 0).time - Past(samples, 3).time else 0.0;
    var armed := if s.packets > 3 then s.(timer := true, upward := t.y < s.y) else s;
    if elapsed > 0.0 && step > 0 then
      armed.(autoSpeed := (Past(samples, 0).y - Past(samples, 3).y) as real / elapsed / step as real,
         autoY := (t.y - s.y) as real / step as real,
         packets := 0)
    else armed.(autoY := 0.0, packets := 0)
  }

  function Prepare(s: Scroll, samples: seq<Sample>, t: Touch, step: int): Scroll
    requires s.packets <= |samples|
  {
    var s1 := Switches(s, t);
    var s2 := if s1.on && Corner(t) && s1.autoSpeed == 0.0 then StartCorner(s1, samples, t, step) else s1;
    if s2.on then s2.(packets := s2.packets + 1) else s2
  }

  function VerticalWheel(s: Scroll, t: Touch, step: int): Wheel {
    if s.on && step > 0 then
      var down := StepsIn(t.y - s.y, step);
      Wheel(StepsIn(s.y + step * down - t.y, step), down)
    else Wheel(0, 0)
  }

  /** The loops that follow the finger. */
  function Follow(s: Scroll, t: Touch, step: int): Scroll {
    var w := VerticalWheel(s, t, step);
    s.(y := s.y + step * (w.down - w.up))
  }

  /** How far corner scrolling has come with this packet. */
  function AutoReach(s: Scroll, samples: seq<Sample>, t: Touch): real
    requires s.autoSpeed != 0.0 ==> samples != []
  {
    if s.autoSpeed != 0.0 && t.time - Past(samples, 0).time < 0.2 then
      s.autoY + Times(s.autoSpeed, t.time - Past(samples, 0).time)
    else s.autoY
  }

  function AutoWheel(s: Scroll, samples: seq<Sample>, t: Touch): Wheel
    requires s.autoSpeed != 0.0 ==> samples != []
  {
    if s.autoSpeed != 0.0 && t.time - Past(samples, 0).time < 0.2 then
      var reach := AutoReach(s, samples, t);
      var down := UnitsIn(reach);
      Wheel(UnitsIn(-(reach - down as real)), down)
    else Wheel(0, 0)
  }

  /** Holds between packets: the samples that corner scrolling reads exist. */
  predicate Sampled(s: Scroll, samples: seq<Sample>) {
    s.packets <= |samples| && (s.autoSpeed != 0.0 ==> samples != [])
  }

  function AutoFollow(s: Scroll, samples: seq<Sample>, t: Touch): Scroll
    requires s.autoSpeed != 0.0 ==> samples != []
  {
    var w := AutoWheel(s, samples, t);
    s.(autoY := AutoReach(s, samples, t) - w.down as real + w.up as real)
  }

  /** `handle_scrolling` for one packet. */
  function Handle(s: Scroll, samples: seq<Sample>, t: Touch, step: int): (r: (Scroll, Wheel))
    requires Sampled(s, samples)
    ensures r.0.packets <= |samples| + 1 && (r.0.autoSpeed != 0.0 ==> samples != [])
  {
    var s1 := Prepare(s, samples, t, step);
    var s2 := Follow(s1, t, step);
    var v, a := VerticalWheel(s1, t, step), AutoWheel(s2, samples, t);
    (AutoFollow(s2, samples, t), Wheel(v.up + a.up, v.down + a.down))
  }

  // ----- Conservation -----------------------------------------------------

  lemma FollowCatchesUp(s: Scroll, t: Touch, step: int)
    requires s.on && step > 0
    ensures var r, w := Follow(s, t, step), VerticalWheel(s, t, step);
            && r.y - s.y == step * (w.down - w.up)
            && -step <= t.y - r.y <= step
            && (w.up == 0 || w.down == 0)
  {
    hide StepsIn;
    var w := VerticalWheel(s, t, step);
    if t.y - s.y > step {
      StepsLeaveLess(t.y - s.y, step);
      assert w.up == 0;
    } else {
      assert w.down == 0;
      if s.y - t.y > step {
        StepsLeaveLess(s.y - t.y, step);
      }
      assert step * (0 - w.up) == -(step * w.up);
    }
  }

  /** A finger that stays on the right edge, away from its corners. */
  predicate OnTheEdge(t: Touch) {
    t.finger && !t.landed && t.edge.right && !t.edge.top && !t.edge.bottom
  }

  /** The steps of one packet of a vertical scroll: the reference point moves by
      whole steps, one for each wheel event, and comes within a step of the
      finger. */
  lemma ScrollStepIsConserved(s: Scroll, samples: seq<Sample>, t: Touch, step: int)
    requires Sampled(s, samples) && s.on && s.autoSpeed == 0.0 && step > 0 && OnTheEdge(t)
    ensures var (r, w) := Handle(s, samples, t, step);
            && r.on && r.autoSpeed == 0.0 && !r.timer && r.packets == s.packets + 1
            && r.y == s.y + step * (w.down - w.up)
            && -step <= t.y - r.y <= step
            && (w.up == 0 || w.down == 0)
  {
    FollowCatchesUp(Prepare(s, samples, t, step), t, step);
  }

  /** A scroll as it goes on: touches with the samples stored in between. */
  function ScrollOn(s: Scroll, samples: seq<Sample>, ts: seq<(Touch, Sample)>, step: int): (Scroll, int)
    requires Sampled(s, samples)
    decreases |ts|
  {
    if ts == [] then (s, 0)
    else
      var (r, w) := Handle(s, samples, ts[0].0, step);
      var (q, net) := ScrollOn(r, samples + [ts[0].1], ts[1..], step);
      (q, w.down - w.up + net)
  }

  /** Over a whole vertical scroll, wheel events account exactly for the way of
      the reference point, which ends within a step of the finger. */
  lemma {:induction false} ScrollIsConserved(s: Scroll, samples: seq<Sample>, ts: seq<(Touch, Sample)>, step: int)
    requires Sampled(s, samples) && s.on && s.autoSpeed == 0.0 && step > 0
    requires forall i | 0 <= i < |ts| :: OnTheEdge(ts[i].0)
    ensures var (r, net) := ScrollOn(s, samples, ts, step);
            && r.on && r.autoSpeed == 0.0 && r.y == s.y + step * net && r.packets == s.packets + |ts|
            && (ts != [] ==> -step <= ts[|ts| - 1].0.y - r.y <= step)
    decreases |ts|
  {
    hide Handle;
    if ts != [] {
      ScrollStepIsConserved(s, samples, ts[0].0, step);
      var (r, w) := Handle(s, samples, ts[0].0, step);
      ScrollIsConserved(r, samples + [ts[0].1], ts[1..], step);
      var net := ScrollOn(r, samples + [ts[0].1], ts[1..], step).1;
      Distribute(step, w.down - w.up, net);
      assert ts[1..] != [] ==> ts[1..][|ts[1..]| - 1] == ts[|ts| - 1];
    }
  }

  lemma Distribute(step: int, a: int, b: int)
    ensures step * a + step * b == step * (a + b)
  {
  }

  /** In a corner too every wheel event is accounted for: what the finger's
      reference point and the automatic reach have advanced, less what is still
      to come. */
  lemma CornerScrollIsConserved(s: Scroll, samples: seq<Sample>, t: Touch, step: int)
    requires Sampled(s, samples) && step > 0
    ensures var (r, w) := Handle(s, samples, t, step);
            var p := Prepare(s, samples, t, step);
            var v := VerticalWheel(p, t, step);
            && r.y - p.y == step * (v.down - v.up)
            && (w.down - v.down - (w.up - v.up)) as real == AutoReach(Follow(p, t, step), samples, t) - r.autoY
            && (p.autoSpeed != 0.0 && t.time - Past(samples, 0).time < 0.2 ==> -1.0 <= r.autoY <= 1.0)
  {
    var p := Prepare(s, samples, t, step);
    var q := Follow(p, t, step);
    var reach := AutoReach(q, samples, t);
    assert UnitsIn(reach) > 0 ==> reach - UnitsIn(reach) as real > 0.0;
  }

  // ----- The autoscroll timer --------------------------------------------

  /** After a packet the autoscroll timer is set only if the finger is in a
      corner. */
  lemma TimerOnlyInCorner(s: Scroll, samples: seq<Sample>, t: Touch, step: int)
    requires Sampled(s, samples)
    ensures Handle(s, samples, t, step).0.timer ==> t.finger && Corner(t)
  {
    hide StepsIn, UnitsIn;
  }

  /** A scroll that reaches a corner sets the timer exactly if it has lasted for
      more than three packets, and then in the direction of the finger. */
  lemma CornerSetsTimerExactly(s: Scroll, samples: seq<Sample>, t: Touch, step: int)
    requires Sampled(s, samples) && s.on && s.autoSpeed == 0.0 && !s.timer
    requires t.finger && !t.landed && Corner(t)
    ensures var r := Handle(s, samples, t, step).0;
            (r.timer <==> s.packets > 3) && (r.timer ==> (r.upward <==> t.y < s.y))
  {
    hide StepsIn, UnitsIn;
  }

  // ----- The loops --------------------------------------------------------

  method FollowFinger(y: int, scrollY: int, step: int) returns (w: Wheel, newY: int)
    ensures step > 0 ==>
              w.down == StepsIn(y - scrollY, step) && w.up == StepsIn(scrollY + step * w.down - y, step)
    ensures step <= 0 ==> w == Wheel(0, 0)
    ensures newY == scrollY + step * (w.down - w.up)
  {
    w, newY := Wheel(0, 0), scrollY;
    if step > 0 {
      while y - newY > step
        invariant newY == scrollY + step * w.down && w.up == 0
        invariant w.down + StepsIn(y - newY, step) == StepsIn(y - scrollY, step)
        decreases y - newY
      {
        Distribute(step, w.down, 1);
        w := w.(down := w.down + 1);
        newY := newY + step;
      }
      ghost var down, low := w.down, newY;
      while y - newY < -step
        invariant w.down == down && newY == low - step * w.up
        invariant w.up + StepsIn(newY - y, step) == StepsIn(low - y, step)
        decreases newY - y
      {
        Distribute(step, w.up, 1);
        w := w.(up := w.up + 1);
        newY := newY - step;
      }
      Distribute(step, down - w.up, w.up);
    }
  }

  method FollowReach(reach: real) returns (w: Wheel, rest: real)
    ensures w.down == UnitsIn(reach) && w.up == UnitsIn(-(reach - w.down as real))
    ensures rest == reach - w.down as real + w.up as real
  {
    w, rest := Wheel(0, 0), reach;
    while rest > 1.0
      invariant rest == reach - w.down as real && w.up == 0
      invariant w.down + UnitsIn(rest) == UnitsIn(reach)
      decreases if rest > 1.0 then rest.Floor else 0
    {
      w := w.(down := w.down + 1);
      rest := rest - 1.0;
    }
    ghost var middle := rest;
    ghost var down := w.down;
    while rest < -1.0
      invariant w.down == down && rest == middle + w.up as real
      invariant w.up + UnitsIn(-rest) == UnitsIn(-middle)
      decreases if -rest > 1.0 then (-rest).Floor else 0
    {
      w := w.(up := w.up + 1);
      rest := rest + 1.0;
    }
  }
}
