/** Corner scrolling: where the finger has brought a scroll into a corner, the
    wheel goes on at the speed that the finger had. */
module TouchpadCorners {
  import opened TouchpadTypes
  import opened TouchpadDriver
  import opened TouchpadStrokes
  import M = Motion
  import S = Scrolling

  // ----- When nothing turns -----------------------------------------------

  /** Scrolling is on only while a finger is on the right edge, and without it
      and without corner scrolling the wheel does not turn. */
  lemma OnlyTheEdgeScrolls(s: S.Scroll, samples: seq<M.Sample>, t: S.Touch, step: int)
    requires S.Sampled(s, samples)
    ensures var (r, w) := S.Handle(s, samples, t, step);
            && (r.on ==> t.finger && t.edge.right)
            && (r.autoSpeed != 0.0 ==> t.finger && S.Corner(t))
            && (!r.on && r.autoSpeed == 0.0 ==> w == S.Wheel(0, 0))
            && (step <= 0 && r.autoSpeed == 0.0 ==> w == S.Wheel(0, 0))
  {
    hide S.StepsIn, S.UnitsIn;
  }

  /** The corners are the parts of the edge above its upper and below its lower
      bound. */
  lemma CornersAreTheEnds(x: int, y: int, tl: Limits, t: S.Touch)
    requires t.edge == DetectEdge(x, y, tl)
    ensures S.Corner(t) <==> x > tl.rightEdge && (y > tl.bottomEdge || y < tl.topEdge)
  {
  }

  // ----- The speed --------------------------------------------------------

  lemma Quotient(a: real, b: real, c: real)
    requires b != 0.0 && c != 0.0
    ensures Times(Times(a / b / c, b), c) == a
    ensures Times(a / c, c) == a
  {
    assert a / b * b == a;
    assert a / b / c * c == a / b;
    assert a / b / c * b * c == a / b / c * c * b;
  }

  /** A scroll of more than three packets that reaches a corner goes on at the
      speed of the finger over the last four: in the time they took it covers, in
      steps, the way they made; and it starts from how far the finger is ahead of
      the reference point.  A shorter one has no speed. */
  lemma CornerSpeedIsTheFingers(s: S.Scroll, samples: seq<M.Sample>, t: S.Touch, step: int)
    requires s.packets <= |samples| && s.autoSpeed == 0.0 && step > 0
    ensures var r := S.StartCorner(s, samples, t, step);
            && r.packets == 0 && r.y == s.y && r.on == s.on
            && (s.packets <= 3 ==> r.autoSpeed == 0.0 && r.autoY == 0.0)
            && (s.packets > 3 ==>
                  var elapsed := M.Past(samples, 0).time - M.Past(samples, 3).time;
                  if elapsed > 0.0 then
                    && Times(Times(r.autoSpeed, elapsed), step as real)
                       == (M.Past(samples, 0).y - M.Past(samples, 3).y) as real
                    && Times(r.autoY, step as real) == (t.y - s.y) as real
                  else r.autoSpeed == 0.0 && r.autoY == 0.0)
  {
    if s.packets > 3 {
      var elapsed := M.Past(samples, 0).time - M.Past(samples, 3).time;
      if elapsed > 0.0 {
        Quotient((M.Past(samples, 0).y - M.Past(samples, 3).y) as real, elapsed, step as real);
        Quotient((t.y - s.y) as real, elapsed, step as real);
      }
    }
  }

  // ----- The run ----------------------------------------------------------

  /** A finger that rests in a corner, packet after packet in good time. */
  predicate StaysInCorner(t: S.Touch, last: M.Sample, sample: M.Sample) {
    t.finger && !t.landed && S.Corner(t) && t.time - last.time < 0.2 && sample.time == t.time
  }

  function Previous(ts: seq<(S.Touch, M.Sample)>, last: M.Sample, i: nat): M.Sample
    requires i < |ts|
  {
    if i == 0 then last else ts[i - 1].1
  }

  predicate StayInCorner(ts: seq<(S.Touch, M.Sample)>, last: M.Sample) {
    forall i | 0 <= i < |ts| :: StaysInCorner(ts[i].0, Previous(ts, last, i), ts[i].1)
  }

  /** One packet: what the finger moves comes out in steps, and the automatic
      reach advances by the speed times the time. */
  lemma CornerPacket(s: S.Scroll, samples: seq<M.Sample>, t: S.Touch, sample: M.Sample, step: int)
    requires S.Sampled(s, samples) && s.on && s.autoSpeed != 0.0 && step > 0
    requires StaysInCorner(t, M.Past(samples, 0), sample)
    ensures var (r, w) := S.Handle(s, samples, t, step);
            && r.on && r.autoSpeed == s.autoSpeed && -1.0 <= r.autoY <= 1.0
            && -step <= t.y - r.y <= step
            && Accounted(s, r, w.down - w.up, t.time - M.Past(samples, 0).time, step)
  {
    hide S.StepsIn, S.UnitsIn, Times;
    S.CornerScrollIsConserved(s, samples, t, step);
    var p := S.Prepare(s, samples, t, step);
    S.FollowCatchesUp(p, t, step);
    var v := S.VerticalWheel(p, t, step);
    var (r, w) := S.Handle(s, samples, t, step);
    assert Accounts(s, r, w.down - w.up, v.down - v.up, t.time - M.Past(samples, 0).time, step);
  }

  /** Of `net` notches, `v` are for the way of the reference point and the rest
      for the automatic reach over some time. */
  ghost predicate Accounts(s: S.Scroll, r: S.Scroll, net: int, v: int, time: real, step: int) {
    && r.y - s.y == step * v
    && (net - v) as real == s.autoY + Times(s.autoSpeed, time) - r.autoY
  }

  ghost predicate Accounted(s: S.Scroll, r: S.Scroll, net: int, time: real, step: int) {
    exists v: int :: Accounts(s, r, net, v, time, step)
  }

  lemma AccountsAdd(s: S.Scroll, r: S.Scroll, q: S.Scroll, net: int, v: int, time: real,
                    net': int, v': int, time': real, step: int)
    requires r.autoSpeed == s.autoSpeed
    requires Accounts(s, r, net, v, time, step) && Accounts(r, q, net', v', time', step)
    ensures Accounts(s, q, net + net', v + v', time + time', step)
  {
    assert step * v + step * v' == step * (v + v');
    assert Times(s.autoSpeed, time) + Times(s.autoSpeed, time') == Times(s.autoSpeed, time + time');
  }

  /** The wheel goes on: while the finger stays in the corner, the notches sent
      downwards are those for the way of the reference point, which keeps within a
      step of the finger, and, to within one, speed times the time passed. */
  lemma {:induction false} CornerGoesOn(s: S.Scroll, samples: seq<M.Sample>, ts: seq<(S.Touch, M.Sample)>, step: int)
    requires S.Sampled(s, samples) && s.on && s.autoSpeed != 0.0 && step > 0
    requires StayInCorner(ts, M.Past(samples, 0)) && ts != []
    ensures var (r, net) := S.ScrollOn(s, samples, ts, step);
            && r.on && r.autoSpeed == s.autoSpeed && -1.0 <= r.autoY <= 1.0
            && -step <= ts[|ts| - 1].0.y - r.y <= step
            && Accounted(s, r, net, ts[|ts| - 1].0.time - M.Past(samples, 0).time, step)
    decreases |ts|
  {
    hide S.Handle, Accounts, StaysInCorner;
    var (t, sample) := ts[0];
    var last := M.Past(samples, 0);
    assert StaysInCorner(ts[0].0, Previous(ts, last, 0), ts[0].1);
    CornerPacket(s, samples, t, sample, step);
    var (r, w) := S.Handle(s, samples, t, step);
    var v: int :| Accounts(s, r, w.down - w.up, v, t.time - last.time, step);
    var rest, more := ts[1..], samples + [sample];
    assert M.Past(more, 0) == sample;
    if rest == [] {
      assert S.ScrollOn(r, more, rest, step) == (r, 0);
    } else {
      forall i | 0 <= i < |rest| ensures StaysInCorner(rest[i].0, Previous(rest, sample, i), rest[i].1) {
        assert StaysInCorner(ts[i + 1].0, Previous(ts, last, i + 1), ts[i + 1].1);
      }
      CornerGoesOn(r, more, rest, step);
      var (q, net) := S.ScrollOn(r, more, rest, step);
      var time := rest[|rest| - 1].0.time - sample.time;
      var v': int :| Accounts(r, q, net, v', time, step);
      SampleTime(t, last, sample);
      AccountsAdd(s, r, q, w.down - w.up, v, t.time - last.time, net, v', time, step);
      assert ts[|ts| - 1] == rest[|rest| - 1];
      assert t.time - last.time + time == ts[|ts| - 1].0.time - last.time;
      assert Accounts(s, q, w.down - w.up + net, v + v', ts[|ts| - 1].0.time - last.time, step);
    }
  }

  lemma SampleTime(t: S.Touch, last: M.Sample, sample: M.Sample)
    requires StaysInCorner(t, last, sample)
    ensures sample.time == t.time
  {
  }

  /** A packet that comes too late leaves the automatic notches to the timer. */
  lemma LatePacketAddsNothing(s: S.Scroll, samples: seq<M.Sample>, t: S.Touch)
    requires s.autoSpeed != 0.0 ==> samples != []
    requires s.autoSpeed != 0.0 ==> t.time - M.Past(samples, 0).time >= 0.2
    ensures S.AutoWheel(s, samples, t) == S.Wheel(0, 0) && S.AutoFollow(s, samples, t) == s
  {
  }

  // ----- The timer --------------------------------------------------------

  /** The timer turns the wheel the way the finger went: a scroll that brought it
      into the corner above the reference point goes on upwards, like the notches
      of a finger that moves up, and else downwards. */
  lemma TimerTurnsWithTheFinger(d: Driver, a: Arrival)
    requires Backed(d) && !d.pad.off && d.pad.lastFinger && a.tl.scrolling
    requires d.scroll.on && d.scroll.autoSpeed == 0.0 && !d.scroll.timer && d.scroll.packets > 3
    requires a.pk.finger && a.pk.x != a.tl.noX && a.pk.y != a.tl.noY
    requires a.pk.x > a.tl.rightEdge && (a.pk.y > a.tl.bottomEdge || a.pk.y < a.tl.topEdge)
    ensures var r := Process(d, a.pk, a.tl, a.clickpadPressed);
            && r.scroll.timer
            && Net(AutoScroll(r).wheel) == Net(r.wheel) + if a.pk.y < d.scroll.y then 1 else -1
  {
    hide S.Handle, M.Compute, M.Delta, WheelEvents, Net;
    var d1 := GestureStage(d, a.pk, a.tl);
    var t := ScrollTouch(d1.pad, a.pk, a.tl);
    CornersAreTheEnds(a.pk.x, a.pk.y, a.tl, t);
    S.CornerSetsTimerExactly(d1.scroll, d1.glide.samples, t, a.tl.scrollDist);
    var r := Process(d, a.pk, a.tl, a.clickpadPressed);
    NetSnoc(r.wheel, Notch(r.scroll.upward));
  }
}
