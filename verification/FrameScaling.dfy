/** Diverted pointers: the frames that `input_daemon_divert_mouse_focus`
    (`bus.c`) sets, and `mouse_outside_frame` and `scale_pointer_event`
    (`input.c`) that use them. */
module FrameScaling {
  import opened Multitouch

  const MAX_MOUSE_ABS := 0x7fff

  // ----- C arithmetic -----------------------------------------------------

  function ToUInt32(v: int): int {
    v % 0x1_0000_0000
  }

  function ToInt32(v: int): int {
    var u := ToUInt32(v);
    if u < 0x8000_0000 then u else u - 0x1_0000_0000
  }

  /** A product, named so that proofs can leave it alone. */
  function Mul(a: int, b: int): int {
    a * b
  }

  /** A quotient of naturals, named likewise. */
  function Quot(a: nat, b: nat): nat
    requires b != 0
  {
    a / b
  }

  /** Division of ints, truncated towards zero. */
  function CDiv(a: int, b: int): int
    requires b != 0
  {
    var q: int := Quot(if a < 0 then -a else a, if b < 0 then -b else b);
    if (a < 0) == (b < 0) then q else -q
  }

  lemma MulMonotone(a: int, b: int, c: int)
    requires a <= b && 0 <= c
    ensures Mul(a, c) <= Mul(b, c)
  {
  }

  lemma MulCommutes(a: int, b: int)
    ensures Mul(a, b) == Mul(b, a)
  {
  }

  lemma MulOneMore(a: int, b: int)
    ensures Mul(a + 1, b) == Mul(a, b) + b
    ensures Mul(0, b) == 0
  {
  }

  /** What a quotient is: the last multiple that fits. */
  lemma QuotFacts(a: nat, c: nat)
    requires 0 < c
    ensures Mul(Quot(a, c), c) <= a < Mul(Quot(a, c), c) + c
  {
    assert a == a / c * c + a % c;
  }

  lemma QuotIs(a: nat, c: nat, q: nat)
    requires 0 < c && Mul(q, c) <= a < Mul(q, c) + c
    ensures Quot(a, c) == q
  {
    hide Mul, Quot;
    var r := Quot(a, c);
    QuotFacts(a, c);
    if r < q {
      MulMonotone(r + 1, q, c);
      MulOneMore(r, c);
    } else if q < r {
      MulMonotone(q + 1, r, c);
      MulOneMore(q, c);
    }
  }

  lemma QuotMonotone(a: nat, b: nat, c: nat)
    requires a <= b && 0 < c
    ensures Quot(a, c) <= Quot(b, c)
  {
    hide Mul, Quot;
    QuotFacts(a, c);
    QuotFacts(b, c);
    if Quot(b, c) < Quot(a, c) {
      MulMonotone(Quot(b, c) + 1, Quot(a, c), c);
      MulOneMore(Quot(b, c), c);
    }
  }

  lemma QuotOneMore(a: nat, c: nat)
    requires 0 < c
    ensures Quot(a + c, c) == Quot(a, c) + 1
  {
    hide Mul, Quot;
    QuotFacts(a, c);
    MulOneMore(Quot(a, c), c);
    QuotIs(a + c, c, Quot(a, c) + 1);
  }

  // ----- The map on one axis ---------------------------------------------

  /** The edges of a frame on one axis, as unsigned words. */
  datatype Span = Span(lo: int, hi: int) {
    /** What the setting of frames leaves, whatever it was asked for. */
    predicate Stored() {
      0 <= lo < hi < 0x1_0000_0000
    }

    function Width(): int {
      hi - lo
    }

    predicate Contains(v: int) {
      lo <= v <= hi
    }
  }

  /** Two frames between which the code can scale: the product of their widths
      is an `int`. */
  predicate Fit(s: Span, d: Span) {
    s.Stored() && d.Stored() && Mul(s.Width(), d.Width()) < 0x8000_0000
  }

  /** Frames within the range of the mouse always fit. */
  lemma MouseFramesFit(s: Span, d: Span)
    requires s.Stored() && d.Stored() && s.hi <= MAX_MOUSE_ABS && d.hi <= MAX_MOUSE_ABS
    ensures Fit(s, d)
  {
    hide Mul;
    MulMonotone(s.Width(), MAX_MOUSE_ABS, d.Width());
    MulCommutes(MAX_MOUSE_ABS, d.Width());
    MulMonotone(d.Width(), MAX_MOUSE_ABS, MAX_MOUSE_ABS);
    LargestProduct();
  }

  lemma LargestProduct()
    ensures Mul(MAX_MOUSE_ABS, MAX_MOUSE_ABS) < 0x8000_0000
  {
  }

  lemma WidthIsNoZero(s: Span)
    requires s.Stored()
    ensures ToInt32(s.hi - s.lo) != 0
  {
  }

  /** The statements of `scale_pointer_event` for one axis, with the conversions
      between signed and unsigned words that C makes. */
  function Scale(v: int, s: Span, d: Span): int
    requires s.Stored()
  {
    WidthIsNoZero(s);
    var o := ToInt32(v - s.lo);
    var d1 := ToInt32(s.hi - s.lo);
    var d2 := ToInt32(d.hi - d.lo);
    ToUInt32(CDiv(ToInt32(Mul(o, d2)), d1) + d.lo)
  }

  /** The proportional map, rounded down. */
  function Proportional(v: int, s: Span, d: Span): int
    requires s.Stored() && d.Stored() && s.Contains(v)
  {
    ProductIsNatural(v - s.lo, d.Width());
    Quot(Mul(v - s.lo, d.Width()), s.Width()) + d.lo
  }

  lemma ProductIsNatural(a: nat, b: nat)
    ensures Mul(a, b) >= 0
  {
  }

  lemma SmallWord(v: int)
    requires 0 <= v < 0x8000_0000
    ensures ToInt32(v) == v
  {
  }

  lemma Word(v: int)
    requires 0 <= v < 0x1_0000_0000
    ensures ToUInt32(v) == v
  {
  }

  /** The quotient of a part of one width is a part of the other. */
  lemma PartOfWidth(o: int, s: Span, d: Span)
    requires s.Stored() && d.Stored() && 0 <= o <= s.Width()
    ensures 0 <= Mul(o, d.Width()) <= Mul(s.Width(), d.Width())
    ensures 0 <= Quot(Mul(o, d.Width()), s.Width()) <= d.Width()
    ensures Quot(Mul(0, d.Width()), s.Width()) == 0
    ensures Quot(Mul(s.Width(), d.Width()), s.Width()) == d.Width()
  {
    hide Mul, Quot;
    var a, b := s.Width(), d.Width();
    MulMonotone(0, o, b);
    MulMonotone(o, a, b);
    MulOneMore(0, b);
    MulOneMore(0, a);
    QuotIs(0, a, 0);
    MulCommutes(a, b);
    QuotIs(Mul(a, b), a, b);
    QuotMonotone(Mul(o, b), Mul(a, b), a);
  }

  /** With a product that is an `int` both widths are. */
  lemma WidthsAreInts(s: Span, d: Span)
    requires Fit(s, d)
    ensures s.Width() < 0x8000_0000 && d.Width() < 0x8000_0000
  {
    hide Mul;
    var a, b := s.Width(), d.Width();
    MulMonotone(1, a, b);
    MulMonotone(1, b, a);
    MulOneMore(0, a);
    MulOneMore(0, b);
    MulCommutes(a, b);
  }

  /** Inside the source frame no operation leaves its word: the product fits 32
      bits, and the code computes the proportional map. */
  lemma ScaleIsProportional(v: int, s: Span, d: Span)
    requires Fit(s, d) && s.Contains(v)
    ensures ToInt32(Mul(v - s.lo, d.Width())) == Mul(v - s.lo, d.Width())
    ensures Scale(v, s, d) == Proportional(v, s, d)
  {
    hide Mul, Quot, ToInt32, ToUInt32;
    WidthsAreInts(s, d);
    PartOfWidth(v - s.lo, s, d);
    SmallWord(v - s.lo);
    SmallWord(s.Width());
    SmallWord(d.Width());
    SmallWord(Mul(v - s.lo, d.Width()));
    Word(Proportional(v, s, d));
  }

  /** Points of the source frame go into the destination frame, its corners to
      the corners. */
  lemma ScaleStaysInside(v: int, s: Span, d: Span)
    requires Fit(s, d) && s.Contains(v)
    ensures d.Contains(Scale(v, s, d))
    ensures Scale(s.lo, s, d) == d.lo && Scale(s.hi, s, d) == d.hi
  {
    hide Mul, Quot, Scale;
    ScaleIsProportional(v, s, d);
    ScaleIsProportional(s.lo, s, d);
    ScaleIsProportional(s.hi, s, d);
    PartOfWidth(v - s.lo, s, d);
  }

  lemma ScaleIsMonotone(v: int, w: int, s: Span, d: Span)
    requires Fit(s, d) && s.Contains(v) && s.Contains(w) && v <= w
    ensures Scale(v, s, d) <= Scale(w, s, d)
  {
    hide Mul, Quot, Scale;
    ScaleIsProportional(v, s, d);
    ScaleIsProportional(w, s, d);
    PartOfWidth(v - s.lo, s, d);
    PartOfWidth(w - s.lo, s, d);
    MulMonotone(v - s.lo, w - s.lo, d.Width());
    QuotMonotone(Mul(v - s.lo, d.Width()), Mul(w - s.lo, d.Width()), s.Width());
  }

  /** The map is the exact proportion up to less than one unit. */
  lemma ScaleIsAccurate(v: int, s: Span, d: Span)
    requires Fit(s, d) && s.Contains(v)
    ensures Mul(Scale(v, s, d) - d.lo, s.Width()) <= Mul(v - s.lo, d.Width())
            < Mul(Scale(v, s, d) - d.lo, s.Width()) + s.Width()
  {
    hide Mul, Quot, Scale;
    ScaleIsProportional(v, s, d);
    PartOfWidth(v - s.lo, s, d);
    QuotFacts(Mul(v - s.lo, d.Width()), s.Width());
  }

  // ----- When the product does not fit -----------------------------------

  ghost predicate ScalesRightly(s: Span, d: Span)
    requires s.Stored() && d.Stored()
  {
    forall v | s.Contains(v) :: Scale(v, s, d) == Proportional(v, s, d)
  }

  /** A quotient of two ints is itself a word, up to its sign. */
  lemma QuotientIsInt(p: int, a: nat)
    requires -0x8000_0000 <= p < 0x8000_0000 && a > 0
    ensures -0x8000_0000 <= CDiv(p, a) < 0x8000_0000
    ensures CDiv(p, a) >= 0 ==> p < 0 || Mul(CDiv(p, a), a) <= p
    ensures p < 0 ==> CDiv(p, a) <= 0
  {
    hide Mul, Quot;
    var m := if p < 0 then -p else p;
    QuotFacts(m, a);
    QuotBelow(m, a);
  }

  lemma QuotBelow(m: nat, a: nat)
    requires a > 0
    ensures Quot(m, a) <= m
  {
    hide Mul, Quot;
    QuotFacts(m, a);
    MulCommutes(Quot(m, a), a);
    MulMonotone(1, a, Quot(m, a));
    MulOneMore(0, Quot(m, a));
  }

  /** Once the product leaves 32 bits the far edge of the source misses the far
      edge of the destination. */
  lemma FarEdgeMisses(s: Span, d: Span)
    requires s.Stored() && d.Stored() && s.Width() < 0x8000_0000 && d.Width() < 0x8000_0000
    requires Mul(s.Width(), d.Width()) >= 0x8000_0000
    ensures Scale(s.hi, s, d) != d.hi
  {
    hide Mul, Quot, CDiv;
    var a, b := s.Width(), d.Width();
    SmallWord(a);
    SmallWord(b);
    var p := ToInt32(Mul(a, b));
    QuotientIsInt(p, a);
    var q := CDiv(p, a);
    if Scale(s.hi, s, d) == d.hi {
      assert ToUInt32(q + d.lo) == d.lo + b;
      assert q == b;
      MulCommutes(a, b);
    }
  }

  /** The exact condition on widths that are ints themselves: every point of the
      source frame is scaled in proportion if and only if the product of the
      widths fits 32 bits, and it shows at the far edge. */
  lemma ScalesRightlyExactly(s: Span, d: Span)
    requires s.Stored() && d.Stored() && s.Width() < 0x8000_0000 && d.Width() < 0x8000_0000
    ensures Fit(s, d) <==> ScalesRightly(s, d)
    ensures Fit(s, d) <==> Scale(s.hi, s, d) == d.hi
  {
    hide Mul, Quot, Scale;
    PartOfWidth(s.Width(), s, d);
    if Fit(s, d) {
      forall v | s.Contains(v) ensures Scale(v, s, d) == Proportional(v, s, d) {
        ScaleIsProportional(v, s, d);
      }
    } else {
      FarEdgeMisses(s, d);
      assert Proportional(s.hi, s, d) == d.hi;
    }
  }

  /** Frames that `input_daemon_divert_mouse_focus` takes and that fold the far
      edge onto the wrong side of the destination. */
  lemma WideFramesFold()
    ensures var s := Span(0, 0x1_0000);
            s.Stored() && !Fit(s, s) && Scale(0x1_0000, s, s) == 0 && Scale(0x8000, s, s) == 0xFFFF_8000
  {
    assert Mul(0x1_0000, 0x1_0000) == 0x1_0000_0000 && Mul(0x8000, 0x1_0000) == 0x8000_0000;
  }

  // ----- When points stay apart ------------------------------------------

  ghost predicate KeepsPointsApart(s: Span, d: Span)
    requires s.Stored()
  {
    forall v, w | s.Contains(v) && s.Contains(w) && v < w :: Scale(v, s, d) < Scale(w, s, d)
  }

  lemma {:induction false} ApartReachesFar(s: Span, d: Span, k: nat)
    requires Fit(s, d) && k <= s.Width() && KeepsPointsApart(s, d)
    ensures Scale(s.lo + k, s, d) >= d.lo + k
    decreases k
  {
    hide Scale;
    ScaleStaysInside(s.lo, s, d);
    if k > 0 {
      ApartReachesFar(s, d, k - 1);
      assert Scale(s.lo + (k - 1), s, d) < Scale(s.lo + k, s, d);
    }
  }

  /** Two neighbours are apart if the frame is not shrunk. */
  lemma WideKeepsNeighboursApart(v: int, w: int, s: Span, d: Span)
    requires Fit(s, d) && s.Contains(v) && s.Contains(w) && v < w
    requires d.Width() >= s.Width()
    ensures Scale(v, s, d) < Scale(w, s, d)
  {
    hide Mul, Quot, Scale;
    var a, b := s.Width(), d.Width();
    var x, y := v - s.lo, w - s.lo;
    ScaleIsProportional(v, s, d);
    ScaleIsProportional(w, s, d);
    PartOfWidth(x, s, d);
    PartOfWidth(y, s, d);
    MulMonotone(x + 1, y, b);
    MulOneMore(x, b);
    QuotMonotone(Mul(x, b) + a, Mul(y, b), a);
    QuotOneMore(Mul(x, b), a);
  }

  /** No two points of the source frame are merged exactly when the destination
      is at least as wide. */
  lemma PointsStayApartExactly(s: Span, d: Span)
    requires Fit(s, d)
    ensures KeepsPointsApart(s, d) <==> d.Width() >= s.Width()
  {
    hide Scale;
    ScaleStaysInside(s.hi, s, d);
    if d.Width() >= s.Width() {
      forall v, w | s.Contains(v) && s.Contains(w) && v < w ensures Scale(v, s, d) < Scale(w, s, d) {
        WideKeepsNeighboursApart(v, w, s, d);
      }
    }
    if KeepsPointsApart(s, d) {
      ApartReachesFar(s, d, s.Width());
    }
  }

  // ----- The code ---------------------------------------------------------

  /** Why frames are refused. */
  datatype Outcome = Accepted | EmptySource | EmptyDestination

  type UInt32 = x: int | 0 <= x < 0x1_0000_0000

  /** Two coordinates in order, as the setting of each frame edge does it. */
  function Ordered(a: UInt32, b: UInt32): Span {
    if a < b then Span(a, b) else Span(b, a)
  }

  /** The frames of `struct divert_info_t`. */
  class Frames {
    var sx: Span
    var sy: Span
    var dx: Span
    var dy: Span

    /** Frames have been set. */
    predicate Valid()
      reads this
    {
      sx.Stored() && sy.Stored() && dx.Stored() && dy.Stored()
    }

    constructor ()
    {
      sx, sy, dx, dy := Span(0, 0), Span(0, 0), Span(0, 0), Span(0, 0);
    }

    /** The checks and the normalisation of `input_daemon_divert_mouse_focus`. */
    method SetFrames(sx1: UInt32, sy1: UInt32, sx2: UInt32, sy2: UInt32,
                     dx1: UInt32, dy1: UInt32, dx2: UInt32, dy2: UInt32)
      returns (o: Outcome)
      modifies this
      ensures o.EmptySource? <==> sx1 == sx2 || sy1 == sy2
      ensures o.EmptyDestination? <==> !o.EmptySource? && (dx1 == dx2 || dy1 == dy2)
      ensures !o.Accepted? ==> sx == old(sx) && sy == old(sy) && dx == old(dx) && dy == old(dy)
      ensures o.Accepted? ==>
        && sx == Ordered(sx1, sx2) && sy == Ordered(sy1, sy2) && dx == Ordered(dx1, dx2) && dy == Ordered(dy1, dy2)
      ensures o.Accepted? ==> Valid()
    {
      if sx1 == sx2 || sy1 == sy2 {
        return EmptySource;
      }
      if dx1 == dx2 || dy1 == dy2 {
        return EmptyDestination;
      }
      if sx1 < sx2 {
        sx := Span(sx1, sx2);
      } else {
        sx := Span(sx2, sx1);
      }
      if sy1 < sy2 {
        sy := Span(sy1, sy2);
      } else {
        sy := Span(sy2, sy1);
      }
      if dx1 < dx2 {
        dx := Span(dx1, dx2);
      } else {
        dx := Span(dx2, dx1);
      }
      if dy1 < dy2 {
        dy := Span(dy1, dy2);
      } else {
        dy := Span(dy2, dy1);
      }
      o := Accepted;
    }

    /** `mouse_outside_frame` for a mouse at whole coordinates. */
    method MouseOutsideFrame(x: nat, y: nat) returns (outside: bool)
      ensures outside <==> !(sx.Contains(x) && sy.Contains(y))
    {
      outside := x < sx.lo || x > sx.hi || y < sy.lo || y > sy.hi;
    }

    /** `scale_pointer_event`: an event inside the source frame is moved to the
        destination frame in place, any other axis is left alone. */
    method ScalePointerEvent(e: EventCell)
      requires Valid()
      modifies e`value
      ensures var x := e.kind == EV_ABS && (e.code == ABS_X || e.code == ABS_MT_POSITION_X);
              var y := e.kind == EV_ABS && (e.code == ABS_Y || e.code == ABS_MT_POSITION_Y);
              var old_v, v := ToUInt32(old(e.value)), ToUInt32(e.value);
              && (x ==> e.value == ToInt32(Scale(old_v, sx, dx)))
              && (y ==> e.value == ToInt32(Scale(old_v, sy, dy)))
              && (!x && !y ==> e.value == old(e.value))
              && (x && Fit(sx, dx) && sx.Contains(old_v) ==> dx.Contains(v))
              && (y && Fit(sy, dy) && sy.Contains(old_v) ==> dy.Contains(v))
    {
      hide Mul, CDiv, Scale, ToInt32, ToUInt32;
      if e.kind != EV_ABS {
        return;
      }
      if e.code == ABS_X || e.code == ABS_MT_POSITION_X {
        e.value := ScaleOnAxis(e.value, sx, dx);
      } else if e.code == ABS_Y || e.code == ABS_MT_POSITION_Y {
        e.value := ScaleOnAxis(e.value, sy, dy);
      }
    }

    /** The statements of one branch. */
    method ScaleOnAxis(value: int, s: Span, d: Span) returns (r: int)
      requires s.Stored() && d.Stored()
      ensures r == ToInt32(Scale(ToUInt32(value), s, d))
      ensures Fit(s, d) && s.Contains(ToUInt32(value)) ==> d.Contains(ToUInt32(r))
    {
      hide Mul, CDiv, Fit;
      WidthIsNoZero(s);
      var o := ToInt32(ToUInt32(value) - s.lo);
      var d1 := ToInt32(s.hi - s.lo);
      var d2 := ToInt32(d.hi - d.lo);
      r := ToInt32(CDiv(ToInt32(Mul(o, d2)), d1) + d.lo);
      SignedWord(CDiv(ToInt32(Mul(o, d2)), d1) + d.lo);
      if Fit(s, d) && s.Contains(ToUInt32(value)) {
        ScaleStaysInside(ToUInt32(value), s, d);
      }
    }
  }

  /** Signed and unsigned words carry the same bits. */
  lemma SignedWord(v: int)
    ensures ToInt32(ToUInt32(v)) == ToInt32(v)
    ensures ToUInt32(ToInt32(v)) == ToUInt32(v)
  {
  }
}
