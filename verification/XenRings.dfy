/** What `xen_event_send` (`xen_event.c`) writes, told by looking back over the
    events sent instead of by its accumulators. */
module XenRings {
  import opened Multitouch

  /** The last value of an axis since the last report, or 0. */
  function Recent(os: seq<Output>, kind: int, axis: int): int {
    if os == [] then 0
    else
      var e := os[|os| - 1].event;
      if e.IsReport() then 0
      else if e.kind == kind && e.code == axis then e.value
      else Recent(os[..|os| - 1], kind, axis)
  }

  /** Whether there was an event of this kind since the last report. */
  predicate Any(os: seq<Output>, kind: int) {
    os != [] && !os[|os| - 1].event.IsReport() && (os[|os| - 1].event.kind == kind || Any(os[..|os| - 1], kind))
  }

  predicate IsMouseButton(e: Event) {
    e.kind == EV_KEY && BTN_LEFT <= e.code <= BTN_TASK
  }

  /** The ring of the absolute device: mouse buttons when they come, and at each
      report that ends a frame with absolute events the latest position with the
      wheel of that frame. */
  function AbsoluteRing(os: seq<Output>): seq<RingEntry> {
    if os == [] then []
    else
      var before, e := os[..|os| - 1], os[|os| - 1].event;
      AbsoluteRing(before)
      + if IsMouseButton(e) then [Key(e.value != 0, e.code)]
        else if e.IsReport() && Any(before, EV_ABS) then
          [Position(Latest(before, ABS_X), Latest(before, ABS_Y), -Recent(before, EV_ABS, ABS_WHEEL))]
        else []
  }

  /** The ring of the relative device: all other keys when they come, and at each
      report that ends a frame with relative events the motion of that frame. */
  function RelativeRing(os: seq<Output>): seq<RingEntry> {
    if os == [] then []
    else
      var before, e := os[..|os| - 1], os[|os| - 1].event;
      RelativeRing(before)
      + if e.kind == EV_KEY && !IsMouseButton(e) then [Key(e.value != 0, e.code)]
        else if e.IsReport() && Any(before, EV_REL) then
          [Motion(Recent(before, EV_REL, REL_X), Recent(before, EV_REL, REL_Y), -Recent(before, EV_REL, REL_WHEEL))]
        else []
  }

  /** The accumulators hold what a look back over the frame finds. */
  ghost predicate LooksBack(x: Xen, os: seq<Output>) {
    && x.absX == Latest(os, ABS_X) && x.absY == Latest(os, ABS_Y)
    && x.absZ == -Recent(os, EV_ABS, ABS_WHEEL)
    && x.relX == Recent(os, EV_REL, REL_X) && x.relY == Recent(os, EV_REL, REL_Y)
    && x.relZ == -Recent(os, EV_REL, REL_WHEEL)
    && (x.absolute > 0 <==> Any(os, EV_ABS)) && (x.relative > 0 <==> Any(os, EV_REL))
  }

  lemma SendLooksBack(x: Xen, os: seq<Output>, o: Output)
    requires LooksBack(x, os)
    ensures LooksBack(XenSend(x, o.event), os + [o])
  {
    hide Recent, Any, Latest;
    var e := o.event;
    RecentSnoc(os, o, EV_REL, REL_X);
    RecentSnoc(os, o, EV_REL, REL_Y);
    RecentSnoc(os, o, EV_REL, REL_WHEEL);
    RecentSnoc(os, o, EV_ABS, ABS_WHEEL);
    LatestSnoc(os, o, ABS_X);
    LatestSnoc(os, o, ABS_Y);
  }

  lemma LatestSnoc(os: seq<Output>, o: Output, axis: int)
    ensures Latest(os + [o], axis) ==
            if o.event.kind == EV_ABS && o.event.code == axis then o.event.value else Latest(os, axis)
  {
    assert (os + [o])[..|os|] == os;
  }

  lemma RecentSnoc(os: seq<Output>, o: Output, kind: int, axis: int)
    ensures var e := o.event;
            && Recent(os + [o], kind, axis)
               == (if e.IsReport() then 0 else if e.kind == kind && e.code == axis then e.value else Recent(os, kind, axis))
            && (Any(os + [o], kind) <==> !e.IsReport() && (e.kind == kind || Any(os, kind)))
    ensures !Any(os, kind) ==> Recent(os, kind, axis) == 0
  {
    assert (os + [o])[..|os|] == os;
    if !Any(os, kind) {
      NothingRecent(os, kind, axis);
    }
  }

  lemma {:induction false} NothingRecent(os: seq<Output>, kind: int, axis: int)
    requires !Any(os, kind)
    ensures Recent(os, kind, axis) == 0
  {
    if os != [] && !os[|os| - 1].event.IsReport() {
      NothingRecent(os[..|os| - 1], kind, axis);
    }
  }

  lemma SendWrites(x: Xen, os: seq<Output>, o: Output)
    requires LooksBack(x, os) && x.absRing == AbsoluteRing(os) && x.relRing == RelativeRing(os)
    ensures var y := XenSend(x, o.event);
            y.absRing == AbsoluteRing(os + [o]) && y.relRing == RelativeRing(os + [o])
  {
    assert (os + [o])[..|os|] == os;
    assert AbsoluteRing(os) + [] == AbsoluteRing(os) && RelativeRing(os) + [] == RelativeRing(os);
  }

  /** Over every stream of events, both rings hold exactly what a look back finds:
      every key once and at its time on the device of its range, and for every
      frame with motion one entry with the last value of each of its axes. */
  lemma {:induction false} RingsHoldWhatWasSent(os: seq<Output>)
    ensures var x := XenSendAll(XEN_IDLE, os);
            LooksBack(x, os) && x.absRing == AbsoluteRing(os) && x.relRing == RelativeRing(os)
    decreases |os|
  {
    hide LooksBack, XenSend, AbsoluteRing, RelativeRing;
    if os == [] {
      NothingSent();
    } else {
      var before, o := os[..|os| - 1], os[|os| - 1];
      RingsHoldWhatWasSent(before);
      SendLooksBack(XenSendAll(XEN_IDLE, before), before, o);
      SendWrites(XenSendAll(XEN_IDLE, before), before, o);
      assert os == before + [o];
    }
  }

  lemma NothingSent()
    ensures LooksBack(XEN_IDLE, []) && AbsoluteRing([]) == [] && RelativeRing([]) == []
  {
  }
}
