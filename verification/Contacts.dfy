/** What the single-touch stream has to do with the multitouch stream it is made
    from: a reader of the multitouch protocol follows the first contact, and the
    guest sees that contact and no other. */
module Contacts {
  import opened Multitouch

  // ----- Reading the input ------------------------------------------------

  /** The first contact of a stream: whether the events are about it, where it
      is, whether it touches, and whether in this frame it said anything besides
      its position. */
  datatype Contact = Contact(first: bool, x: int, y: int, touching: bool, spoke: bool)

  const NOT_YET := Contact(true, 0, 0, false, false)

  predicate OnAxis(e: Event, axis: int, mtAxis: int) {
    e.kind == EV_ABS && (e.code == axis || e.code == mtAxis)
  }

  /** Size, orientation, tool, pressure or distance of a contact. */
  predicate IsDetail(e: Event) {
    e.kind == EV_ABS &&
    e.code in {ABS_MT_TOUCH_MAJOR, ABS_MT_TOUCH_MINOR, ABS_MT_WIDTH_MAJOR, ABS_MT_WIDTH_MINOR, ABS_MT_ORIENTATION,
               ABS_MT_TOOL_TYPE, ABS_MT_BLOB_ID, ABS_MT_PRESSURE, ABS_MT_DISTANCE}
  }

  /** The first contact comes or goes. */
  predicate Toggles(c: Contact, e: Event) {
    e.kind == EV_ABS && e.code == ABS_MT_TRACKING_ID && c.touching != (e.value != -1)
  }

  /** One event: `ABS_MT_SLOT` names the contact that what follows is about,
      `SYN_MT_REPORT` ends the first, and `SYN_REPORT` ends the frame and starts
      with it again. */
  function Follow(c: Contact, e: Event): Contact {
    if e.kind == EV_SYN && e.code == SYN_REPORT then c.(first := true, spoke := false)
    else if e.kind == EV_SYN && e.code == SYN_MT_REPORT then c.(first := false)
    else if e.kind == EV_ABS && e.code == ABS_MT_SLOT then
      c.(first := e.value == 0, spoke := c.spoke || (!c.first && e.value == 0))
    else if !c.first then c
    else if OnAxis(e, ABS_X, ABS_MT_POSITION_X) then c.(x := e.value)
    else if OnAxis(e, ABS_Y, ABS_MT_POSITION_Y) then c.(y := e.value)
    else if Toggles(c, e) then c.(touching := !c.touching, spoke := true)
    else if IsDetail(e) || (e.kind != EV_SYN && e.kind != EV_ABS) then c.(spoke := true)
    else c
  }

  function FollowAll(es: seq<Event>): Contact {
    if es == [] then NOT_YET else Follow(FollowAll(es[..|es| - 1]), es[|es| - 1])
  }

  /** What a single-touch device has no event for: details of a contact, its
      coming and going, and the change to another contact. */
  predicate Concealed(c: Contact, e: Event) {
    IsDetail(e) || Toggles(c, e) || (e.kind == EV_ABS && e.code == ABS_MT_SLOT && e.value != 0)
  }

  /** An event as a single-touch device would send it. */
  function Renamed(e: Event): Event {
    if e.kind == EV_ABS && e.code == ABS_MT_POSITION_X then e.(code := ABS_X)
    else if e.kind == EV_ABS && e.code == ABS_MT_POSITION_Y then e.(code := ABS_Y)
    else e
  }

  /** The reports, which frame the events and are made anew for the output. */
  predicate EndsTurn(e: Event) {
    e.kind == EV_SYN && (e.code == SYN_REPORT || e.code == SYN_MT_REPORT)
  }

  /** What is passed on of one event: it has to be about the first contact. */
  function PassedOn(c: Contact, e: Event): seq<Event> {
    if c.first && !EndsTurn(e) && !Concealed(c, e) then [Renamed(e)] else []
  }

  function FirstContactOnly(es: seq<Event>): seq<Event> {
    if es == [] then []
    else
      var before := es[..|es| - 1];
      FirstContactOnly(before) + PassedOn(FollowAll(before), es[|es| - 1])
  }

  predicate MadeUp(o: Output) {
    o.simulated || o.event.IsReport()
  }

  /** Of the output, the events that were neither made up nor belong to the
      framing. */
  function Genuine(os: seq<Output>): seq<Event> {
    if os == [] then []
    else
      var o := os[|os| - 1];
      Genuine(os[..|os| - 1]) + if MadeUp(o) then [] else [o.event]
  }

  // ----- One event --------------------------------------------------------

  lemma GenuineSnoc(os: seq<Output>, o: Output)
    ensures Genuine(os + [o]) == Genuine(os) + if MadeUp(o) then [] else [o.event]
    ensures var e := o.event;
            && Latest(os + [o], ABS_X) == (if e.kind == EV_ABS && e.code == ABS_X then e.value else Latest(os, ABS_X))
            && Latest(os + [o], ABS_Y) == (if e.kind == EV_ABS && e.code == ABS_Y then e.value else Latest(os, ABS_Y))
  {
    assert (os + [o])[..|os|] == os;
  }

  /** What the output says of the first contact. */
  datatype Account = Account(genuine: seq<Event>, x: int, y: int)

  function AccountOf(os: seq<Output>): Account {
    Account(Genuine(os), Latest(os, ABS_X), Latest(os, ABS_Y))
  }

  /** Output without an event of a contact. */
  lemma {:induction false} NothingNew(os: seq<Output>, more: seq<Output>)
    requires forall i | 0 <= i < |more| :: more[i].event.kind != EV_ABS && MadeUp(more[i])
    ensures AccountOf(os + more) == AccountOf(os)
    decreases |more|
  {
    hide Genuine, Latest, MadeUp;
    if more == [] {
      assert os + more == os;
    } else {
      var n := |more| - 1;
      NothingNew(os, more[..n]);
      assert os + more == (os + more[..n]) + [more[n]];
      GenuineSnoc(os + more[..n], more[n]);
      assert Genuine(os + more[..n]) + [] == Genuine(os + more[..n]);
    }
  }

  /** Draining only makes things up. */
  lemma {:induction false} DrainingIsMadeUp(t: Touch, e: Event)
    requires t.draining
    ensures var (u, os) := Feed(t, e);
            && (forall i | 0 <= i < |os| :: os[i].event.kind != EV_ABS && MadeUp(os[i]))
            && u.slot == t.slot && u.pressed == t.pressed && u.hadSlot0 == t.hadSlot0
            && (u.draining || u.deferred.Nope?)
    decreases Rank(t)
  {
    var (u, action, f) := Demux(t, e);
    if action == Queued {
      DrainingIsMadeUp(u, f);
    }
  }

  /** The sender and the reader agree about the first contact. */
  ghost predicate Agree(t: Touch, c: Contact) {
    !t.draining && (t.slot == 0 <==> c.first) && t.pressed == c.touching && t.hadSlot0 == c.spoke
  }

  /** An event that makes something up is not about where the contact is. */
  lemma FeedMakesUp(t: Touch, c: Contact, e: Event)
    requires Agree(t, c) && (t.Detached() || EndsTurn(e))
    ensures var (u, os) := Feed(t, e);
            && Agree(u, Follow(c, e)) && Follow(c, e).x == c.x && Follow(c, e).y == c.y
            && (forall i | 0 <= i < |os| :: os[i].event.kind != EV_ABS && MadeUp(os[i]))
            && (e.IsReport() && t.slot == 0 ==> u.draining || u.deferred.Nope?)
  {
    var (u, action, f) := Demux(t, e);
    if action == Queued {
      DrainingIsMadeUp(u, f);
      DrainingEnds(u, f);
    }
  }

  lemma {:induction false} DrainingEnds(t: Touch, e: Event)
    requires t.draining && !t.deferred.Nope?
    ensures !Feed(t, e).0.draining && Feed(t, e).0.deferred.Nope?
    decreases Rank(t)
  {
    var (u, action, f) := Demux(t, e);
    if action == Queued {
      DrainingEnds(u, f);
    }
  }

  /** Any other event is of the first contact and is passed on by itself, or
      not at all, except that a report may stand for the change of contacts. */
  lemma FeedPasses(t: Touch, c: Contact, e: Event)
    requires Agree(t, c) && !t.Detached() && !EndsTurn(e)
    ensures var (u, os) := Feed(t, e);
            && Agree(u, Follow(c, e))
            && var switches := e.kind == EV_ABS && e.code == ABS_MT_SLOT && e.value != 0;
               if switches && c.spoke then os == [Output(REPORT, false)]
               else if PassedOn(c, e) == [] then os == []
               else os == [Output(PassedOn(c, e)[0], false)]
  {
  }

  lemma FeedAccount(os: seq<Output>, t: Touch, c: Contact, e: Event)
    requires Agree(t, c) && Latest(os, ABS_X) == c.x && Latest(os, ABS_Y) == c.y
    ensures var (u, now) := Feed(t, e);
            var a, d := AccountOf(os + now), Follow(c, e);
            && Agree(u, d) && a.x == d.x && a.y == d.y
            && a.genuine == Genuine(os) + PassedOn(c, e)
  {
    hide Demux, Feed, Genuine, Latest;
    var (u, now) := Feed(t, e);
    if t.Detached() || EndsTurn(e) {
      FeedMakesUp(t, c, e);
      NothingNew(os, now);
      assert PassedOn(c, e) == [] && Genuine(os) + [] == Genuine(os);
    } else {
      FeedPasses(t, c, e);
      if now == [] {
        assert os + now == os;
      } else {
        GenuineSnoc(os, now[0]);
      }
      assert Genuine(os) + [] == Genuine(os);
    }
  }

  // ----- Whole streams ----------------------------------------------------

  lemma {:induction false} FeedAllSnoc(t: Touch, es: seq<Event>, e: Event)
    ensures var (u, os) := FeedAll(t, es);
            FeedAll(t, es + [e]) == (Feed(u, e).0, os + Feed(u, e).1)
    decreases |es|
  {
    hide Feed;
    if es == [] {
      var (u, now) := Feed(t, e);
      assert [e][1..] == [] && es + [e] == [e];
      assert FeedAll(u, []) == (u, []);
      assert FeedAll(t, [e]) == (u, now + []);
      assert now + [] == now && [] + now == now;
    } else {
      assert (es + [e])[1..] == es[1..] + [e];
      var (u, now) := Feed(t, es[0]);
      FeedAllSnoc(u, es[1..], e);
      var (v, later) := FeedAll(u, es[1..]);
      assert now + (later + Feed(v, e).1) == (now + later) + Feed(v, e).1;
    }
  }

  lemma SplitLast(es: seq<Event>)
    requires es != []
    ensures es == es[..|es| - 1] + [es[|es| - 1]]
  {
  }

  /** The first contact comes through: over every stream, the genuine events of
      the output are exactly those of the first contact that are passed on, in
      order; its coordinates are the latest that went out, and the tracked contact
      is its own. */
  lemma {:induction false} FirstContactComesThrough(es: seq<Event>)
    ensures var (t, os) := FeedAll(IDLE, es);
            var c := FollowAll(es);
            && Agree(t, c)
            && Genuine(os) == FirstContactOnly(es)
            && Latest(os, ABS_X) == c.x && Latest(os, ABS_Y) == c.y
    decreases |es|
  {
    hide Feed, Genuine, Latest, Follow;
    if es == [] {
      EmptyStream();
    } else {
      var before, e := es[..|es| - 1], es[|es| - 1];
      FirstContactComesThrough(before);
      var (t, os) := FeedAll(IDLE, before);
      FeedAccount(os, t, FollowAll(before), e);
      FeedAllSnoc(IDLE, before, e);
      SplitLast(es);
    }
  }

  lemma EmptyStream()
    ensures FeedAll(IDLE, []) == (IDLE, []) && Genuine([]) == [] && Latest([], ABS_X) == 0 && Latest([], ABS_Y) == 0
    ensures FollowAll([]) == NOT_YET && FirstContactOnly([]) == []
  {
  }

  /** The outputs that the k-th input brings about. */
  predicate Brings(es: seq<Event>, k: nat, i: nat)
    requires k < |es|
  {
    |FeedAll(IDLE, es[..k]).1| <= i < |FeedAll(IDLE, es[..k + 1]).1|
  }

  /** Every click is made where the first contact is: over every stream, when a
      simulated click enters the ring of the absolute device, nothing is unsent,
      and the last position there is that of the first contact as the input tells
      it up to the event that brought the click about; other contacts never
      matter.  The click is a press exactly if that contact touches. */
  lemma {:induction false} ClickIsAtTheContact(es: seq<Event>, i: nat)
    requires var os := FeedAll(IDLE, es).1; i < |os| && os[i].simulated
    ensures var os := FeedAll(IDLE, es).1;
            var x := XenSendAll(XEN_IDLE, os[..i]);
            && x.absolute == 0 && x.relative == 0
            && exists k | 0 <= k < |es| :: var c := FollowAll(es[..k + 1]);
                 Brings(es, k, i) && Seen(x.absRing) == (c.x, c.y) && os[i].event == LeftButton(c.touching)
    decreases |es|
  {
    hide Feed, FollowAll, XenSendAll, Seen, Latest;
    var n := |es| - 1;
    if es == [] {
      EmptyStream();
    } else {
      var before, e := es[..n], es[n];
      SplitLast(es);
      FeedAllSnoc(IDLE, before, e);
      var (t, os) := FeedAll(IDLE, before);
      var now := Feed(t, e).1;
      if i < |os| {
        ClickIsAtTheContact(before, i);
        assert (os + now)[..i] == os[..i];
        var x := XenSendAll(XEN_IDLE, os[..i]);
        var k :| 0 <= k < |before| && var c := FollowAll(before[..k + 1]);
          Brings(before, k, i) && Seen(x.absRing) == (c.x, c.y) && os[i].event == LeftButton(c.touching);
        assert es[..k + 1] == before[..k + 1] && es[..k] == before[..k];
        assert Brings(es, k, i);
      } else {
        ClickByLastEvent(before, e, i - |os|);
        assert (os + now)[..i] == os + now[..i - |os|];
        assert es[..n + 1] == before + [e];
        assert Brings(es, n, i);
      }
    }
  }

  lemma ClickByLastEvent(es: seq<Event>, e: Event, j: nat)
    requires var now := Feed(FeedAll(IDLE, es).0, e).1; j < |now| && now[j].simulated
    ensures var (t, os) := FeedAll(IDLE, es);
            var now := Feed(t, e).1;
            var x, c := XenSendAll(XEN_IDLE, os + now[..j]), FollowAll(es + [e]);
            && x.absolute == 0 && x.relative == 0
            && Seen(x.absRing) == (c.x, c.y) && now[j].event == LeftButton(c.touching)
  {
    hide Feed, FeedAll, XenSendAll, Seen, Latest, Follow, Demux, Inv, Agree, Genuine;
    var (t, os) := FeedAll(IDLE, es);
    var now := Feed(t, e).1;
    var c := FollowAll(es);
    FirstContactComesThrough(es);
    FeedAllSnoc(IDLE, es, e);
    SimulatedEventSkips(t, c, e, j);
    NothingNew(os, now[..j]);
    ClickComesAfterPosition(es + [e], |os| + j);
    assert (os + now)[..|os| + j] == os + now[..j];
    assert (es + [e])[..|es|] == es;
    StartsInvariant();
    ClicksAfterReports(IDLE, Sent(LeftButton(false), false), es);
    PressedTells(t, AfterAll(Sent(LeftButton(false), false), os), c, e, j);
  }

  lemma SimulatedEventSkips(t: Touch, c: Contact, e: Event, j: nat)
    requires Agree(t, c) && j < |Feed(t, e).1| && Feed(t, e).1[j].simulated
    ensures var now := Feed(t, e).1;
            && (forall i | 0 <= i < |now| :: now[i].event.kind != EV_ABS && MadeUp(now[i]))
            && Follow(c, e).x == c.x && Follow(c, e).y == c.y
  {
    hide Demux, Feed;
    if t.Detached() || EndsTurn(e) {
      FeedMakesUp(t, c, e);
    } else {
      FeedPasses(t, c, e);
    }
  }

  /** A simulated button is the tracked state. */
  lemma {:induction false} SimulatedIsTracked(t: Touch, s: Sent, e: Event, j: nat)
    requires Inv(t, s) && j < |Feed(t, e).1| && Feed(t, e).1[j].simulated
    ensures Feed(t, e).1[j].event == LeftButton(t.pressed)
    ensures Feed(t, e).0.pressed == t.pressed
    decreases Rank(t)
  {
    DemuxKeeps(t, s, e);
    var (u, action, f) := Demux(t, e);
    if action == Queued && j > 0 {
      SimulatedIsTracked(u, After(s, Output(f, t.Simulates())), f, j - 1);
    } else if action == Queued {
      DrainingIsMadeUp(u, f);
    }
  }

  lemma PressedTells(t: Touch, s: Sent, c: Contact, e: Event, j: nat)
    requires Inv(t, s) && Agree(t, c) && j < |Feed(t, e).1| && Feed(t, e).1[j].simulated
    ensures Feed(t, e).1[j].event == LeftButton(Follow(c, e).touching)
  {
    hide Demux, Feed, Inv;
    SimulatedIsTracked(t, s, e, j);
    if t.Detached() || EndsTurn(e) {
      FeedMakesUp(t, c, e);
    } else {
      FeedPasses(t, c, e);
    }
  }

  /** And no click is held back for long: a `SYN_REPORT` that comes while the
      first contact has the word leaves nothing pending, and the button that the
      guest sees is the state of the contact. */
  lemma ReportDeliversTheClick(es: seq<Event>, e: Event)
    requires FollowAll(es).first && e.IsReport()
    ensures var (t, os) := FeedAll(IDLE, es + [e]);
            && t.deferred.Nope?
            && AfterAll(Sent(LeftButton(false), false), os).button == FollowAll(es + [e]).touching
  {
    hide Feed, FeedAll, Demux, AfterAll, Genuine, Latest, Follow;
    FirstContactComesThrough(es);
    FeedAllSnoc(IDLE, es, e);
    FeedMakesUp(FeedAll(IDLE, es).0, FollowAll(es), e);
    FirstContactComesThrough(es + [e]);
    ButtonTracksContact(es + [e]);
  }

  // ----- Reports ----------------------------------------------------------

  /** There was a simulated click since the last report. */
  predicate Unreported(os: seq<Output>) {
    os != [] && !os[|os| - 1].event.IsReport() && (os[|os| - 1].simulated || Unreported(os[..|os| - 1]))
  }

  lemma UnreportedSnoc(os: seq<Output>, o: Output)
    ensures Unreported(os + [o]) <==> !o.event.IsReport() && (o.simulated || Unreported(os))
  {
    assert (os + [o])[..|os|] == os;
  }

  lemma {:induction false} FeedKeepsDebt(os: seq<Output>, t: Touch, e: Event)
    requires Unreported(os) ==> !t.deferred.Nope?
    ensures var (u, now) := Feed(t, e);
            Unreported(os + now) ==> !u.deferred.Nope?
    decreases Rank(t)
  {
    hide Unreported;
    var (u, action, f) := Demux(t, e);
    if action == Discarded {
      assert os + [] == os;
    } else {
      var out := Output(f, t.Simulates());
      UnreportedSnoc(os, out);
      if action == Queued {
        FeedKeepsDebt(os + [out], u, f);
        assert os + ([out] + Feed(u, f).1) == (os + [out]) + Feed(u, f).1;
      }
    }
  }

  /** Every click gets its report: over every stream, while a simulated click has
      not been followed by a report, something is due. */
  lemma {:induction false} ClickAwaitsItsReport(es: seq<Event>)
    ensures var (t, os) := FeedAll(IDLE, es);
            Unreported(os) ==> !t.deferred.Nope?
    decreases |es|
  {
    hide Feed, Unreported;
    if es == [] {
      EmptyStream();
      assert !Unreported([]) by { NothingUnreported(); }
    } else {
      var before, e := es[..|es| - 1], es[|es| - 1];
      ClickAwaitsItsReport(before);
      var (t, os) := FeedAll(IDLE, before);
      FeedKeepsDebt(os, t, e);
      FeedAllSnoc(IDLE, before, e);
      SplitLast(es);
    }
  }

  lemma NothingUnreported()
    ensures !Unreported([])
  {
  }

  predicate SwitchesAway(e: Event) {
    e.kind == EV_ABS && e.code == ABS_MT_SLOT && e.value != 0
  }

  /** The change to another contact is a report exactly if the first contact said
      something besides its position in this frame. */
  lemma SwitchReportsExactly(es: seq<Event>, e: Event)
    requires FollowAll(es).first && SwitchesAway(e)
    ensures FeedAll(IDLE, es + [e]).1
            == FeedAll(IDLE, es).1 + if FollowAll(es).spoke then [Output(REPORT, false)] else []
  {
    hide Feed, FeedAll, Genuine, Latest, FollowAll;
    FirstContactComesThrough(es);
    FeedAllSnoc(IDLE, es, e);
    FeedPasses(FeedAll(IDLE, es).0, FollowAll(es), e);
  }

  /** So what the first contact said in a frame is in the rings by the end of its
      turn: nothing is left unsent when the frame or the contact ends while the
      events are about it, nor when they turn to another after it spoke. */
  lemma EndOfTurnSendsAll(es: seq<Event>, e: Event)
    requires var c := FollowAll(es);
             c.first && (EndsTurn(e) || (SwitchesAway(e) && c.spoke))
    ensures var x := XenSendAll(XEN_IDLE, FeedAll(IDLE, es + [e]).1);
            x.absolute == 0 && x.relative == 0 && Seen(x.absRing) == (FollowAll(es).x, FollowAll(es).y)
  {
    hide Feed, FeedAll, Genuine, Latest, FollowAll, XenSendAll, Seen;
    FirstContactComesThrough(es);
    FirstContactComesThrough(es + [e]);
    FeedAllSnoc(IDLE, es, e);
    FollowSnoc(es, e);
    var (t, os) := FeedAll(IDLE, es);
    if SwitchesAway(e) {
      FeedPasses(t, FollowAll(es), e);
    } else {
      EndOfTurnReports(t, FollowAll(es), e);
    }
    ReportLeavesNothingUnsent(os + Feed(t, e).1);
    AccumulatorsTrack(os + Feed(t, e).1);
  }

  lemma FollowSnoc(es: seq<Event>, e: Event)
    ensures FollowAll(es + [e]) == Follow(FollowAll(es), e)
  {
    assert (es + [e])[..|es|] == es;
  }

  lemma EndOfTurnReports(t: Touch, c: Contact, e: Event)
    requires Agree(t, c) && c.first && EndsTurn(e)
    ensures var now := Feed(t, e).1; now != [] && now[|now| - 1].event.IsReport()
  {
    var (u, action, f) := Demux(t, e);
    if action == Queued {
      DrainingEndsWithReport(u, f);
    }
  }

  lemma {:induction false} DrainingEndsWithReport(t: Touch, e: Event)
    requires t.draining && !t.deferred.Nope?
    ensures var now := Feed(t, e).1; now != [] && now[|now| - 1].event.IsReport()
    decreases Rank(t)
  {
    var (u, action, f) := Demux(t, e);
    if action == Queued {
      DrainingEndsWithReport(u, f);
    }
  }

  lemma FeedOne(t: Touch, e: Event)
    ensures FeedAll(t, [e]) == Feed(t, e)
  {
    hide Feed;
    var (u, now) := Feed(t, e);
    assert [e][1..] == [] && FeedAll(u, []) == (u, []) && now + [] == now;
  }

  /** Where it said nothing else, its position can stay unsent past the end of
      the frame. */
  lemma PositionCanStayUnsent(v: int)
    requires v != 0
    ensures var es := [Event(EV_ABS, ABS_MT_POSITION_X, v), Event(EV_ABS, ABS_MT_SLOT, 1), REPORT];
            var x := XenSendAll(XEN_IDLE, FeedAll(IDLE, es).1);
            FollowAll(es).x == v && x.absolute > 0 && Seen(x.absRing) == (0, 0)
  {
    var a, b := Event(EV_ABS, ABS_MT_POSITION_X, v), Event(EV_ABS, ABS_MT_SLOT, 1);
    assert [a, b, REPORT][1..] == [b, REPORT] && [b, REPORT][1..] == [REPORT] && [REPORT][1..] == [];
    var t := IDLE.(slot := 1);
    assert Feed(IDLE, a) == (IDLE, [Output(Event(EV_ABS, ABS_X, v), false)]);
    assert Feed(IDLE, b) == (t, []);
    assert Feed(t, REPORT) == (IDLE, []);
    FeedOne(t, REPORT);
    assert FeedAll(IDLE, [b, REPORT]) == (IDLE, []);
    var out := [Output(Event(EV_ABS, ABS_X, v), false)];
    assert out + [] == out;
    assert out[..0] == [];
    FollowSnoc([], a);
    FollowSnoc([a], b);
    FollowSnoc([a, b], REPORT);
    assert [] + [a] == [a] && [a] + [b] == [a, b] && [a, b] + [REPORT] == [a, b, REPORT];
  }
}
