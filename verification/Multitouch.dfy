/** `demultitouch` and the loop around it in `input_send` (`input.c`), with the
    accumulators of `xen_event.c` behind them: multitouch streams become
    single-touch streams, and keys go out at once while positions wait for the
    next `SYN_REPORT`. */
module Multitouch {

  const EV_SYN := 0x0
  const EV_KEY := 0x1
  const EV_REL := 0x2
  const EV_ABS := 0x3
  const SYN_REPORT := 0x0
  const SYN_MT_REPORT := 0x2
  const BTN_LEFT := 0x110
  const BTN_TASK := 0x117
  const REL_X := 0x0
  const REL_Y := 0x1
  const REL_WHEEL := 0x8
  const ABS_X := 0x0
  const ABS_Y := 0x1
  const ABS_WHEEL := 0x8
  const ABS_MT_SLOT := 0x2f
  const ABS_MT_TOUCH_MAJOR := 0x30
  const ABS_MT_TOUCH_MINOR := 0x31
  const ABS_MT_WIDTH_MAJOR := 0x32
  const ABS_MT_WIDTH_MINOR := 0x33
  const ABS_MT_ORIENTATION := 0x34
  const ABS_MT_POSITION_X := 0x35
  const ABS_MT_POSITION_Y := 0x36
  const ABS_MT_TOOL_TYPE := 0x37
  const ABS_MT_BLOB_ID := 0x38
  const ABS_MT_TRACKING_ID := 0x39
  const ABS_MT_PRESSURE := 0x3a
  const ABS_MT_DISTANCE := 0x3b

  /** `struct input_event` without its time stamp. */
  datatype Event = Event(kind: int, code: int, value: int) {
    predicate IsReport() {
      kind == EV_SYN && code == SYN_REPORT
    }
  }

  const REPORT := Event(EV_SYN, SYN_REPORT, 0)

  function LeftButton(down: bool): Event {
    Event(EV_KEY, BTN_LEFT, if down then 1 else 0)
  }

  datatype SimPress = Nope | SendSync | SendLeft | SendLeftUp
  datatype Action = Discarded | Passed | Queued

  /** The five static variables of `demultitouch`. */
  datatype Touch = Touch(deferred: SimPress, draining: bool, slot: int, pressed: bool, hadSlot0: bool) {
    predicate Pressing() {
      deferred.SendLeft? || deferred.SendLeftUp?
    }

    /** The branch that looks only at what is deferred. */
    predicate Detached() {
      slot != 0 || draining
    }

    /** Whether the next event comes out as a button event of our own making. */
    predicate Simulates() {
      Detached() && Pressing()
    }
  }

  const IDLE := Touch(Nope, false, 0, false, false)

  /** `ABS_MT_TOUCH_MAJOR` to `ABS_MT_DISTANCE` without position and tracking:
      properties of a contact that a single-touch device does not have. */
  predicate IsContactDetail(code: int) {
    ABS_MT_TOUCH_MAJOR <= code <= ABS_MT_ORIENTATION || ABS_MT_TOOL_TYPE <= code <= ABS_MT_BLOB_ID ||
    ABS_MT_PRESSURE <= code <= ABS_MT_DISTANCE
  }

  /** The tracking of slots while another contact than the first has the word. */
  function FollowSlot(t: Touch, e: Event): Touch {
    if t.draining then t
    else if e.IsReport() then t.(slot := 0, hadSlot0 := false)
    else if e.kind == EV_ABS && e.code == ABS_MT_SLOT then
      t.(slot := e.value, hadSlot0 := t.hadSlot0 || e.value == 0)
    else t
  }

  function DemuxDetached(t: Touch, e: Event): (Touch, Action, Event) {
    var u := FollowSlot(t, e);
    match u.deferred
    case SendSync => (u.(deferred := Nope, draining := false), Passed, REPORT)
    case SendLeft => (u.(deferred := SendSync), if u.draining then Queued else Passed, LeftButton(true))
    case SendLeftUp => (u.(deferred := SendSync), if u.draining then Queued else Passed, LeftButton(false))
    case Nope => (u, Discarded, e)
  }

  function DemuxAbs(t: Touch, e: Event): (Touch, Action, Event) {
    if e.code == ABS_MT_POSITION_X then (t, Passed, e.(code := ABS_X))
    else if e.code == ABS_MT_POSITION_Y then (t, Passed, e.(code := ABS_Y))
    else if e.code == ABS_MT_TRACKING_ID && t.pressed != (e.value != -1) then
      var down := e.value != -1;
      (t.(pressed := down, hadSlot0 := true, deferred := if down then SendLeft else SendLeftUp), Discarded, e)
    else if e.code == ABS_MT_SLOT && e.value != 0 then
      if t.hadSlot0 then (t.(slot := e.value), Passed, REPORT) else (t.(slot := e.value), Discarded, e)
    else if IsContactDetail(e.code) then (t.(hadSlot0 := true), Discarded, e)
    else (t, Passed, e)
  }

  /** `demultitouch`. */
  function Demux(t: Touch, e: Event): (Touch, Action, Event) {
    if t.Detached() then DemuxDetached(t, e)
    else if e.kind == EV_SYN then
      if e.code == SYN_MT_REPORT then (t.(slot := 1), Passed, e.(code := SYN_REPORT))
      else if e.code == SYN_REPORT then
        (t.(hadSlot0 := false, draining := !t.deferred.Nope?), if t.deferred.Nope? then Passed else Queued, e)
      else (t, Passed, e)
    else if e.kind == EV_ABS then DemuxAbs(t, e)
    else (t.(hadSlot0 := true), Passed, e)
  }

  /** One event that leaves `input_send`; `simulated` marks the button events
      that `demultitouch` made up. */
  datatype Output = Output(event: Event, simulated: bool)

  function Rank(t: Touch): nat {
    if !t.draining then 3
    else match t.deferred case Nope => 0 case SendSync => 1 case SendLeft => 2 case SendLeftUp => 2
  }

  /** The loop of `input_send` for one event to a paravirtual domain. */
  function Feed(t: Touch, e: Event): (Touch, seq<Output>)
    decreases Rank(t)
  {
    var (u, action, f) := Demux(t, e);
    if action == Discarded then (u, [])
    else
      var out := Output(f, t.Simulates());
      if action == Queued then
        var (v, rest) := Feed(u, f);
        (v, [out] + rest)
      else (u, [out])
  }

  function FeedAll(t: Touch, es: seq<Event>): (Touch, seq<Output>)
    decreases |es|
  {
    if es == [] then (t, [])
    else
      var (u, now) := Feed(t, es[0]);
      var (v, later) := FeedAll(u, es[1..]);
      (v, now + later)
  }

  // ----- The invariant ----------------------------------------------------

  /** What the output so far has to do with the state.  `last` is the last event
      that went out, `button` the last button state that was simulated. */
  datatype Sent = Sent(last: Event, button: bool)

  function After(s: Sent, o: Output): Sent {
    Sent(o.event, if o.simulated then o.event.value != 0 else s.button)
  }

  function AfterAll(s: Sent, os: seq<Output>): Sent
    decreases |os|
  {
    if os == [] then s else AfterAll(After(s, os[0]), os[1..])
  }

  ghost predicate Inv(t: Touch, s: Sent) {
    // A press that waits in the first slot will force a report before it.
    && (t.Pressing() && !t.Detached() ==> t.hadSlot0)
    // A press about to go out follows a report.
    && (t.Simulates() ==> s.last.IsReport())
    && (t.deferred.SendLeft? ==> t.pressed)
    && (t.deferred.SendLeftUp? ==> !t.pressed)
    // With nothing pending the simulated button is in the tracked state.
    && (!t.Pressing() ==> s.button == t.pressed)
    // Draining has something to drain: the warning is never printed.
    && (t.draining ==> !t.deferred.Nope?)
  }

  /** One call of `demultitouch` keeps the invariant, and what it simulates
      follows a report. */
  lemma DemuxKeeps(t: Touch, s: Sent, e: Event)
    requires Inv(t, s)
    ensures var (u, action, f) := Demux(t, e);
            && Inv(u, if action == Discarded then s else After(s, Output(f, t.Simulates())))
            && (t.Simulates() ==> action != Discarded && s.last.IsReport() && f.kind == EV_KEY && f.code == BTN_LEFT)
            && (action == Queued ==> Rank(u) < Rank(t) && u.draining)
            && (action != Queued ==> !u.draining)
  {
  }

  /** The event that went out before the i-th of `os`. */
  function Before(s: Sent, os: seq<Output>, i: nat): Event
    requires i <= |os|
  {
    if i == 0 then s.last else os[i - 1].event
  }

  /** The i-th output, if it is simulated, is a left button and directly follows
      a report. */
  predicate ClickFollowsReport(s: Sent, os: seq<Output>, i: nat)
    requires i < |os|
  {
    os[i].simulated ==> os[i].event.kind == EV_KEY && os[i].event.code == BTN_LEFT && Before(s, os, i).IsReport()
  }

  ghost predicate ClicksFollowReports(s: Sent, os: seq<Output>) {
    forall i | 0 <= i < |os| :: ClickFollowsReport(s, os, i)
  }

  lemma {:induction false} FeedKeeps(t: Touch, s: Sent, e: Event)
    requires Inv(t, s)
    ensures var (u, os) := Feed(t, e);
            && Inv(u, AfterAll(s, os)) && !u.draining
            && ClicksFollowReports(s, os)
            && |os| <= Rank(t) <= 3
    decreases Rank(t)
  {
    DemuxKeeps(t, s, e);
    var (u, action, f) := Demux(t, e);
    if action != Discarded {
      var out := Output(f, t.Simulates());
      assert [out][1..] == [];
      if action == Queued {
        FeedKeeps(u, After(s, out), f);
        var rest := Feed(u, f).1;
        assert ([out] + rest)[1..] == rest;
      }
    }
  }

  lemma {:induction false} AfterAllAppend(s: Sent, a: seq<Output>, b: seq<Output>)
    ensures AfterAll(s, a + b) == AfterAll(AfterAll(s, a), b)
    decreases |a|
  {
    if a == [] {
      assert a + b == b;
    } else {
      assert (a + b)[1..] == a[1..] + b;
      AfterAllAppend(After(s, a[0]), a[1..], b);
    }
  }

  lemma {:induction false} AfterAllLast(s: Sent, os: seq<Output>)
    ensures AfterAll(s, os).last == if os == [] then s.last else os[|os| - 1].event
    decreases |os|
  {
    if os != [] {
      AfterAllLast(After(s, os[0]), os[1..]);
    }
  }

  lemma ClicksAppend(s: Sent, a: seq<Output>, b: seq<Output>)
    requires ClicksFollowReports(s, a) && ClicksFollowReports(AfterAll(s, a), b)
    ensures ClicksFollowReports(s, a + b)
  {
    AfterAllLast(s, a);
    forall i | 0 <= i < |a + b| ensures ClickFollowsReport(s, a + b, i) {
      if i < |a| {
        assert ClickFollowsReport(s, a, i);
      } else {
        assert ClickFollowsReport(AfterAll(s, a), b, i - |a|);
        assert Before(AfterAll(s, a), b, i - |a|) == Before(s, a + b, i);
      }
    }
  }

  /** Clicks after positions: over every stream of events, each button event
      that `demultitouch` simulates directly follows a `SYN_REPORT`; and
      between two events nothing drains, and the last simulated button state is
      the tracked one unless a press is pending. */
  lemma {:induction false} ClicksAfterReports(t: Touch, s: Sent, es: seq<Event>)
    requires Inv(t, s) && !t.draining
    ensures var (u, os) := FeedAll(t, es);
            && Inv(u, AfterAll(s, os)) && !u.draining
            && ClicksFollowReports(s, os)
    decreases |es|
  {
    if es != [] {
      FeedKeeps(t, s, es[0]);
      var (u, now) := Feed(t, es[0]);
      ClicksAfterReports(u, AfterAll(s, now), es[1..]);
      var later := FeedAll(u, es[1..]).1;
      AfterAllAppend(s, now, later);
      ClicksAppend(s, now, later);
    }
  }

  /** Contact tracking: after any stream of events nothing drains, and unless a
      press is pending the last simulated button state is the tracked one. */
  lemma ButtonTracksContact(es: seq<Event>)
    ensures var (t, os) := FeedAll(IDLE, es);
            && !t.draining
            && (!t.Pressing() ==> AfterAll(Sent(LeftButton(false), false), os).button == t.pressed)
  {
    ClicksAfterReports(IDLE, Sent(LeftButton(false), false), es);
  }

  // ----- The Xen rings ----------------------------------------------------

  /** `union xenkbd_in_event`, the variants that are written. */
  datatype RingEntry =
    | Key(pressed: bool, keycode: int)
    | Motion(relX: int, relY: int, relZ: int)
    | Position(absX: int, absY: int, z: int)

  /** The static accumulators of `xen_event_send` and, as append-only logs, the
      rings of the absolute and of the relative device. */
  datatype Xen = Xen(
    absX: int, absY: int, absZ: int, absolute: nat,
    relX: int, relY: int, relZ: int, relative: nat,
    absRing: seq<RingEntry>, relRing: seq<RingEntry>)

  const XEN_IDLE := Xen(0, 0, 0, 0, 0, 0, 0, 0, [], [])

  function SendKey(x: Xen, down: bool, code: int): Xen {
    if BTN_LEFT <= code <= BTN_TASK then x.(absRing := x.absRing + [Key(down, code)])
    else x.(relRing := x.relRing + [Key(down, code)])
  }

  function Accumulate(x: Xen, e: Event): Xen {
    if e.kind == EV_REL then
      var y := x.(relative := x.relative + 1);
      if e.code == REL_X then y.(relX := e.value)
      else if e.code == REL_Y then y.(relY := e.value)
      else if e.code == REL_WHEEL then y.(relZ := -e.value)
      else y
    else if e.kind == EV_ABS then
      var y := x.(absolute := x.absolute + 1);
      if e.code == ABS_X then y.(absX := e.value)
      else if e.code == ABS_Y then y.(absY := e.value)
      else if e.code == ABS_WHEEL then y.(absZ := -e.value)
      else y
    else x
  }

  function FlushMotion(x: Xen): Xen {
    if x.relative == 0 then x
    else x.(relRing := x.relRing + [Motion(x.relX, x.relY, x.relZ)], relative := 0, relX := 0, relY := 0, relZ := 0)
  }

  function FlushPosition(x: Xen): Xen {
    if x.absolute == 0 then x
    else x.(absRing := x.absRing + [Position(x.absX, x.absY, x.absZ)], absolute := 0, absZ := 0)
  }

  /** `xen_event_send`. */
  function XenSend(x: Xen, e: Event): Xen {
    if e.kind == EV_KEY then SendKey(x, e.value != 0, e.code)
    else if e.IsReport() then FlushPosition(FlushMotion(x))
    else Accumulate(x, e)
  }

  function XenSendAll(x: Xen, os: seq<Output>): Xen {
    if os == [] then x else XenSend(XenSendAll(x, os[..|os| - 1]), os[|os| - 1].event)
  }

  /** The last value that went out on an absolute axis, or where it started. */
  function Latest(os: seq<Output>, axis: int): int {
    if os == [] then 0
    else
      var e := os[|os| - 1].event;
      if e.kind == EV_ABS && e.code == axis then e.value else Latest(os[..|os| - 1], axis)
  }

  /** Where the guest sees the pointer: the last position in the ring. */
  function Seen(ring: seq<RingEntry>): (int, int) {
    if ring == [] then (0, 0)
    else
      var r := ring[|ring| - 1];
      if r.Position? then (r.absX, r.absY) else Seen(ring[..|ring| - 1])
  }

  lemma SeenSnoc(ring: seq<RingEntry>, r: RingEntry)
    ensures Seen(ring + [r]) == if r.Position? then (r.absX, r.absY) else Seen(ring)
  {
    assert (ring + [r])[..|ring|] == ring;
  }

  /** The accumulators hold the latest coordinates, and unless some are unsent
      the guest has seen them. */
  lemma {:induction false} AccumulatorsTrack(os: seq<Output>)
    ensures var x := XenSendAll(XEN_IDLE, os);
            && x.absX == Latest(os, ABS_X) && x.absY == Latest(os, ABS_Y)
            && (x.absolute == 0 ==> Seen(x.absRing) == (x.absX, x.absY))
    decreases |os|
  {
    if os != [] {
      var before := os[..|os| - 1];
      var x := XenSendAll(XEN_IDLE, before);
      var e := os[|os| - 1].event;
      AccumulatorsTrack(before);
      SeenSnoc(x.absRing, Key(e.value != 0, e.code));
      SeenSnoc(x.absRing, Position(x.absX, x.absY, x.absZ));
    }
  }

  lemma ReportLeavesNothingUnsent(os: seq<Output>)
    requires os != [] && os[|os| - 1].event.IsReport()
    ensures XenSendAll(XEN_IDLE, os).absolute == 0 && XenSendAll(XEN_IDLE, os).relative == 0
  {
  }

  /** Every click comes after its position: over every stream of input events to
      one domain, when a simulated click is written to the ring of the absolute
      device, no coordinate is left unsent, and the last position written there
      is made of the latest coordinates that came in. */
  lemma ClickComesAfterPosition(es: seq<Event>, i: nat)
    requires var os := FeedAll(IDLE, es).1; i < |os| && os[i].simulated
    ensures var os := FeedAll(IDLE, es).1;
            var x, y := XenSendAll(XEN_IDLE, os[..i]), XenSendAll(XEN_IDLE, os[..i + 1]);
            && x.absolute == 0 && x.relative == 0
            && y.absRing == x.absRing + [Key(os[i].event.value != 0, BTN_LEFT)] && y.relRing == x.relRing
            && Seen(x.absRing) == (Latest(os[..i], ABS_X), Latest(os[..i], ABS_Y))
  {
    hide Demux, Feed, FeedAll, Inv, AfterAll;
    var os := FeedAll(IDLE, es).1;
    assert Inv(IDLE, Sent(LeftButton(false), false)) by {
      StartsInvariant();
    }
    ClicksAfterReports(IDLE, Sent(LeftButton(false), false), es);
    assert ClickFollowsReport(Sent(LeftButton(false), false), os, i);
    assert i > 0 && os[i - 1].event.IsReport();
    var before := os[..i];
    assert before[i - 1] == os[i - 1];
    ReportLeavesNothingUnsent(before);
    AccumulatorsTrack(before);
    assert os[..i + 1][..i] == before;
  }

  lemma StartsInvariant()
    ensures Inv(IDLE, Sent(LeftButton(false), false))
  {
  }

  // ----- The code ---------------------------------------------------------

  /** The event that the caller of `input_send` owns and that is rewritten. */
  class EventCell {
    var kind: int
    var code: int
    var value: int

    function Get(): Event
      reads this
    {
      Event(kind, code, value)
    }

    constructor (e: Event)
      ensures Get() == e
    {
      kind, code, value := e.kind, e.code, e.value;
    }

    method Set(e: Event)
      modifies this
      ensures Get() == e
    {
      kind, code, value := e.kind, e.code, e.value;
    }
  }

  class XenBackend {
    var absX: int
    var absY: int
    var absZ: int
    var absolute: nat
    var relX: int
    var relY: int
    var relZ: int
    var relative: nat
    var absRing: seq<RingEntry>
    var relRing: seq<RingEntry>

    function State(): Xen
      reads this
    {
      Xen(absX, absY, absZ, absolute, relX, relY, relZ, relative, absRing, relRing)
    }

    constructor ()
      ensures State() == XEN_IDLE
    {
      absX, absY, absZ, absolute := 0, 0, 0, 0;
      relX, relY, relZ, relative := 0, 0, 0, 0;
      absRing, relRing := [], [];
    }

    /** `xen_event_send_key`. */
    method WriteKey(down: bool, keycode: int)
      modifies this`absRing, this`relRing
      ensures State() == SendKey(old(State()), down, keycode)
    {
      if BTN_LEFT <= keycode <= BTN_TASK {
        absRing := absRing + [Key(down, keycode)];
      } else {
        relRing := relRing + [Key(down, keycode)];
      }
    }

    /** `xen_event_send`. */
    method Send(e: Event)
      modifies this
      ensures State() == XenSend(old(State()), e)
    {
      if e.kind == EV_KEY {
        WriteKey(e.value != 0, e.code);
      }
      if e.kind == EV_REL {
        if e.code == REL_X {
          relX := e.value;
        } else if e.code == REL_Y {
          relY := e.value;
        } else if e.code == REL_WHEEL {
          relZ := -e.value;
        }
        relative := relative + 1;
      }
      if e.kind == EV_ABS {
        if e.code == ABS_X {
          absX := e.value;
        } else if e.code == ABS_Y {
          absY := e.value;
        } else if e.code == ABS_WHEEL {
          absZ := -e.value;
        }
        absolute := absolute + 1;
      }
      if e.kind == EV_SYN && e.code == SYN_REPORT {
        if relative != 0 {
          relRing := relRing + [Motion(relX, relY, relZ)];
          relative, relX, relY, relZ := 0, 0, 0, 0;
        }
        if absolute != 0 {
          absRing := absRing + [Position(absX, absY, absZ)];
          absolute, absZ := 0, 0;
        }
      }
    }
  }

  /** The sending side for one paravirtual domain.  `outputs` lists what went to
      the backend since the start. */
  class TouchSender {
    var deferred: SimPress
    var draining: bool
    var slot: int
    var pressed: bool
    var hadSlot0: bool
    const backend: XenBackend
    ghost var outputs: seq<Output>

    function State(): Touch
      reads this
    {
      Touch(deferred, draining, slot, pressed, hadSlot0)
    }

    ghost predicate Valid()
      reads this, backend
    {
      && !draining
      && Inv(State(), AfterAll(Sent(LeftButton(false), false), outputs))
      && ClicksFollowReports(Sent(LeftButton(false), false), outputs)
      && Linked()
    }

    ghost predicate Linked()
      reads this, backend
    {
      backend.State() == XenSendAll(XEN_IDLE, outputs)
    }

    constructor ()
      ensures Valid() && State() == IDLE && outputs == [] && fresh(backend)
    {
      deferred, draining, slot, pressed, hadSlot0 := Nope, false, 0, false, false;
      backend := new XenBackend();
      outputs := [];
    }

    /** The branch of `demultitouch` for a detached state. */
    method DemultitouchDetached(e: EventCell) returns (action: Action)
      requires State().Detached()
      modifies this`deferred, this`draining, this`slot, this`hadSlot0, e
      ensures (State(), action, e.Get()) == DemuxDetached(old(State()), old(e.Get()))
    {
      if !draining {
        if e.kind == EV_SYN && e.code == SYN_REPORT {
          slot := 0;
          hadSlot0 := false;
        }
        if e.kind == EV_ABS && e.code == ABS_MT_SLOT {
          slot := e.value;
          if slot == 0 {
            hadSlot0 := true;
          }
        }
      }
      match deferred
      case SendSync =>
        e.Set(REPORT);
        deferred := Nope;
        draining := false;
        return Passed;
      case SendLeft =>
        e.Set(LeftButton(true));
        deferred := SendSync;
        return if draining then Queued else Passed;
      case SendLeftUp =>
        e.Set(LeftButton(false));
        deferred := SendSync;
        return if draining then Queued else Passed;
      case Nope =>
        return Discarded;
    }

    /** `demultitouch`. */
    method Demultitouch(e: EventCell) returns (action: Action)
      modifies this`deferred, this`draining, this`slot, this`pressed, this`hadSlot0, e
      ensures (State(), action, e.Get()) == Demux(old(State()), old(e.Get()))
    {
      if slot != 0 || draining {
        action := DemultitouchDetached(e);
        return;
      }
      if e.kind == EV_SYN {
        if e.code == SYN_MT_REPORT {
          e.code := SYN_REPORT;
          slot := 1;
        } else if e.code == SYN_REPORT {
          hadSlot0 := false;
          if deferred != Nope {
            draining := true;
            return Queued;
          }
        }
        return Passed;
      }
      if e.kind == EV_ABS {
        action := DemultitouchAbs(e);
        return;
      }
      hadSlot0 := true;
      return Passed;
    }

    method DemultitouchAbs(e: EventCell) returns (action: Action)
      requires slot == 0
      modifies this`deferred, this`slot, this`pressed, this`hadSlot0, e
      ensures (State(), action, e.Get()) == DemuxAbs(old(State()), old(e.Get()))
    {
      if e.code == ABS_MT_POSITION_X {
        e.code := ABS_X;
      } else if e.code == ABS_MT_POSITION_Y {
        e.code := ABS_Y;
      } else if e.code == ABS_MT_TRACKING_ID {
        var nowPressed := e.value != -1;
        if pressed != nowPressed {
          pressed := nowPressed;
          hadSlot0 := true;
          deferred := if pressed then SendLeft else SendLeftUp;
          return Discarded;
        }
      } else if e.code == ABS_MT_SLOT {
        slot := e.value;
        if slot != 0 {
          if hadSlot0 {
            e.Set(REPORT);
            return Passed;
          }
          return Discarded;
        }
      } else if IsContactDetail(e.code) {
        hadSlot0 := true;
        return Discarded;
      }
      return Passed;
    }

    /** One turn of the loop of `input_send`. */
    method Pass(e: EventCell) returns (action: Action)
      requires Linked()
      modifies this, backend, e
      ensures Linked()
      ensures (State(), action, e.Get()) == Demux(old(State()), old(e.Get()))
      ensures outputs == old(outputs) + if action == Discarded then [] else [Output(e.Get(), old(State()).Simulates())]
    {
      ghost var simulated := State().Simulates();
      action := Demultitouch(e);
      if action != Discarded {
        backend.Send(e.Get());
        ghost var os := outputs + [Output(e.Get(), simulated)];
        assert os[..|os| - 1] == outputs;
        outputs := os;
      }
    }

    /** `input_send` for this domain. */
    method InputSend(e: EventCell)
      requires Valid()
      modifies this, backend, e
      ensures Valid()
      ensures old(outputs) <= outputs
      ensures (State(), outputs[|old(outputs)|..]) == Feed(old(State()), old(e.Get()))
      ensures |outputs| <= |old(outputs)| + 3
    {
      hide Demux, Inv, ClickFollowsReport, XenSendAll, AfterAll, Feed, Rank;
      ghost var start, s := Sent(LeftButton(false), false), outputs;
      ghost var goal := Feed(State(), e.Get());
      FeedKeeps(State(), AfterAll(start, s), e.Get());
      var action := Queued;
      while action == Queued
        invariant Linked()
        invariant action == Queued ==> Outlook(e) == (goal.0, s + goal.1)
        invariant action != Queued ==> (State(), outputs) == (goal.0, s + goal.1)
        decreases action == Queued, Rank(State())
      {
        ghost var before, cell, earlier := State(), e.Get(), outputs;
        action := Pass(e);
        FeedUnfolds(before, cell, earlier);
      }
      AfterAllAppend(start, s, goal.1);
      ClicksAppend(start, s, goal.1);
    }

    /** Where the loop of `input_send` will end. */
    ghost function Outlook(e: EventCell): (Touch, seq<Output>)
      reads this, e
    {
      var (t, os) := Feed(State(), e.Get());
      (t, outputs + os)
    }
  }

  lemma FeedUnfolds(t: Touch, e: Event, outputs: seq<Output>)
    ensures var (u, action, f) := Demux(t, e);
            var now := outputs + if action == Discarded then [] else [Output(f, t.Simulates())];
            && (action == Queued ==> Rank(u) < Rank(t))
            && Feed(t, e).0 == (if action == Queued then Feed(u, f).0 else u)
            && outputs + Feed(t, e).1 == (if action == Queued then now + Feed(u, f).1 else now)
  {
  }
}
