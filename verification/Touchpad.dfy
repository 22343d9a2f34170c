/** Types shared by the parts of the touchpad driver (`touchpad.c`).  C doubles
    are modelled as reals and time stamps as seconds. */
module TouchpadTypes {

  /** `struct touchpad_packet` once it is complete; `finger` is the outcome of
      `detect_finger`. */
  datatype Packet = Packet(x: int, y: int, finger: bool, time: real)

  /** The members of `struct touchpad_limits` and `struct touchpad_config` that
      gestures, motion and scrolling look at. */
  datatype Limits = Limits(
    noX: int, noY: int, tapMove: int,
    rightEdge: int, bottomEdge: int, topEdge: int,
    isClickpad: bool, scrollDist: int, speed: real,
    tapToClick: bool, scrolling: bool)

  /** `enum edge_type`, a set of bits. */
  datatype Edge = Edge(right: bool, bottom: bool, top: bool)

  /** `detect_edge`. */
  function DetectEdge(x: int, y: int, tl: Limits): Edge {
    Edge(x > tl.rightEdge, y > tl.bottomEdge, y <= tl.bottomEdge && y < tl.topEdge)
  }

  /** A product of doubles, named so that proofs can leave it alone. */
  function Times(a: real, b: real): real {
    a * b
  }

  function Abs(v: int): nat {
    if v < 0 then -v else v
  }
}

/** `handle_gestures`: taps, double taps and tap-and-drag, interleaved with a
    one-shot timer that turns a lone tap into a click. */
module Gestures {
  import opened TouchpadTypes

  datatype TapState = Start | Touching | Moving | SingleTapPending | PossibleDrag | Drag

  /** The gesture part of `struct touchpad_state`, the static variables of
      `handle_gestures`, the click timer, and the left-button events that
      gestures have generated since the last reset: `true` is a press. */
  datatype Pad = Pad(
    tap: TapState,
    touchX: int, touchY: int, touchEdge: Edge,
    lastFinger: bool, lastX: int, lastY: int,
    timer: bool,
    off: bool,
    clicks: seq<bool>)

  function Click(p: Pad): Pad {
    p.(clicks := p.clicks + [true, false])
  }

  predicate Touched(p: Pad, pk: Packet) {
    pk.finger && !p.lastFinger
  }

  predicate Released(p: Pad, pk: Packet) {
    !pk.finger && p.lastFinger
  }

  predicate Moved(p: Pad, pk: Packet, tl: Limits) {
    && pk.finger && p.lastFinger
    && ((pk.x != tl.noX && Abs(pk.x - p.touchX) >= tl.tapMove) ||
        (pk.y != tl.noY && Abs(pk.y - p.touchY) >= tl.tapMove))
  }

  /** Where the finger came down. */
  function NoteTouch(p: Pad, pk: Packet, tl: Limits): Pad {
    if !Touched(p, pk) then p
    else
      var x := if pk.x != tl.noX then pk.x else p.lastX;
      var y := if pk.y != tl.noY then pk.y else p.lastY;
      p.(touchX := x, touchY := y, touchEdge := DetectEdge(x, y, tl))
  }

  predicate TapAllowed(p: Pad, tl: Limits) {
    tl.tapToClick && !(tl.isClickpad && p.touchEdge.bottom)
  }

  /** The switch over `tapstate`. */
  function Advance(p: Pad, touch: bool, release: bool, move: bool, tl: Limits): Pad {
    match p.tap
    case Start => if touch then p.(tap := Touching) else p
    case Touching =>
      if move then p.(tap := Moving)
      else if release then
        if TapAllowed(p, tl) then p.(tap := SingleTapPending, timer := true) else p.(tap := Start)
      else p
    case Moving => if release then p.(tap := Start) else p
    case SingleTapPending =>
      if !touch then p
      else if TapAllowed(p, tl) then p.(tap := PossibleDrag, timer := false)
      else Click(p).(tap := Touching, timer := false)
    case PossibleDrag =>
      if move then p.(tap := Drag, clicks := p.clicks + [true])
      else if release then Click(Click(p)).(tap := Start)
      else p
    case Drag => if release then p.(tap := Start, clicks := p.clicks + [false]) else p
  }

  /** `handle_gestures`. */
  function Handle(p: Pad, pk: Packet, tl: Limits): Pad {
    Advance(NoteTouch(p, pk, tl), Touched(p, pk), Released(p, pk), Moved(p, pk, tl), tl)
  }

  /** `save_previous_packet_values`. */
  function Save(p: Pad, pk: Packet, tl: Limits): Pad {
    p.(lastFinger := pk.finger,
       lastX := if pk.x != tl.noX then pk.x else p.lastX,
       lastY := if pk.y != tl.noY then pk.y else p.lastY)
  }

  /** `send_left_click_event`, when the timer fires. */
  function Fire(p: Pad): Pad {
    (if p.tap.SingleTapPending? then Click(p).(tap := Start) else p).(timer := false)
  }

  /** What may happen between two resets of the touchpad.  Every packet comes
      with its own limits and configuration, since both may change on the way. */
  datatype Op = Arrive(pk: Packet, tl: Limits) | TimerFires | Disable

  function Step(p: Pad, op: Op): Pad {
    match op
    case Arrive(pk, tl) => if p.off then p else Save(Handle(p, pk, tl), pk, tl)
    case TimerFires => Fire(p)
    case Disable => p.(off := true)
  }

  function Run(p: Pad, ops: seq<Op>): Pad
    decreases |ops|
  {
    if ops == [] then p else Run(Step(p, ops[0]), ops[1..])
  }

  /** `init_touchpad_state`; the timer is not armed, nothing is pressed. */
  function Fresh(touchX: int, touchY: int, touchEdge: Edge): Pad {
    Pad(Start, touchX, touchY, touchEdge, false, 0, 0, false, false, [])
  }

  // ----- Discipline -------------------------------------------------------

  predicate FingerDown(t: TapState) {
    t.Touching? || t.Moving? || t.PossibleDrag? || t.Drag?
  }

  /** Presses and releases alternate, a press is outstanding exactly during a
      drag, the finger is down exactly in four of the states, and the timer is
      armed exactly while a single tap is pending. */
  ghost predicate Disciplined(p: Pad) {
    && (forall i | 0 <= i < |p.clicks| :: p.clicks[i] == (i % 2 == 0))
    && (|p.clicks| % 2 == 1 <==> p.tap.Drag?)
    && (p.lastFinger <==> FingerDown(p.tap))
    && (p.timer <==> p.tap.SingleTapPending?)
  }

  lemma StepIsDisciplined(p: Pad, op: Op)
    requires Disciplined(p)
    ensures Disciplined(Step(p, op))
  {
  }

  lemma {:induction false} RunIsDisciplined(p: Pad, ops: seq<Op>)
    requires Disciplined(p)
    ensures Disciplined(Run(p, ops))
    decreases |ops|
  {
    if ops != [] {
      StepIsDisciplined(p, ops[0]);
      RunIsDisciplined(Step(p, ops[0]), ops[1..]);
    }
  }

  // ----- Conservation of taps --------------------------------------------

  function Presses(clicks: seq<bool>): nat {
    if clicks == [] then 0
    else Presses(clicks[..|clicks| - 1]) + if clicks[|clicks| - 1] then 1 else 0
  }

  /** A tap is recognised when the finger leaves without having moved: out of a
      first touch that may click, or out of a possible drag. */
  function Taps(p: Pad, op: Op): nat {
    if !op.Arrive? || p.off || !Released(p, op.pk) then 0
    else if p.tap.Touching? && TapAllowed(p, op.tl) then 1
    else if p.tap.PossibleDrag? then 1
    else 0
  }

  function AllTaps(p: Pad, ops: seq<Op>): nat
    decreases |ops|
  {
    if ops == [] then 0 else Taps(p, ops[0]) + AllTaps(Step(p, ops[0]), ops[1..])
  }

  /** Taps that are recognised but have not become a press yet. */
  function Owed(p: Pad): nat {
    if p.tap.SingleTapPending? || p.tap.PossibleDrag? then 1 else 0
  }

  lemma PressesSnoc(clicks: seq<bool>, down: bool)
    ensures Presses(clicks + [down]) == Presses(clicks) + if down then 1 else 0
  {
    assert (clicks + [down])[..|clicks|] == clicks;
  }

  lemma PressesOfClick(clicks: seq<bool>)
    ensures Presses(clicks + [true, false]) == Presses(clicks) + 1
  {
    assert clicks + [true, false] == (clicks + [true]) + [false];
    PressesSnoc(clicks, true);
    PressesSnoc(clicks + [true], false);
  }

  lemma StepConservesTaps(p: Pad, op: Op)
    requires Disciplined(p)
    ensures Presses(Step(p, op).clicks) + Owed(Step(p, op)) == Presses(p.clicks) + Owed(p) + Taps(p, op)
  {
    hide Presses, DetectEdge, Abs;
    PressesSnoc(p.clicks, true);
    PressesSnoc(p.clicks, false);
    PressesOfClick(p.clicks);
    PressesOfClick(p.clicks + [true, false]);
  }

  /** Over any interleaving of packets, changes of configuration and timer
      firings, every tap becomes exactly one press, now or later. */
  lemma {:induction false} RunConservesTaps(p: Pad, ops: seq<Op>)
    requires Disciplined(p)
    ensures Presses(Run(p, ops).clicks) + Owed(Run(p, ops)) == Presses(p.clicks) + Owed(p) + AllTaps(p, ops)
    decreases |ops|
  {
    if ops != [] {
      StepIsDisciplined(p, ops[0]);
      StepConservesTaps(p, ops[0]);
      RunConservesTaps(Step(p, ops[0]), ops[1..]);
    }
  }

  /** From a reset on: presses = taps, but for the one that may be owed. */
  lemma TapsBecomePresses(touchX: int, touchY: int, touchEdge: Edge, ops: seq<Op>)
    ensures var p := Run(Fresh(touchX, touchY, touchEdge), ops);
            && Disciplined(p)
            && Presses(p.clicks) + Owed(p) == AllTaps(Fresh(touchX, touchY, touchEdge), ops)
  {
    RunIsDisciplined(Fresh(touchX, touchY, touchEdge), ops);
    RunConservesTaps(Fresh(touchX, touchY, touchEdge), ops);
  }
}
