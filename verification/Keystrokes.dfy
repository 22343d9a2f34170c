/** From keystrokes to the text that is hashed: `auth_collect_key` and
    `auth_backspace` (`input.c`) build a UTF-8 field, `utf8_to_utf16le`
    (`secure.c`) turns it into UTF-16LE. */
module Keystrokes {

  // ----- Encodings --------------------------------------------------------

  /** A Unicode code point. */
  type CodePoint = c: bv32 | c < 0x110000

  /** UTF-8, section 3 of RFC 3629. */
  function Utf8(c: CodePoint): (s: seq<bv8>)
    ensures s != []
  {
    if c < 0x80 then [c as bv8]
    else if c < 0x800 then [(0xC0 | (c >> 6)) as bv8, (0x80 | (c & 0x3F)) as bv8]
    else if c < 0x10000 then
      [(0xE0 | (c >> 12)) as bv8, (0x80 | ((c >> 6) & 0x3F)) as bv8, (0x80 | (c & 0x3F)) as bv8]
    else
      [(0xF0 | (c >> 18)) as bv8, (0x80 | ((c >> 12) & 0x3F)) as bv8, (0x80 | ((c >> 6) & 0x3F)) as bv8,
       (0x80 | (c & 0x3F)) as bv8]
  }

  function Utf8All(text: seq<CodePoint>): seq<bv8> {
    if text == [] then [] else Utf8(text[0]) + Utf8All(text[1..])
  }

  /** A 16-bit unit, low byte first. */
  function Unit(v: bv16): (s: seq<bv8>)
    ensures |s| == 2
  {
    [(v & 0xFF) as bv8, (v >> 8) as bv8]
  }

  /** UTF-16LE of text in the basic multilingual plane. */
  function Utf16All(text: seq<CodePoint>): (s: seq<bv8>)
    requires forall i | 0 <= i < |text| :: text[i] < 0x10000
    ensures |s| == 2 * |text|
  {
    if text == [] then [] else Unit(text[0] as bv16) + Utf16All(text[1..])
  }

  /** The text up to the first code point outside that plane. */
  function BasicPrefix(text: seq<CodePoint>): (p: seq<CodePoint>)
    ensures forall i | 0 <= i < |p| :: p[i] < 0x10000
    ensures p <= text && (|p| < |text| ==> text[|p|] >= 0x10000)
  {
    if text == [] || text[0] >= 0x10000 then [] else [text[0]] + BasicPrefix(text[1..])
  }

  // ----- The conversion ---------------------------------------------------

  function TwoBytes(c: bv8, c2: bv8): bv16 {
    ((c & 0x1F) as bv16 << 6) | (c2 & 0x3F) as bv16
  }

  function ThreeBytes(c: bv8, c2: bv8, c3: bv8): bv16 {
    ((c & 0x0F) as bv16 << 12) | ((c2 & 0x3F) as bv16 << 6) | (c3 & 0x3F) as bv16
  }

  /** How many bytes the first byte announces; 0 where the conversion gives up. */
  function Announced(c: bv8): nat {
    var k := c >> 4;
    if k < 8 then 1 else if k == 12 || k == 13 then 2 else if k == 14 then 3 else 0
  }

  /** What `utf8_to_utf16le` writes for `s`: it stops at a byte it does not
      understand and at a sequence that is cut off. */
  function Convert(s: seq<bv8>): (d: seq<bv8>)
    ensures |d| <= 2 * |s|
  {
    if s == [] then []
    else
      var n := Announced(s[0]);
      if n == 0 || |s| < n then []
      else Unit(Converted(s, n)) + Convert(s[n..])
  }

  function Converted(s: seq<bv8>, n: nat): bv16
    requires 1 <= n <= |s|
  {
    if n == 1 then s[0] as bv16
    else if n == 2 then TwoBytes(s[0], s[1])
    else if n == 3 then ThreeBytes(s[0], s[1], s[2])
    else 0
  }

  lemma AnnouncesOne(c: bv32)
    requires c < 0x80
    ensures (c as bv8) >> 4 < 8 && (c as bv8) as bv16 == c as bv16
  {
  }

  lemma AnnouncesTwo(c: bv32)
    requires 0x80 <= c < 0x800
    ensures var b := (0xC0 | (c >> 6)) as bv8; b >> 4 == 12 || b >> 4 == 13
    ensures TwoBytes((0xC0 | (c >> 6)) as bv8, (0x80 | (c & 0x3F)) as bv8) == c as bv16
  {
  }

  lemma AnnouncesThree(c: bv32)
    requires 0x800 <= c < 0x10000
    ensures (0xE0 | (c >> 12)) as bv8 >> 4 == 14
    ensures ThreeBytes((0xE0 | (c >> 12)) as bv8, (0x80 | ((c >> 6) & 0x3F)) as bv8, (0x80 | (c & 0x3F)) as bv8) == c as bv16
  {
  }

  lemma AnnouncesFour(c: bv32)
    requires 0x10000 <= c < 0x110000
    ensures (0xF0 | (c >> 18)) as bv8 >> 4 == 15
  {
  }

  lemma NothingToConvert()
    ensures Convert([]) == []
  {
  }

  lemma Utf8IsRead(c: CodePoint, rest: seq<bv8>)
    ensures c < 0x10000 ==> Convert(Utf8(c) + rest) == Unit(c as bv16) + Convert(rest)
    ensures c >= 0x10000 ==> Convert(Utf8(c) + rest) == []
  {
    hide TwoBytes, ThreeBytes, Unit;
    var s := Utf8(c) + rest;
    if c < 0x80 {
      AnnouncesOne(c);
      assert s[1..] == rest;
    } else if c < 0x800 {
      AnnouncesTwo(c);
      assert s[2..] == rest;
    } else if c < 0x10000 {
      AnnouncesThree(c);
      assert s[3..] == rest;
    } else {
      AnnouncesFour(c);
    }
  }

  /** For every text, the conversion of its UTF-8 form is the UTF-16LE form of
      its part before the first code point outside the basic plane. */
  lemma {:induction false} ConversionIsCorrect(text: seq<CodePoint>)
    ensures Convert(Utf8All(text)) == Utf16All(BasicPrefix(text))
  {
    hide Utf8, Convert, Unit, BasicPrefix, Utf16All;
    BasicPrefixForms(text);
    if text == [] {
      NothingToConvert();
    } else {
      Utf8IsRead(text[0], Utf8All(text[1..]));
      if text[0] < 0x10000 {
        ConversionIsCorrect(text[1..]);
      }
    }
  }

  /** The UTF-16LE form of the basic prefix, one code point at a time. */
  lemma BasicPrefixForms(text: seq<CodePoint>)
    ensures Utf16All(BasicPrefix(text)) ==
            if text == [] || text[0] >= 0x10000 then []
            else Unit(text[0] as bv16) + Utf16All(BasicPrefix(text[1..]))
  {
    hide Unit, BasicPrefix, Utf16All;
    BasicPrefixEnds(text);
    if text != [] && text[0] < 0x10000 {
      Utf16Cons(text[0], BasicPrefix(text[1..]));
    }
  }

  lemma BasicPrefixEnds(text: seq<CodePoint>)
    ensures BasicPrefix(text) ==
            if text == [] || text[0] >= 0x10000 then [] else [text[0]] + BasicPrefix(text[1..])
    ensures Utf16All([]) == []
  {
  }

  lemma Utf16Cons(c: CodePoint, rest: seq<CodePoint>)
    requires c < 0x10000 && forall i | 0 <= i < |rest| :: rest[i] < 0x10000
    ensures Utf16All([c] + rest) == Unit(c as bv16) + Utf16All(rest)
  {
    hide Unit;
    assert ([c] + rest)[1..] == rest;
  }

  /** Bytes at which the conversion gives up: none, a byte that starts nothing it
      knows, or a sequence that is cut off. */
  predicate GivesUp(bad: seq<bv8>) {
    bad == [] || (
      var b := bad[0];
      || 0x80 <= b < 0xC0 || 0xF0 <= b
      || (0xC0 <= b < 0xE0 && |bad| < 2) || (0xE0 <= b < 0xF0 && |bad| < 3))
  }

  lemma GivingUpConvertsNothing(bad: seq<bv8>)
    requires GivesUp(bad)
    ensures Convert(bad) == []
  {
    if bad != [] {
      LeadingByte(bad[0]);
    }
  }

  lemma LeadingByte(b: bv8)
    ensures Announced(b) == if b < 0x80 then 1 else if b < 0xC0 then 0 else if b < 0xE0 then 2 else if b < 0xF0 then 3 else 0
  {
  }

  /** In front of malformed bytes all text is converted, and nothing after it. */
  lemma {:induction false} ConversionStopsAtMalformed(text: seq<CodePoint>, bad: seq<bv8>)
    requires GivesUp(bad) && forall i | 0 <= i < |text| :: text[i] < 0x10000
    ensures Convert(Utf8All(text) + bad) == Utf16All(text)
  {
    hide Utf8, Convert, Unit, GivesUp;
    if text == [] {
      GivingUpConvertsNothing(bad);
      assert Utf8All(text) + bad == bad;
    } else {
      var c, rest := text[0], text[1..];
      Utf8IsRead(c, Utf8All(rest) + bad);
      assert Utf8All(text) + bad == Utf8(c) + (Utf8All(rest) + bad);
      ConversionStopsAtMalformed(rest, bad);
    }
  }

  /** So it is complete exactly for text in the basic plane. */
  lemma ConversionIsCompleteExactly(text: seq<CodePoint>)
    ensures |Convert(Utf8All(text))| == 2 * |text| <==> forall i | 0 <= i < |text| :: text[i] < 0x10000
  {
    ConversionIsCorrect(text);
    if forall i | 0 <= i < |text| :: text[i] < 0x10000 {
      assert |BasicPrefix(text)| == |text|;
    }
  }

  // ----- Keystrokes -------------------------------------------------------

  /** A character of a Latin-1 keymap; 0 stands for keys that have none, which
      are not collected. */
  type Latin1 = k: bv8 | k != 0 witness 1

  /** A key with a character, or the backspace key. */
  datatype Stroke = Key(k: Latin1) | Backspace

  /** The bytes that `auth_collect_key` adds for a key: as a signed character it
      is not negative below 0x80. */
  function KeyBytes(k: bv8): (s: seq<bv8>)
    ensures s != [] && |s| <= 2
  {
    if k < 0x80 then [k] else [0xC0 | ((k >> 6) & 0x1F), 0x80 | (k & 0x3F)]
  }

  lemma KeyBytesAreUtf8(k: bv8)
    ensures KeyBytes(k) == Utf8(CodePointOf(k))
  {
    if k >= 0x80 {
      HighKey(k);
    }
  }

  lemma HighKey(k: bv8)
    requires k >= 0x80
    ensures (0xC0 | (k as bv32 >> 6)) as bv8 == 0xC0 | ((k >> 6) & 0x1F)
    ensures (0x80 | (k as bv32 & 0x3F)) as bv8 == 0x80 | (k & 0x3F)
  {
  }

  /** The field and the cursor; a field that is missing is empty. */
  datatype Field = Field(text: seq<bv8>, cursor: nat)

  function Min(a: nat, b: nat): nat {
    if a < b then a else b
  }

  /** `auth_collect_key` and `auth_backspace` on the current field. */
  function Strike(f: Field, s: Stroke): Field {
    match s
    case Key(k) =>
      var cu := Min(f.cursor, |f.text|);
      Field(f.text[..cu] + KeyBytes(k) + f.text[cu..], f.cursor + |KeyBytes(k)|)
    case Backspace =>
      if f.text == [] then f
      else Field(f.text[..|f.text| - 1], if f.cursor > 0 then f.cursor - 1 else 0)
  }

  function StrikeAll(f: Field, ss: seq<Stroke>): Field
    decreases |ss|
  {
    if ss == [] then f else StrikeAll(Strike(f, ss[0]), ss[1..])
  }

  /** What the user has typed: keys are added, backspace takes the last away. */
  function Typed(keys: seq<Latin1>, s: Stroke): seq<Latin1> {
    match s
    case Key(k) => keys + [k]
    case Backspace => if keys == [] then [] else keys[..|keys| - 1]
  }

  function TypedAll(keys: seq<Latin1>, ss: seq<Stroke>): seq<Latin1>
    decreases |ss|
  {
    if ss == [] then keys else TypedAll(Typed(keys, ss[0]), ss[1..])
  }

  function BytesOf(keys: seq<Latin1>): seq<bv8> {
    if keys == [] then [] else BytesOf(keys[..|keys| - 1]) + KeyBytes(keys[|keys| - 1])
  }

  /** Backspace removes one byte, so it takes away the last key, whole, exactly
      if that key is ASCII. */
  lemma BackspaceIsExact(keys: seq<Latin1>)
    requires keys != []
    ensures BytesOf(keys) != []
    ensures BytesOf(keys)[..|BytesOf(keys)| - 1] == BytesOf(keys[..|keys| - 1]) <==> keys[|keys| - 1] < 0x80
  {
    var before := BytesOf(keys[..|keys| - 1]);
    var last := KeyBytes(keys[|keys| - 1]);
    assert (before + last)[..|before|] == before;
    assert |last| == 1 <==> keys[|keys| - 1] < 0x80;
  }

  /** Backspace never meets a key beyond ASCII. */
  ghost predicate BackspacesAscii(keys: seq<Latin1>, ss: seq<Stroke>)
    decreases |ss|
  {
    ss == [] || (
      && (ss[0].Backspace? && keys != [] ==> keys[|keys| - 1] < 0x80)
      && BackspacesAscii(Typed(keys, ss[0]), ss[1..]))
  }

  /** From a field in step with what was typed, with the cursor at its end,
      every such sequence of keystrokes keeps it so. */
  lemma {:induction false} FieldFollowsTyping(keys: seq<Latin1>, ss: seq<Stroke>)
    requires BackspacesAscii(keys, ss)
    ensures var f := StrikeAll(Field(BytesOf(keys), |BytesOf(keys)|), ss);
            f == Field(BytesOf(TypedAll(keys, ss)), |f.text|)
    decreases |ss|
  {
    hide KeyBytes, Strike;
    if ss != [] {
      StrikeFollowsTyping(keys, ss[0]);
      FieldFollowsTyping(Typed(keys, ss[0]), ss[1..]);
    }
  }

  lemma StrikeFollowsTyping(keys: seq<Latin1>, s: Stroke)
    requires s.Backspace? && keys != [] ==> keys[|keys| - 1] < 0x80
    ensures Strike(Field(BytesOf(keys), |BytesOf(keys)|), s) ==
            Field(BytesOf(Typed(keys, s)), |BytesOf(Typed(keys, s))|)
  {
    hide KeyBytes;
    var text := BytesOf(keys);
    match s
    case Key(k) =>
      assert (keys + [k])[..|keys|] == keys;
      assert text[..|text|] + KeyBytes(k) + text[|text|..] == text + KeyBytes(k);
    case Backspace =>
      if keys != [] {
        BackspaceIsExact(keys);
      }
  }

  function CodePointOf(k: bv8): CodePoint {
    k as bv32
  }

  function CodePoints(keys: seq<Latin1>): (text: seq<CodePoint>)
    ensures |text| == |keys|
    ensures forall i | 0 <= i < |text| :: text[i] == CodePointOf(keys[i])
  {
    if keys == [] then [] else CodePoints(keys[..|keys| - 1]) + [CodePointOf(keys[|keys| - 1])]
  }

  lemma {:induction false} Utf8AllSnoc(text: seq<CodePoint>, c: CodePoint)
    ensures Utf8All(text + [c]) == Utf8All(text) + Utf8(c)
  {
    hide Utf8;
    if text == [] {
      assert ([c])[1..] == [];
      assert text + [c] == [c];
    } else {
      assert (text + [c])[1..] == text[1..] + [c];
      Utf8AllSnoc(text[1..], c);
    }
  }

  lemma {:induction false} BytesAreUtf8(keys: seq<Latin1>)
    ensures BytesOf(keys) == Utf8All(CodePoints(keys))
    decreases |keys|
  {
    hide Utf8, KeyBytes;
    if keys != [] {
      var n := |keys| - 1;
      BytesAreUtf8(keys[..n]);
      KeyBytesAreUtf8(keys[n]);
      Utf8AllSnoc(CodePoints(keys[..n]), CodePointOf(keys[n]));
    }
  }

  /** The bytes k, 0 for each key. */
  function Widened(keys: seq<Latin1>): (s: seq<bv8>)
    ensures |s| == 2 * |keys|
  {
    if keys == [] then [] else [keys[0], 0] + Widened(keys[1..])
  }

  lemma {:induction false} WidenedIsUtf16(keys: seq<Latin1>)
    requires forall i | 0 <= i < |keys| :: CodePoints(keys)[i] < 0x10000
    ensures Utf16All(CodePoints(keys)) == Widened(keys)
  {
    hide Unit, CodePointOf;
    if keys != [] {
      assert CodePoints(keys)[1..] == CodePoints(keys[1..]);
      WidenedIsUtf16(keys[1..]);
      UnitOfKey(keys[0]);
    }
  }

  lemma UnitOfKey(k: bv8)
    ensures CodePointOf(k) < 0x100
    ensures Unit(CodePointOf(k) as bv16) == [k, 0]
  {
  }

  lemma KeysAreBasic(keys: seq<Latin1>)
    ensures forall i | 0 <= i < |keys| :: CodePoints(keys)[i] < 0x10000
    ensures BasicPrefix(CodePoints(keys)) == CodePoints(keys)
  {
    forall i | 0 <= i < |keys| ensures CodePoints(keys)[i] < 0x10000 {
      UnitOfKey(keys[i]);
    }
  }

  lemma KeyHasNoZero(k: Latin1)
    ensures 0 !in KeyBytes(k)
  {
  }

  /** A field of typed keys is a C string: its length is that of its bytes. */
  lemma {:induction false} BytesHaveNoZero(keys: seq<Latin1>)
    ensures 0 !in BytesOf(keys)
    decreases |keys|
  {
    hide KeyBytes;
    if keys != [] {
      BytesHaveNoZero(keys[..|keys| - 1]);
      KeyHasNoZero(keys[|keys| - 1]);
    }
  }

  /** Keystrokes survive encoding: from an empty field, for every sequence of
      keys and of backspaces over ASCII, the field holds the UTF-8 form of what
      was typed, without a zero byte that would end it early, and its conversion
      is the two bytes k, 0 for each key. */
  lemma KeystrokesSurvive(ss: seq<Stroke>)
    requires BackspacesAscii([], ss)
    ensures var field, keys := StrikeAll(Field([], 0), ss).text, TypedAll([], ss);
            field == Utf8All(CodePoints(keys)) && 0 !in field && Convert(field) == Widened(keys)
  {
    var keys := TypedAll([], ss);
    FieldFollowsTyping([], ss);
    BytesAreUtf8(keys);
    BytesHaveNoZero(keys);
    ConversionIsCorrect(CodePoints(keys));
    KeysAreBasic(keys);
    WidenedIsUtf16(keys);
  }

  // ----- Several fields ---------------------------------------------------

  /** The fields of `struct auth_input_state`, the one that has the focus, and
      the one cursor they share. */
  datatype Form = Form(fields: seq<seq<bv8>>, current: nat, cursor: nat) {
    predicate Valid() {
      current < |fields|
    }

    function Focused(): Field
      requires Valid()
    {
      Field(fields[current], cursor)
    }
  }

  /** What the user does: a stroke, or a tab forward or backward in the tab
      order of the moment. */
  datatype Act = Stroked(s: Stroke) | Tabbed(order: seq<nat>, direction: int)

  predicate Sensible(a: Act, n: nat) {
    a.Tabbed? ==> (a.direction == 1 || a.direction == -1) && forall i | 0 <= i < |a.order| :: a.order[i] < n
  }

  /** The place of a field in the tab order; 0 if it is not there. */
  function TabIndex(order: seq<nat>, field: nat): (i: nat)
    ensures order != [] ==> i < |order|
  {
    var i := Position(order, field);
    if i < |order| then i else 0
  }

  function Position(order: seq<nat>, field: nat): (i: nat)
    ensures i <= |order|
    ensures i < |order| ==> order[i] == field
    ensures forall j | 0 <= j < i :: order[j] != field
  {
    if order == [] || order[0] == field then 0 else 1 + Position(order[1..], field)
  }

  /** An index that has been moved by one, back inside at the other end. */
  function Wrapped(i: int, len: nat): (r: nat)
    requires len > 0 && -1 <= i <= len
    ensures r < len
  {
    if i < 0 then len - 1 else if i == len then 0 else i
  }

  /** Where `auth_tab` moves the focus to. */
  function NextField(order: seq<nat>, current: nat, direction: int): nat
    requires direction == 1 || direction == -1
  {
    if order == [] then current else order[Wrapped(TabIndex(order, current) + direction, |order|)]
  }

  /** The neighbour of a place on a round of n. */
  function Neighbour(i: nat, n: nat, direction: int): (j: nat)
    requires i < n
    ensures j < n
  {
    if direction == 1 then if i == n - 1 then 0 else i + 1
    else if i == 0 then n - 1 else i - 1
  }

  /** Tabbing goes round the order, forward or backward, and there and back
      again. */
  lemma TabGoesRound(order: seq<nat>, i: nat, direction: int)
    requires i < |order| && (forall j, k | 0 <= j < k < |order| :: order[j] != order[k])
    requires direction == 1 || direction == -1
    ensures NextField(order, order[i], direction) == order[Neighbour(i, |order|, direction)]
    ensures NextField(order, NextField(order, order[i], direction), -direction) == order[i]
  {
    hide TabIndex;
    var j := Neighbour(i, |order|, direction);
    PositionOf(order, i);
    PositionOf(order, j);
    assert Neighbour(j, |order|, -direction) == i;
  }

  lemma PositionOf(order: seq<nat>, i: nat)
    requires i < |order| && (forall j, k | 0 <= j < k < |order| :: order[j] != order[k])
    ensures TabIndex(order, order[i]) == i
  {
  }

  function Perform(f: Form, a: Act): (g: Form)
    requires f.Valid() && Sensible(a, |f.fields|)
    ensures g.Valid() && |g.fields| == |f.fields|
  {
    match a
    case Stroked(s) =>
      var r := Strike(f.Focused(), s);
      f.(fields := f.fields[f.current := r.text], cursor := r.cursor)
    case Tabbed(order, direction) =>
      if order == [] then f
      else
        var next := NextField(order, f.current, direction);
        f.(current := next, cursor := |f.fields[next]|)
  }

  function PerformAll(f: Form, acts: seq<Act>): (g: Form)
    requires f.Valid() && forall i | 0 <= i < |acts| :: Sensible(acts[i], |f.fields|)
    ensures g.Valid() && |g.fields| == |f.fields|
    decreases |acts|
  {
    if acts == [] then f else PerformAll(Perform(f, acts[0]), acts[1..])
  }

  /** What has been typed into each field, and which has the focus. */
  datatype Intent = Intent(keys: seq<seq<Latin1>>, current: nat)

  function Intend(t: Intent, a: Act): (u: Intent)
    requires t.current < |t.keys| && Sensible(a, |t.keys|)
    ensures u.current < |u.keys| == |t.keys|
  {
    match a
    case Stroked(s) => t.(keys := t.keys[t.current := Typed(t.keys[t.current], s)])
    case Tabbed(order, direction) => t.(current := NextField(order, t.current, direction))
  }

  function IntendAll(t: Intent, acts: seq<Act>): (u: Intent)
    requires t.current < |t.keys| && forall i | 0 <= i < |acts| :: Sensible(acts[i], |t.keys|)
    ensures u.current < |u.keys| == |t.keys|
    decreases |acts|
  {
    if acts == [] then t else IntendAll(Intend(t, acts[0]), acts[1..])
  }

  /** Backspace never meets a key beyond ASCII, in any field. */
  ghost predicate ActsAscii(t: Intent, acts: seq<Act>)
    requires t.current < |t.keys| && forall i | 0 <= i < |acts| :: Sensible(acts[i], |t.keys|)
    decreases |acts|
  {
    acts == [] || (
      && (acts[0] == Stroked(Backspace) ==>
            var keys := t.keys[t.current]; keys == [] || keys[|keys| - 1] < 0x80)
      && ActsAscii(Intend(t, acts[0]), acts[1..]))
  }

  /** Every field holds what was typed into it, and the cursor is at the end of
      the focused one. */
  ghost predicate InStep(f: Form, t: Intent) {
    && f.Valid() && f.current == t.current && |f.fields| == |t.keys|
    && f.cursor == |f.fields[f.current]|
    && forall i | 0 <= i < |f.fields| :: f.fields[i] == BytesOf(t.keys[i])
  }

  /** Over every sequence of keystrokes and tabs, each field keeps in step with
      what was typed into it, and so each converts to the two bytes k, 0 for
      each of its keys. */
  lemma {:induction false} FormFollowsTyping(f: Form, t: Intent, acts: seq<Act>)
    requires InStep(f, t) && forall i | 0 <= i < |acts| :: Sensible(acts[i], |t.keys|)
    requires ActsAscii(t, acts)
    ensures var g, u := PerformAll(f, acts), IntendAll(t, acts);
            && InStep(g, u)
            && forall i | 0 <= i < |g.fields| :: Convert(g.fields[i]) == Widened(u.keys[i])
    decreases |acts|
  {
    hide Strike, BytesOf, Convert, Widened;
    if acts == [] {
      forall i | 0 <= i < |f.fields| ensures Convert(f.fields[i]) == Widened(t.keys[i]) {
        TypedTextConverts(t.keys[i]);
      }
    } else {
      if acts[0].Stroked? {
        StrikeFollowsTyping(t.keys[t.current], acts[0].s);
      }
      FormFollowsTyping(Perform(f, acts[0]), Intend(t, acts[0]), acts[1..]);
    }
  }

  lemma TypedTextConverts(keys: seq<Latin1>)
    ensures Convert(BytesOf(keys)) == Widened(keys)
  {
    BytesAreUtf8(keys);
    ConversionIsCorrect(CodePoints(keys));
    KeysAreBasic(keys);
    WidenedIsUtf16(keys);
  }

  // ----- The code ---------------------------------------------------------

  class AuthForm {
    var fields: seq<seq<bv8>>
    var current: nat
    var cursor: nat

    function State(): Form
      reads this
    {
      Form(fields, current, cursor)
    }

    predicate Valid()
      reads this
    {
      current < |fields|
    }

    constructor (n: nat, focus: nat)
      requires focus < n
      ensures Valid() && State() == Form(seq(n, _ => []), focus, 0)
    {
      fields, current, cursor := seq(n, _ => []), focus, 0;
    }

    /** `auth_collect_key` on the focused field. */
    method CollectKey(k: Latin1)
      requires Valid()
      modifies this
      ensures Valid() && State() == Perform(old(State()), Stroked(Key(k)))
    {
      var buffer := new AuthField(fields[current], cursor);
      buffer.CollectKey(k);
      fields, cursor := fields[current := buffer.text], buffer.cursor;
    }

    /** `auth_backspace` on the focused field. */
    method BackspaceKey()
      requires Valid()
      modifies this
      ensures Valid() && State() == Perform(old(State()), Stroked(Backspace))
    {
      var buffer := new AuthField(fields[current], cursor);
      buffer.BackspaceKey();
      fields, cursor := fields[current := buffer.text], buffer.cursor;
    }

    /** `auth_tab`. */
    method Tab(order: seq<nat>, direction: int)
      requires Valid() && Sensible(Tabbed(order, direction), |fields|)
      modifies this`current, this`cursor
      ensures Valid() && State() == Perform(old(State()), Tabbed(order, direction))
    {
      if order == [] {
        return;
      }
      var index := FieldTabIndex(order);
      index := WrapTabIndex(index + direction, |order|);
      current := order[index];
      cursor := |fields[current]|;
    }

    /** `auth_get_field_tabindex`. */
    method FieldTabIndex(order: seq<nat>) returns (index: nat)
      ensures index == TabIndex(order, current)
    {
      var i := 0;
      while i < |order|
        invariant 0 <= i <= |order|
        invariant forall j | 0 <= j < i :: order[j] != current
      {
        if order[i] == current {
          return i;
        }
        i := i + 1;
      }
      return 0;
    }
  }

  /** `auth_wrap_tabindex`. */
  method WrapTabIndex(tabIndex: int, len: nat) returns (index: nat)
    requires len > 0 && -1 <= tabIndex <= len
    ensures index == Wrapped(tabIndex, len)
  {
    var i := tabIndex;
    while i < 0
      invariant i == tabIndex || (tabIndex < 0 && i == tabIndex + len)
    {
      i := i + len;
    }
    while i >= len
      invariant 0 <= i && (i == Wrapped(tabIndex, len) || (tabIndex == len && i == len))
    {
      i := i - len;
    }
    index := i;
  }

  /** One field as a growing C string, with the cursor. */
  class AuthField {
    var text: seq<bv8>
    var cursor: nat

    function State(): Field
      reads this
    {
      Field(text, cursor)
    }

    constructor (text: seq<bv8>, cursor: nat)
      ensures State() == Field(text, cursor)
    {
      this.text, this.cursor := text, cursor;
    }

    /** `realloc` to a larger buffer; what the buffer holds beyond the old text
        is not specified. */
    method Grow(size: nat) returns (field: array<bv8>)
      requires size >= |text|
      ensures fresh(field) && field.Length == size && field[..|text|] == text
    {
      var held := text;
      field := new bv8[size](i => if 0 <= i < |held| then held[i] else 0);
    }

    /** `auth_collect_key`. */
    method CollectKey(k: Latin1)
      modifies this
      ensures State() == Strike(old(State()), Key(k))
    {
      if k < 0x80 {
        InsertOne(k);
      } else {
        InsertTwo(0xC0 | ((k >> 6) & 0x1F), 0x80 | (k & 0x3F));
      }
    }

    /** Its branch for a character that is not negative. */
    method InsertOne(b: bv8)
      modifies this
      ensures var cu := Min(old(cursor), |old(text)|);
              text == old(text)[..cu] + [b] + old(text)[cu..] && cursor == old(cursor) + 1
    {
      var len := |text|;
      var cu := if cursor > len then len else cursor;
      var field := MakeRoom(cu, 1, len + 2);
      ghost var head, tail := field[..cu], field[cu + 1..len + 1];
      field[len + 1] := 0;
      field[cu] := b;
      assert field[..cu] == head && field[cu + 1..len + 1] == tail;
      ghost var all := field[..len + 1];
      assert all[..cu] == head && all[cu + 1..] == tail && all[cu..cu + 1] == [b];
      Join(all, cu, cu + 1);
      text := field[..len + 1];
      cursor := cursor + 1;
    }

    /** Its branch for a negative one. */
    method InsertTwo(b1: bv8, b2: bv8)
      modifies this
      ensures var cu := Min(old(cursor), |old(text)|);
              text == old(text)[..cu] + [b1, b2] + old(text)[cu..] && cursor == old(cursor) + 2
    {
      var len := |text|;
      var cu := if cursor > len then len else cursor;
      var field := MakeRoom(cu, 2, len + 3);
      ghost var head, tail := field[..cu], field[cu + 2..len + 2];
      field[len + 2] := 0;
      field[cu] := b1;
      field[cu + 1] := b2;
      assert field[..cu] == head && field[cu + 2..len + 2] == tail;
      ghost var all := field[..len + 2];
      assert all[..cu] == head && all[cu + 2..] == tail && all[cu..cu + 2] == [b1, b2];
      Join(all, cu, cu + 2);
      text := field[..len + 2];
      cursor := cursor + 2;
    }

    lemma Join(s: seq<bv8>, i: nat, j: nat)
      requires i <= j <= |s|
      ensures s == s[..i] + s[i..j] + s[j..]
    {
    }

    /** The reallocated buffer with a gap at the cursor. */
    method MakeRoom(cu: nat, gap: nat, size: nat) returns (field: array<bv8>)
      requires cu <= |text| && 0 < gap && |text| + gap <= size
      ensures fresh(field) && field.Length == size
      ensures field[..cu] == text[..cu] && field[cu + gap..|text| + gap] == text[cu..]
    {
      field := Grow(size);
      ghost var before := field[..|text|];
      assert field[..cu] == before[..cu] && field[cu..|text|] == before[cu..];
      Shift(field, |text|, cu, gap);
    }

    /** The loops that make room at the cursor. */
    method Shift(field: array<bv8>, len: nat, cu: nat, gap: nat)
      requires cu <= len && 0 < gap && len + gap <= field.Length
      modifies field
      ensures field[..cu] == old(field[..cu])
      ensures field[cu + gap..len + gap] == old(field[cu..len])
    {
      var j := len + gap - 1;
      while j > cu + gap - 1
        invariant cu + gap - 1 <= j <= len + gap - 1
        invariant field[..j + 1 - gap] == old(field[..j + 1 - gap])
        invariant field[j + 1..len + gap] == old(field[j + 1 - gap..len])
        decreases j
      {
        field[j] := field[j - gap];
        assert field[j..len + gap] == [field[j]] + field[j + 1..len + gap];
        j := j - 1;
      }
    }

    /** `auth_backspace`. */
    method BackspaceKey()
      modifies this
      ensures State() == Strike(old(State()), Backspace)
    {
      var len := |text|;
      if len > 0 {
        text := text[..len - 1];
        if cursor > 0 {
          cursor := cursor - 1;
        }
      }
    }
  }

  /** One turn of the conversion loop at `read`. */
  lemma ConvertSteps(src: seq<bv8>, read: nat)
    requires read < |src|
    ensures var n := Announced(src[read]);
            if n == 0 || read + n > |src| then Convert(src[read..]) == []
            else Convert(src[read..]) == Unit(Converted(src[read..], n)) + Convert(src[read + n..])
  {
    hide Unit, Converted;
    var n := Announced(src[read]);
    if n > 0 && read + n <= |src| {
      assert src[read..][n..] == src[read + n..];
    }
  }

  /** `utf8_to_utf16le`, into the buffer of twice the length that `mk_nt_hash`
      provides; returns how much was written. */
  method Utf8ToUtf16le(dest: array<bv8>, src: seq<bv8>) returns (write: nat)
    requires dest.Length == 2 * |src|
    modifies dest
    ensures write <= dest.Length && dest[..write] == Convert(src)
  {
    hide Convert, Unit;
    var read := 0;
    write := 0;
    var len := |src|;
    assert src[0..] == src && dest[..0] == [];
    while read < len && write < len * 2 - 1
      invariant 0 <= read <= len && write <= 2 * read
      invariant dest[..write] + Convert(src[read..]) == Convert(src)
    {
      var ok, next, v := ReadUnit(src, read);
      if !ok {
        assert dest[..write] + [] == dest[..write];
        return;
      }
      ghost var before, rest := dest[..write], Convert(src[next..]);
      read := next;
      write := WriteUnit(dest, write, v);
      assert dest[..write] + rest == before + (Unit(v) + rest);
    }
    NothingToConvert();
    assert src[len..] == [];
    assert dest[..write] + [] == dest[..write];
  }

  /** The switch of the conversion loop. */
  method ReadUnit(src: seq<bv8>, read: nat) returns (ok: bool, next: nat, v: bv16)
    requires read < |src|
    ensures !ok ==> Convert(src[read..]) == []
    ensures ok ==> read < next <= |src| && Convert(src[read..]) == Unit(v) + Convert(src[next..])
  {
    hide Convert, Unit, TwoBytes, ThreeBytes;
    ConvertSteps(src, read);
    var len, c := |src|, src[read];
    ok, next, v := true, read + 1, 0;
    var k := c >> 4;
    if k < 8 {
      v := c as bv16;
    } else if k == 12 || k == 13 {
      if next >= len {
        ok := false;
        return;
      }
      v := TwoBytes(c, src[next]);
      next := next + 1;
    } else if k == 14 {
      if next >= len - 1 {
        ok := false;
        return;
      }
      v := ThreeBytes(c, src[next], src[next + 1]);
      next := next + 2;
    } else {
      ok := false;
    }
  }

  /** The two assignments to `dest`. */
  method WriteUnit(dest: array<bv8>, at: nat, v: bv16) returns (write: nat)
    requires at + 2 <= dest.Length
    modifies dest
    ensures write == at + 2 && dest[..write] == old(dest[..at]) + Unit(v)
  {
    dest[at] := (v & 0xFF) as bv8;
    dest[at + 1] := (v >> 8) as bv8;
    write := at + 2;
  }
}
