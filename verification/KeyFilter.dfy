/** The keyboard-divert filter: `input_daemon_set_divert_keyboard_filter` and
    `addmod` (`bus.c`) build it, `filter_keys` and `send_keypair` (`input.c`)
    use it. */
module KeyFilter {
  import opened Masks

  const MAX_MODS := 20
  const KEY_LEFTCTRL := 29
  const KEY_LEFTALT := 56
  const KEY_RIGHTCTRL := 97
  const KEY_RIGHTALT := 100

  /** `struct keypairs`. */
  datatype Keypair = Keypair(modBits: bv32, keycode: nat)

  /** What a keypair stands for. */
  datatype Shortcut = Shortcut(modifiers: set<nat>, key: nat)

  // ----- The meaning of a mask -------------------------------------------

  predicate NoDuplicates(table: seq<nat>) {
    forall i, j | 0 <= i < j < |table| :: table[i] != table[j]
  }

  /** The keys whose bits are set. */
  function KeysOf(m: bv32, table: seq<nat>): set<nat> {
    set i | 0 <= i < |table| && Has(m, i) :: table[i]
  }

  /** No bit outside the table is set. */
  ghost predicate Within(m: bv32, n: nat) {
    forall i | n <= i < 32 :: !Has(m, i)
  }

  function Meaning(k: Keypair, table: seq<nat>): Shortcut {
    Shortcut(KeysOf(k.modBits, table), k.keycode)
  }

  /** A table that grows does not change what earlier masks mean. */
  lemma GrowthKeepsMeaning(m: bv32, table: seq<nat>, more: seq<nat>)
    requires Within(m, |table|) && |table + more| <= 32
    ensures KeysOf(m, table + more) == KeysOf(m, table)
    ensures Within(m, |table + more|)
  {
    hide Masks.Has;
    forall k ensures k in KeysOf(m, table + more) <==> k in KeysOf(m, table) {
      if k in KeysOf(m, table) {
        var i :| 0 <= i < |table| && Has(m, i) && table[i] == k;
        assert (table + more)[i] == k;
      }
      if k in KeysOf(m, table + more) {
        var i :| 0 <= i < |table + more| && Has(m, i) && (table + more)[i] == k;
        assert i < |table| && table[i] == k;
      }
    }
  }

  /** Setting a bit adds its key. */
  lemma JoinAddsKey(m: bv32, table: seq<nat>, i: nat)
    requires |table| <= 32 && i < |table| && Within(m, |table|)
    ensures KeysOf(Join(m, Bit(i)), table) == KeysOf(m, table) + {table[i]}
    ensures Within(Join(m, Bit(i)), |table|)
  {
    hide Masks.Has, Join, Bit;
    var n := Join(m, Bit(i));
    forall j | 0 <= j < 32 ensures Has(n, j) <==> Has(m, j) || i == j {
      SetBit(m, i, j);
    }
    assert forall k | k in KeysOf(m, table) :: k in KeysOf(n, table);
    assert table[i] in KeysOf(n, table);
  }

  /** Clearing it removes the key. */
  lemma RemoveDropsKey(m: bv32, table: seq<nat>, i: nat)
    requires |table| <= 32 && i < |table| && Within(m, |table|) && NoDuplicates(table)
    ensures KeysOf(Remove(m, Bit(i)), table) == KeysOf(m, table) - {table[i]}
    ensures Within(Remove(m, Bit(i)), |table|)
  {
    hide Masks.Has, Remove, Bit;
    var n := Remove(m, Bit(i));
    forall j | 0 <= j < 32 ensures Has(n, j) <==> Has(m, j) && i != j {
      ClearBit(m, i, j);
    }
    forall k | k in KeysOf(m, table) - {table[i]} ensures k in KeysOf(n, table) {
      var j :| 0 <= j < |table| && Has(m, j) && table[j] == k;
      assert Has(n, j);
    }
  }

  /** Over a table without duplicates, masks are sets of keys. */
  lemma MasksAreSets(m: bv32, n: bv32, table: seq<nat>)
    requires |table| <= 32 && NoDuplicates(table) && Within(m, |table|) && Within(n, |table|)
    ensures m == n <==> KeysOf(m, table) == KeysOf(n, table)
  {
    hide Masks.Has;
    if KeysOf(m, table) == KeysOf(n, table) {
      forall i | 0 <= i < 32 ensures Has(m, i) <==> Has(n, i) {
        if i < |table| {
          KeyInMask(m, table, i);
          KeyInMask(n, table, i);
        }
      }
      SameBits(m, n);
    }
  }

  lemma KeyInMask(m: bv32, table: seq<nat>, i: nat)
    requires NoDuplicates(table) && i < |table|
    ensures table[i] in KeysOf(m, table) <==> Has(m, i)
  {
    hide Masks.Has;
    if table[i] in KeysOf(m, table) {
      var j :| 0 <= j < |table| && Has(m, j) && table[j] == table[i];
      assert i == j;
    }
  }

  // ----- Reading the list -------------------------------------------------

  function Elements(s: seq<nat>): set<nat> {
    set k | k in s
  }

  /** The length of the nonzero run at the start. */
  function RunLength(data: seq<nat>): (n: nat)
    ensures n <= |data|
    ensures forall i | 0 <= i < n :: data[i] != 0
    ensures n < |data| ==> data[n] == 0
    ensures data != [] && data[0] != 0 ==> n > 0
  {
    if data == [] || data[0] == 0 then 0 else 1 + RunLength(data[1..])
  }

  /** The nonzero runs of a zero-separated list. */
  function Runs(data: seq<nat>): (rs: seq<seq<nat>>)
    ensures forall i | 0 <= i < |rs| :: rs[i] != []
    decreases |data|
  {
    if data == [] then []
    else if data[0] == 0 then Runs(data[1..])
    else [data[..RunLength(data)]] + Runs(data[RunLength(data)..])
  }

  /** What a run asks for: its last key with the others held. */
  function ShortcutOf(run: seq<nat>): Shortcut
    requires run != []
  {
    Shortcut(Elements(run[..|run| - 1]), run[|run| - 1])
  }

  function ShortcutsOf(rs: seq<seq<nat>>): seq<Shortcut>
    requires forall i | 0 <= i < |rs| :: rs[i] != []
  {
    if rs == [] then [] else [ShortcutOf(rs[0])] + ShortcutsOf(rs[1..])
  }

  /** What the loop still has to deliver with `held` collected so far. */
  function Remaining(data: seq<nat>, held: set<nat>): seq<Shortcut>
    decreases |data|
  {
    if data == [] then []
    else if data[0] == 0 then Remaining(data[1..], held)
    else if |data| == 1 || data[1] == 0 then [Shortcut(held, data[0])] + Remaining(data[1..], {})
    else Remaining(data[1..], held + {data[0]})
  }

  /** Inside a run: the keys collected join those that the run still brings. */
  lemma {:induction false} RemainingOfRun(data: seq<nat>, held: set<nat>)
    requires data != [] && data[0] != 0
    ensures var n := RunLength(data);
            Remaining(data, held) ==
            [Shortcut(held + Elements(data[..n - 1]), data[n - 1])] + Remaining(data[n..], {})
    decreases |data|
  {
    var n := RunLength(data);
    if |data| == 1 || data[1] == 0 {
      assert RunLength(data[1..]) == 0;
      assert n == 1;
      assert held + Elements(data[..0]) == held;
    } else {
      RemainingOfRun(data[1..], held + {data[0]});
      assert data[..n - 1] == [data[0]] + data[1..][..n - 2];
      assert held + Elements(data[..n - 1]) == held + {data[0]} + Elements(data[1..][..n - 2]);
      assert data[1..][n - 1..] == data[n..];
    }
  }

  /** The loop's way of reading the list is reading its runs. */
  lemma {:induction false} RemainingIsRuns(data: seq<nat>)
    ensures Remaining(data, {}) == ShortcutsOf(Runs(data))
    decreases |data|
  {
    if data != [] {
      if data[0] == 0 {
        RemainingIsRuns(data[1..]);
      } else {
        var n := RunLength(data);
        RemainingOfRun(data, {});
        RemainingIsRuns(data[n..]);
        var run := data[..n];
        assert run[..n - 1] == data[..n - 1];
        assert {} + Elements(data[..n - 1]) == Elements(run[..n - 1]);
        assert Runs(data)[1..] == Runs(data[n..]);
      }
    }
  }

  /** The first place of a key in the table, or its length. */
  function Place(table: seq<nat>, key: nat): (i: nat)
    ensures i <= |table|
    ensures i < |table| ==> table[i] == key
    ensures forall j | 0 <= j < i :: table[j] != key
  {
    if table == [] || table[0] == key then 0 else 1 + Place(table[1..], key)
  }

  /** The table after `addmod`. */
  function WithKey(table: seq<nat>, key: nat): seq<nat> {
    if Place(table, key) < |table| then table else table + [key]
  }

  /** The table after the whole list. */
  function Grown(table: seq<nat>, data: seq<nat>): (t: seq<nat>)
    ensures |t| >= |table|
    decreases |data|
  {
    if data == [] then table
    else if data[0] == 0 || |data| == 1 || data[1] == 0 then Grown(table, data[1..])
    else Grown(WithKey(table, data[0]), data[1..])
  }

  /** The meanings of the keypairs found so far. */
  function Meanings(ks: seq<Keypair>, table: seq<nat>): seq<Shortcut> {
    seq(|ks|, i requires 0 <= i < |ks| => Meaning(ks[i], table))
  }

  lemma MeaningsKept(ks: seq<Keypair>, table: seq<nat>, key: nat)
    requires |table| < 32 && forall i | 0 <= i < |ks| :: Within(ks[i].modBits, |table|)
    ensures Meanings(ks, table + [key]) == Meanings(ks, table)
    ensures forall i | 0 <= i < |ks| :: Within(ks[i].modBits, |table| + 1)
  {
    forall i | 0 <= i < |ks|
      ensures Meaning(ks[i], table + [key]) == Meaning(ks[i], table) && Within(ks[i].modBits, |table| + 1)
    {
      GrowthKeepsMeaning(ks[i].modBits, table, [key]);
    }
  }

  // ----- Matching ---------------------------------------------------------

  /** `struct input_event` of type `EV_KEY`. */
  datatype KeyEvent = KeyEvent(code: nat, value: int)

  /** `keyb_modbits` after an event. */
  function NextBits(m: bv32, table: seq<nat>, e: KeyEvent): bv32 {
    var i := Place(table, e.code);
    if i == |table| then m
    else if e.value != 0 then Join(m, Bit(i)) else Remove(m, Bit(i))
  }

  function NextHeld(held: set<nat>, table: seq<nat>, e: KeyEvent): set<nat> {
    if e.code !in table then held
    else if e.value != 0 then held + {e.code} else held - {e.code}
  }

  lemma NextBitsAreHeld(m: bv32, table: seq<nat>, e: KeyEvent)
    requires |table| <= 32 && NoDuplicates(table) && Within(m, |table|)
    ensures KeysOf(NextBits(m, table, e), table) == NextHeld(KeysOf(m, table), table, e)
    ensures Within(NextBits(m, table, e), |table|)
  {
    var i := Place(table, e.code);
    if i < |table| {
      JoinAddsKey(m, table, i);
      RemoveDropsKey(m, table, i);
    }
  }

  /** The modifiers held after a stream of events since a reset. */
  function HeldAfter(table: seq<nat>, es: seq<KeyEvent>): set<nat> {
    if es == [] then {} else NextHeld(HeldAfter(table, es[..|es| - 1]), table, es[|es| - 1])
  }

  function BitsAfter(table: seq<nat>, es: seq<KeyEvent>): bv32 {
    if es == [] then 0 else NextBits(BitsAfter(table, es[..|es| - 1]), table, es[|es| - 1])
  }

  /** Over every stream of key events, `keyb_modbits` stands for the modifiers
      held since the reset. */
  lemma {:induction false} BitsAreHeld(table: seq<nat>, es: seq<KeyEvent>)
    requires |table| <= 32 && NoDuplicates(table)
    ensures KeysOf(BitsAfter(table, es), table) == HeldAfter(table, es)
    ensures Within(BitsAfter(table, es), |table|)
    decreases |es|
  {
    if es == [] {
      forall i ensures !Has(0, i) {
        ZeroHasNone(i);
      }
    } else {
      BitsAreHeld(table, es[..|es| - 1]);
      NextBitsAreHeld(BitsAfter(table, es[..|es| - 1]), table, es[|es| - 1]);
    }
  }

  /** The test in the second loop of `filter_keys`. */
  predicate Matches(k: Keypair, m: bv32, e: KeyEvent) {
    k.keycode == e.code && k.modBits == m
  }

  /** `filter_keys` swallows an event exactly when its key, with the modifiers
      held since the reset, is a shortcut of the list. */
  lemma MatchIsExact(ks: seq<Keypair>, table: seq<nat>, es: seq<KeyEvent>)
    requires |table| <= 32 && NoDuplicates(table) && es != []
    requires forall i | 0 <= i < |ks| :: Within(ks[i].modBits, |table|)
    ensures var e := es[|es| - 1];
            (exists i | 0 <= i < |ks| :: Matches(ks[i], BitsAfter(table, es), e))
            <==> Shortcut(HeldAfter(table, es), e.code) in Meanings(ks, table)
  {
    hide KeysOf, BitsAfter, HeldAfter, Within;
    var e, m, held := es[|es| - 1], BitsAfter(table, es), HeldAfter(table, es);
    BitsAreHeld(table, es);
    forall i | 0 <= i < |ks|
      ensures Matches(ks[i], m, e) <==> Meanings(ks, table)[i] == Shortcut(held, e.code)
    {
      MasksAreSets(ks[i].modBits, m, table);
    }
  }

  // ----- Replaying a shortcut --------------------------------------------

  /** The modifiers of a mask in table order, as events of one value. */
  function ModifierEvents(m: bv32, table: seq<nat>, value: int): seq<KeyEvent> {
    if table == [] then []
    else
      ModifierEvents(m, table[..|table| - 1], value)
      + if Has(m, |table| - 1) then [KeyEvent(table[|table| - 1], value)] else []
  }

  /** `send_keypair`: press the modifiers and the key, release the key and the
      modifiers. */
  function Replay(k: Keypair, table: seq<nat>): seq<KeyEvent> {
    ModifierEvents(k.modBits, table, 1) + [KeyEvent(k.keycode, 1)]
    + [KeyEvent(k.keycode, 0)] + ModifierEvents(k.modBits, table, 0)
  }

  /** The keys that a receiver of events considers pressed. */
  function Pressed(down: set<nat>, es: seq<KeyEvent>): set<nat> {
    if es == [] then down
    else
      var e := es[|es| - 1];
      var before := Pressed(down, es[..|es| - 1]);
      if e.value != 0 then before + {e.code} else before - {e.code}
  }

  lemma {:induction false} PressedAppend(down: set<nat>, a: seq<KeyEvent>, b: seq<KeyEvent>)
    ensures Pressed(down, a + b) == Pressed(Pressed(down, a), b)
    decreases |b|
  {
    if b == [] {
      assert a + b == a;
    } else {
      assert (a + b)[..|a + b| - 1] == a + b[..|b| - 1];
      PressedAppend(down, a, b[..|b| - 1]);
    }
  }

  lemma {:induction false} ModifierEventsPress(m: bv32, table: seq<nat>, down: set<nat>)
    ensures Pressed(down, ModifierEvents(m, table, 1)) == down + KeysOf(m, table)
    ensures Pressed(down, ModifierEvents(m, table, 0)) == down - KeysOf(m, table)
    decreases |table|
  {
    hide Masks.Has;
    if table != [] {
      var n := |table| - 1;
      var rest := table[..n];
      ModifierEventsPress(m, rest, down);
      KeysOfLast(m, table);
      if Has(m, n) {
        OneMore(down, ModifierEvents(m, rest, 1), KeyEvent(table[n], 1));
        OneMore(down, ModifierEvents(m, rest, 0), KeyEvent(table[n], 0));
      } else {
        assert ModifierEvents(m, rest, 1) + [] == ModifierEvents(m, rest, 1);
        assert ModifierEvents(m, rest, 0) + [] == ModifierEvents(m, rest, 0);
      }
    }
  }

  lemma KeysOfLast(m: bv32, table: seq<nat>)
    requires table != []
    ensures var n := |table| - 1;
            KeysOf(m, table) == KeysOf(m, table[..n]) + if Has(m, n) then {table[n]} else {}
  {
    hide Masks.Has;
    var n := |table| - 1;
    assert forall i | 0 <= i < n :: table[..n][i] == table[i];
    forall k | k in KeysOf(m, table[..n]) ensures k in KeysOf(m, table) {
      var i :| 0 <= i < n && Has(m, i) && table[..n][i] == k;
      assert table[i] == k;
    }
  }

  lemma OneMore(down: set<nat>, es: seq<KeyEvent>, e: KeyEvent)
    ensures Pressed(down, es + [e]) ==
            if e.value != 0 then Pressed(down, es) + {e.code} else Pressed(down, es) - {e.code}
  {
    assert (es + [e])[..|es|] == es;
  }

  /** A replayed shortcut presses its key while exactly its modifiers are down
      besides what was down before, and leaves nothing down that was not. */
  lemma ReplayIsBalanced(k: Keypair, table: seq<nat>, down: set<nat>)
    requires k.keycode !in down && k.keycode !in KeysOf(k.modBits, table) && down !! KeysOf(k.modBits, table)
    ensures Pressed(down, Replay(k, table)) == down
    ensures var n := |ModifierEvents(k.modBits, table, 1)|;
            && Replay(k, table)[n] == KeyEvent(k.keycode, 1)
            && Pressed(down, Replay(k, table)[..n]) == down + KeysOf(k.modBits, table)
  {
    hide KeysOf, ModifierEvents;
    var ons, offs := ModifierEvents(k.modBits, table, 1), ModifierEvents(k.modBits, table, 0);
    var keys := KeysOf(k.modBits, table);
    ModifierEventsPress(k.modBits, table, down);
    OneMore(down, ons, KeyEvent(k.keycode, 1));
    OneMore(down, ons + [KeyEvent(k.keycode, 1)], KeyEvent(k.keycode, 0));
    PressedAppend(down, ons + [KeyEvent(k.keycode, 1)] + [KeyEvent(k.keycode, 0)], offs);
    assert down + keys + {k.keycode} - {k.keycode} == down + keys;
    ModifierEventsPress(k.modBits, table, down + keys);
    assert Replay(k, table)[..|ons|] == ons;
  }

  // ----- Room in the table -----------------------------------------------

  /** The modifiers of a list need more places than the table has: the first
      word of `modifers` counts, so that nineteen keys fit. */
  predicate Overruns(table: seq<nat>, data: seq<nat>) {
    |Grown(table, data)| >= MAX_MODS
  }

  /** All modifiers of some shortcuts. */
  function AllModifiers(shortcuts: seq<Shortcut>): set<nat> {
    if shortcuts == [] then {} else shortcuts[0].modifiers + AllModifiers(shortcuts[1..])
  }

  /** What the current run has collected ends up in its shortcut. */
  lemma HeldIsDelivered(data: seq<nat>, held: set<nat>)
    requires data != [] && data[0] != 0
    ensures held <= AllModifiers(Remaining(data, held))
  {
    hide Remaining;
    RemainingOfRun(data, held);
  }

  lemma WithKeyIsSet(table: seq<nat>, key: nat)
    requires NoDuplicates(table)
    ensures NoDuplicates(WithKey(table, key)) && Elements(WithKey(table, key)) == Elements(table) + {key}
  {
  }

  lemma {:induction false} GrownIsSet(table: seq<nat>, data: seq<nat>, held: set<nat>)
    requires NoDuplicates(table) && held <= Elements(table)
    ensures NoDuplicates(Grown(table, data))
    ensures Elements(Grown(table, data)) == Elements(table) + AllModifiers(Remaining(data, held))
    decreases |data|
  {
    hide WithKey, NoDuplicates;
    if data != [] {
      if data[0] == 0 {
        GrownIsSet(table, data[1..], held);
      } else if |data| == 1 || data[1] == 0 {
        GrownIsSet(table, data[1..], {});
        assert Remaining(data, held)[1..] == Remaining(data[1..], {});
      } else {
        WithKeyIsSet(table, data[0]);
        GrownIsSet(WithKey(table, data[0]), data[1..], held + {data[0]});
        HeldIsDelivered(data[1..], held + {data[0]});
      }
    }
  }

  lemma {:induction false} DistinctCount(table: seq<nat>)
    requires NoDuplicates(table)
    ensures |Elements(table)| == |table|
  {
    if table != [] {
      var n := |table| - 1;
      DistinctCount(table[..n]);
      assert Elements(table) == Elements(table[..n]) + {table[n]};
    }
  }

  /** The exact condition: a list overruns the table if and only if its
      modifiers and the keys in the table are twenty or more. */
  lemma OverrunsExactly(table: seq<nat>, data: seq<nat>)
    requires NoDuplicates(table)
    ensures Overruns(table, data) <==> |Elements(table) + AllModifiers(ShortcutsOf(Runs(data)))| >= MAX_MODS
  {
    hide Grown, Remaining, Runs, AllModifiers, NoDuplicates;
    RemainingIsRuns(data);
    GrownIsSet(table, data, {});
    DistinctCount(Grown(table, data));
  }

  /** One shortcut with sixteen new modifiers overruns the table of a new
      record: the sixteenth is its twentieth key. */
  lemma SixteenModifiersOverrun()
    ensures Overruns([KEY_LEFTALT, KEY_RIGHTALT, KEY_LEFTCTRL, KEY_RIGHTCTRL],
                     [1, 2, 3, 4, 5, 6, 7, 8, 9, 10, 11, 12, 13, 14, 15, 16, 17])
  {
    hide Overruns;
    var keys := [1, 2, 3, 4, 5, 6, 7, 8, 9, 10, 11, 12, 13, 14, 15, 16];
    var table := [KEY_LEFTALT, KEY_RIGHTALT, KEY_LEFTCTRL, KEY_RIGHTCTRL];
    LongShortcutOverruns(table, keys, 17);
    assert keys + [17] == [1, 2, 3, 4, 5, 6, 7, 8, 9, 10, 11, 12, 13, 14, 15, 16, 17];
  }

  lemma LongShortcutOverruns(table: seq<nat>, keys: seq<nat>, action: nat)
    requires NoDuplicates(table + keys) && |table + keys| >= MAX_MODS
    requires action != 0 && 0 !in keys
    ensures Overruns(table, keys + [action])
  {
    hide Remaining, Grown, RunLength, AllModifiers, NoDuplicates;
    var data := keys + [action];
    OneRunModifiers(keys, action);
    PrefixIsDistinct(table, keys);
    GrownIsSet(table, data, {});
    DistinctCount(Grown(table, data));
    DistinctCount(table + keys);
    assert Elements(table + keys) <= Elements(Grown(table, data));
    FewerElements(Elements(table + keys), Elements(Grown(table, data)));
  }

  lemma OneRunModifiers(keys: seq<nat>, action: nat)
    requires action != 0 && 0 !in keys
    ensures Elements(keys) <= AllModifiers(Remaining(keys + [action], {}))
  {
    hide Remaining, RunLength;
    var data := keys + [action];
    WholeRun(data);
    assert data[0] != 0;
    RemainingOfRun(data, {});
    assert data[..|data| - 1] == keys;
  }

  lemma PrefixIsDistinct(table: seq<nat>, keys: seq<nat>)
    requires NoDuplicates(table + keys)
    ensures NoDuplicates(table)
  {
    assert forall i | 0 <= i < |table| :: (table + keys)[i] == table[i];
  }

  lemma {:induction false} WholeRun(data: seq<nat>)
    requires 0 !in data
    ensures RunLength(data) == |data|
  {
    if data != [] {
      WholeRun(data[1..]);
    }
  }

  lemma FewerElements(a: set<nat>, b: set<nat>)
    requires a <= b
    ensures |a| <= |b|
  {
    assert b == a + (b - a);
  }

  // ----- The code ---------------------------------------------------------

  /** How setting a filter ends. */
  datatype FilterResult = Set | Busy | TableOverrun

  /** `struct divert_info_t`, the keyboard part, with `keyb_modbits`. */
  class DivertInfo {
    const modifers: array<nat>
    var keylist: array?<Keypair>
    var numKeys: nat
    var inUse: bool
    var modbits: bv32
    var sent: seq<KeyEvent>

    ghost predicate Valid()
      reads this, modifers, keylist
    {
      && modifers.Length == MAX_MODS
      && modifers[0] < MAX_MODS
      && NoDuplicates(Table())
      && (keylist != null ==> numKeys <= keylist.Length)
      && (forall k | k in Keys() :: Within(k.modBits, |Table()|))
      && Within(modbits, |Table()|)
    }

    function Table(): seq<nat>
      requires modifers.Length == MAX_MODS && modifers[0] < MAX_MODS
      reads modifers
    {
      modifers[1..1 + modifers[0]]
    }

    function Keys(): seq<Keypair>
      requires keylist != null ==> numKeys <= keylist.Length
      reads this, keylist
    {
      if keylist == null then [] else keylist[..numKeys]
    }

    /** `check_init_divert_info` on a missing record. */
    constructor ()
      ensures Valid() && fresh(modifers) && !inUse && keylist == null
      ensures Table() == [KEY_LEFTALT, KEY_RIGHTALT, KEY_LEFTCTRL, KEY_RIGHTCTRL]
    {
      modifers := new nat[MAX_MODS](_ => 0);
      keylist, numKeys, inUse, modbits, sent := null, 0, false, 0, [];
      new;
      modifers[0], modifers[1], modifers[2] := 4, KEY_LEFTALT, KEY_RIGHTALT;
      modifers[3], modifers[4] := KEY_LEFTCTRL, KEY_RIGHTCTRL;
      assert Table() == [KEY_LEFTALT, KEY_RIGHTALT, KEY_LEFTCTRL, KEY_RIGHTCTRL];
      forall i ensures !Has(0, i) {
        ZeroHasNone(i);
      }
    }

    /** `addmod`.  Without room for a new key the code would write past the
        table; the model leaves everything as it is and says so. */
    method AddMod(key: nat) returns (i: nat, room: bool)
      requires modifers.Length == MAX_MODS && modifers[0] < MAX_MODS
      modifies modifers
      ensures room <==> |WithKey(old(Table()), key)| < MAX_MODS
      ensures modifers[0] < MAX_MODS && Table() == if room then WithKey(old(Table()), key) else old(Table())
      ensures i == Place(old(Table()), key)
      ensures room ==> i < |Table()| && Table()[i] == key
    {
      var len := modifers[0];
      i := 0;
      while i < len && modifers[1 + i] != key
        invariant i <= len
        invariant forall j | 0 <= j < i :: Table()[j] != key
      {
        i := i + 1;
      }
      PlaceIs(Table(), key, i);
      assert i < len ==> WithKey(Table(), key) == Table();
      room := i < len || 1 + len < MAX_MODS;
      if i == len && room {
        ghost var before := Table();
        modifers[1 + len] := key;
        modifers[0] := len + 1;
        assert Table() == before + [key];
      }
    }

    /** `input_daemon_set_divert_keyboard_filter`: one shortcut for each nonzero
        run, unless the modifiers of the list overrun the table, where the model
        ends. */
    method SetFilter(data: seq<nat>) returns (r: FilterResult)
      requires Valid()
      modifies this`keylist, this`numKeys, modifers
      ensures Valid()
      ensures r.Busy? <==> inUse
      ensures r.TableOverrun? <==> !inUse && Overruns(old(Table()), data)
      ensures r.Busy? ==> Table() == old(Table()) && Keys() == old(Keys())
      ensures r.Set? ==> Table() == Grown(old(Table()), data)
      ensures r.Set? ==> Meanings(Keys(), Table()) == ShortcutsOf(Runs(data))
    {
      if inUse {
        return Busy;
      }
      hide Grown, Meanings, Within, NoDuplicates;
      numKeys := 0;
      var list, shortcuts, room := ReadList(data);
      keylist := list;
      if !room {
        assert Keys() == [];
        return TableOverrun;
      }
      numKeys := shortcuts;
      assert Keys() == list[..shortcuts];
      r := Set;
    }

    /** The loop over the list. */
    method ReadList(data: seq<nat>) returns (list: array<Keypair>, shortcuts: nat, room: bool)
      requires modifers.Length == MAX_MODS && modifers[0] < MAX_MODS
      requires NoDuplicates(Table()) && Within(modbits, |Table()|)
      modifies modifers
      ensures room <==> !Overruns(old(Table()), data)
      ensures modifers[0] < MAX_MODS && NoDuplicates(Table()) && Within(modbits, |Table()|)
      ensures fresh(list) && shortcuts <= list.Length
      ensures room ==> Table() == Grown(old(Table()), data)
      ensures room ==> forall k | k in list[..shortcuts] :: Within(k.modBits, |Table()|)
      ensures room ==> Meanings(list[..shortcuts], Table()) == ShortcutsOf(Runs(data))
    {
      hide Remaining, Grown, Meanings, Within, Reading, NoDuplicates;
      RemainingIsRuns(data);
      ghost var grown := Grown(Table(), data);
      list := new Keypair[|data|](_ => Keypair(0, 0));
      var bits := 0 as bv32;
      shortcuts := 0;
      StartReading(Table(), modbits, data);
      assert list[..0] == [];
      var i := 0;
      room := true;
      while i < |data| && room
        invariant 0 <= shortcuts <= i <= |data| && fresh(list)
        invariant modifers[0] < MAX_MODS && (!room ==> |grown| >= MAX_MODS)
        invariant NoDuplicates(Table()) && Within(modbits, |Table()|)
        invariant room ==> Reading(list[..shortcuts], Table(), bits, modbits, data, i, grown)
        decreases |data| - i, room
      {
        shortcuts, bits, room := ReadKey(data, i, list, shortcuts, bits, grown);
        if room {
          i := i + 1;
        }
      }
      if room {
        DoneReading(list[..shortcuts], Table(), bits, modbits, data, grown);
      }
    }

    /** The body of that loop. */
    method ReadKey(data: seq<nat>, i: nat, list: array<Keypair>, shortcuts: nat, bits: bv32, ghost grown: seq<nat>)
      returns (shortcuts': nat, bits': bv32, room: bool)
      requires modifers.Length == MAX_MODS && modifers[0] < MAX_MODS
      requires shortcuts <= i < |data| == list.Length
      requires Reading(list[..shortcuts], Table(), bits, modbits, data, i, grown)
      modifies modifers, list
      ensures modifers[0] < MAX_MODS && shortcuts' <= i + 1
      ensures NoDuplicates(Table()) && Within(modbits, |Table()|)
      ensures if room then Reading(list[..shortcuts'], Table(), bits', modbits, data, i + 1, grown)
              else |grown| >= MAX_MODS && shortcuts' <= i
    {
      hide Reading, WithKey, Within, Join, Bit, NoDuplicates;
      shortcuts', bits', room := shortcuts, bits, true;
      ghost var before := list[..shortcuts];
      ReadingIsSound(before, Table(), bits, modbits, data, i, grown);
      if data[i] == 0 {
        ReadsZero(before, Table(), bits, modbits, data, i, grown);
      } else if i + 1 == |data| || data[i + 1] == 0 {
        ReadsAction(before, Table(), bits, modbits, data, i, grown);
        list[shortcuts] := Keypair(bits, data[i]);
        bits' := 0;
        shortcuts' := shortcuts + 1;
        assert list[..shortcuts'] == before + [Keypair(bits, data[i])];
      } else {
        ReadsModifier(before, Table(), bits, modbits, data, i, grown);
        var a: nat;
        a, room := AddMod(data[i]);
        if room {
          bits' := Join(bits, Bit(a));
          assert list[..shortcuts] == before;
          ReadingIsSound(before, Table(), bits', modbits, data, i + 1, grown);
        }
      }
    }

    /** `send_keypair`. */
    method SendKeypair(k: Keypair)
      requires Valid()
      modifies this`sent
      ensures sent == old(sent) + Replay(k, Table())
    {
      hide Masks.Has;
      SendModifiers(k.modBits, 1);
      sent := sent + [KeyEvent(k.keycode, 1)];
      sent := sent + [KeyEvent(k.keycode, 0)];
      SendModifiers(k.modBits, 0);
    }

    /** The loop of `send_keypair` over the modifiers. */
    method SendModifiers(m: bv32, value: int)
      requires modifers.Length == MAX_MODS && modifers[0] < MAX_MODS
      modifies this`sent
      ensures sent == old(sent) + ModifierEvents(m, Table(), value)
    {
      hide Masks.Has;
      var len := modifers[0];
      var i := 0;
      while i < len
        invariant 0 <= i <= len
        invariant sent == old(sent) + ModifierEvents(m, Table()[..i], value)
      {
        OneMoreModifier(m, Table(), i, value);
        if Has(m, i) {
          sent := sent + [KeyEvent(modifers[1 + i], value)];
        }
        i := i + 1;
      }
      assert Table()[..len] == Table();
    }

    /** `filter_keys` for the domain that owns this record. */
    method FilterKeys(isKey: bool, e: KeyEvent) returns (swallowed: bool)
      requires Valid()
      modifies this`modbits, this`sent
      ensures Valid()
      ensures !isKey || keylist == null ==> !swallowed && modbits == old(modbits)
      ensures isKey && keylist != null ==>
        && modbits == NextBits(old(modbits), Table(), e)
        && (swallowed <==> exists k :: k in Keys() && Matches(k, modbits, e))
      ensures !swallowed || e.value == 0 ==> sent == old(sent)
      ensures swallowed && e.value != 0 ==>
        exists k :: k in Keys() && Matches(k, modbits, e) && sent == old(sent) + Replay(k, Table())
    {
      hide KeysOf, Replay, Join, Remove, Bit;
      if !isKey || keylist == null {
        return false;
      }
      UpdateModifiers(e);
      var i := 0;
      while i < numKeys
        invariant 0 <= i <= numKeys
        invariant forall j | 0 <= j < i :: !Matches(Keys()[j], modbits, e)
      {
        assert Keys()[i] == keylist[i];
        if keylist[i].keycode == e.code && keylist[i].modBits == modbits {
          assert keylist[i] in Keys() && Matches(keylist[i], modbits, e);
          if e.value != 0 {
            SendKeypair(keylist[i]);
          }
          return true;
        }
        i := i + 1;
      }
      return false;
    }

    /** The first loop of `filter_keys`. */
    method UpdateModifiers(e: KeyEvent)
      requires Valid()
      modifies this`modbits
      ensures Valid() && modbits == NextBits(old(modbits), Table(), e)
    {
      hide KeysOf, Within, Join, Remove, Bit;
      NextBitsAreHeld(modbits, Table(), e);
      var len := modifers[0];
      var i := 0;
      while i < len && modifers[1 + i] != e.code
        invariant 0 <= i <= len
        invariant forall j | 0 <= j < i :: Table()[j] != e.code
      {
        i := i + 1;
      }
      PlaceIs(Table(), e.code, i);
      if i < len {
        if e.value != 0 {
          modbits := Join(modbits, Bit(i));
        } else {
          modbits := Remove(modbits, Bit(i));
        }
      }
    }
  }

  lemma OneMoreModifier(m: bv32, table: seq<nat>, i: nat, value: int)
    requires i < |table|
    ensures ModifierEvents(m, table[..i + 1], value) ==
            if Has(m, i) then ModifierEvents(m, table[..i], value) + [KeyEvent(table[i], value)]
            else ModifierEvents(m, table[..i], value)
  {
    hide Masks.Has;
    assert table[..i + 1][..i] == table[..i];
  }

  lemma NoBits(table: seq<nat>)
    ensures KeysOf(0, table) == {} && Within(0, |table|)
  {
    forall i ensures !Has(0, i) {
      ZeroHasNone(i);
    }
  }

  /** The invariant of the loop that reads the list: `ks` are the keypairs found
      so far, `bits` the modifiers of the current run, `outer` any mask in use
      over the same table. */
  ghost predicate Reading(ks: seq<Keypair>, table: seq<nat>, bits: bv32, outer: bv32,
                          data: seq<nat>, i: nat, grown: seq<nat>)
    requires i <= |data|
  {
    && |table| < MAX_MODS && NoDuplicates(table)
    && Within(bits, |table|) && Within(outer, |table|)
    && (forall k | k in ks :: Within(k.modBits, |table|))
    && Meanings(ks, table) + Remaining(data[i..], KeysOf(bits, table)) == Remaining(data, {})
    && Grown(table, data[i..]) == grown
  }

  lemma StartReading(table: seq<nat>, outer: bv32, data: seq<nat>)
    requires |table| < MAX_MODS && NoDuplicates(table) && Within(outer, |table|)
    ensures Reading([], table, 0, outer, data, 0, Grown(table, data))
  {
    hide KeysOf, Within;
    NoBits(table);
    assert data[0..] == data;
  }

  lemma ReadsZero(ks: seq<Keypair>, table: seq<nat>, bits: bv32, outer: bv32, data: seq<nat>, i: nat, grown: seq<nat>)
    requires i < |data| && data[i] == 0 && Reading(ks, table, bits, outer, data, i, grown)
    ensures Reading(ks, table, bits, outer, data, i + 1, grown)
  {
    hide KeysOf, Within, Meanings;
    assert data[i..][1..] == data[i + 1..];
  }

  lemma ReadsAction(ks: seq<Keypair>, table: seq<nat>, bits: bv32, outer: bv32, data: seq<nat>, i: nat, grown: seq<nat>)
    requires i < |data| && data[i] != 0 && (i + 1 == |data| || data[i + 1] == 0)
    requires Reading(ks, table, bits, outer, data, i, grown)
    ensures Reading(ks + [Keypair(bits, data[i])], table, 0, outer, data, i + 1, grown)
  {
    hide KeysOf, Within;
    var k := Keypair(bits, data[i]);
    NoBits(table);
    assert data[i..][1..] == data[i + 1..];
    assert Meanings(ks + [k], table) == Meanings(ks, table) + [Meaning(k, table)];
    assert forall x | x in ks + [k] :: x in ks || x == k;
  }

  lemma ReadsModifier(ks: seq<Keypair>, table: seq<nat>, bits: bv32, outer: bv32, data: seq<nat>, i: nat, grown: seq<nat>)
    requires i + 1 < |data| && data[i] != 0 && data[i + 1] != 0
    requires Reading(ks, table, bits, outer, data, i, grown)
    ensures |WithKey(table, data[i])| < MAX_MODS ==>
              Reading(ks, WithKey(table, data[i]), Join(bits, Bit(Place(table, data[i]))), outer, data, i + 1, grown)
    ensures |WithKey(table, data[i])| <= |grown|
  {
    hide KeysOf, Within, Join, Bit, Meanings;
    var key := data[i];
    var after, place := WithKey(table, key), Place(table, key);
    assert data[i..][1..] == data[i + 1..];
    assert Grown(after, data[i + 1..]) == grown;
    if place == |table| {
      forall j | 0 <= j < |ks| ensures Within(ks[j].modBits, |table|) {
        assert ks[j] in ks;
      }
      MeaningsKept(ks, table, key);
      GrowthKeepsMeaning(bits, table, [key]);
      GrowthKeepsMeaning(outer, table, [key]);
      forall k | k in ks ensures Within(k.modBits, |after|) {
        GrowthKeepsMeaning(k.modBits, table, [key]);
      }
    }
    JoinAddsKey(bits, after, place);
  }

  lemma DoneReading(ks: seq<Keypair>, table: seq<nat>, bits: bv32, outer: bv32, data: seq<nat>, grown: seq<nat>)
    requires Reading(ks, table, bits, outer, data, |data|, grown)
    ensures Meanings(ks, table) == Remaining(data, {}) && table == grown
    ensures |table| < MAX_MODS && forall k | k in ks :: Within(k.modBits, |table|)
  {
    hide KeysOf, Within, Meanings;
    assert data[|data|..] == [];
  }

  lemma ReadingIsSound(ks: seq<Keypair>, table: seq<nat>, bits: bv32, outer: bv32, data: seq<nat>, i: nat, grown: seq<nat>)
    requires i <= |data| && Reading(ks, table, bits, outer, data, i, grown)
    ensures NoDuplicates(table) && Within(outer, |table|)
  {
  }

  lemma {:induction false} PlaceIs(table: seq<nat>, key: nat, i: nat)
    requires i <= |table| && (i < |table| ==> table[i] == key)
    requires forall j | 0 <= j < i :: table[j] != key
    ensures Place(table, key) == i
  {
  }
}
