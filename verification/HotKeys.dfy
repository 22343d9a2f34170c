/** The hot-key matcher: `input_add_binding` and `input_exec_bindings`
    (`input.c`). */
module HotKeys {

  const EV_KEY := 1
  const BTN_MOUSE := 0x110
  const END := -1

  /** `struct input_event`; codes are unsigned. */
  datatype Event = Event(kind: nat, code: nat, value: int) {
    predicate IsKey() {
      kind == EV_KEY && code < BTN_MOUSE
    }

    predicate IsDown() {
      IsKey() && value == 1
    }

    predicate IsUp() {
      IsKey() && value == 0
    }
  }

  /** `struct input_binding`: the keys with their terminator, how many of them
      have been matched, and whether the binding fired since the last key-up. */
  datatype Binding = Binding(keys: seq<int>, matched: nat, down: bool) {
    /** The terminator is last and only last, and the index is inside. */
    predicate Valid() {
      && keys != [] && keys[|keys| - 1] == END
      && (forall i | 0 <= i < |keys| - 1 :: keys[i] != END)
      && matched < |keys|
      && (matched == 0 || keys[matched] != END)
    }

    /** The keys without their terminator. */
    function Sequence(): seq<int>
      requires keys != []
    {
      keys[..|keys| - 1]
    }
  }

  /** The index after a key-down, before the test for the end. */
  function Bump(b: Binding, code: nat): nat
    requires b.Valid()
  {
    if b.keys[b.matched] == code then b.matched + 1 else 0
  }

  /** Whether a key-down completes the binding. */
  predicate Completes(b: Binding, code: nat)
    requires b.Valid()
  {
    b.keys[Bump(b, code)] == END
  }

  /** One binding after an event; `down` is set apart, by the caller. */
  function Next(b: Binding, e: Event): (r: Binding)
    requires b.Valid()
    ensures r.Valid() && r.keys == b.keys
  {
    if e.IsUp() then b.(matched := 0, down := false)
    else if !e.IsDown() then b
    else b.(matched := if Completes(b, e.code) then 0 else Bump(b, e.code))
  }

  function NextAll(b: Binding, es: seq<Event>): (r: Binding)
    requires b.Valid()
    ensures r.Valid() && r.keys == b.keys
    decreases |es|
  {
    if es == [] then b else Next(NextAll(b, es[..|es| - 1]), es[|es| - 1])
  }

  /** The keys pressed since the last release, autorepeat apart. */
  function Downs(es: seq<Event>): seq<nat> {
    if es == [] then []
    else
      var e, before := es[|es| - 1], es[..|es| - 1];
      if e.IsUp() then [] else if e.IsDown() then Downs(before) + [e.code] else Downs(before)
  }

  predicate EndsWith(s: seq<int>, suffix: seq<int>) {
    |suffix| <= |s| && s[|s| - |suffix|..] == suffix
  }

  lemma EndsWithSnoc(s: seq<int>, suffix: seq<int>)
    requires s != [] && suffix != []
    ensures var n, k := |s| - 1, |suffix| - 1;
            EndsWith(s, suffix) <==> s[n] == suffix[k] && EndsWith(s[..n], suffix[..k])
  {
    var n, k := |s| - 1, |suffix| - 1;
    if k <= n {
      var a, b := s[n - k..], s[..n][n - k..];
      assert a == b + [s[n]];
      assert suffix == suffix[..k] + [suffix[k]];
    }
  }

  /** The index as a function of the keys pressed since the last release. */
  function Matched(keys: seq<int>, downs: seq<nat>): (m: nat)
    requires Binding(keys, 0, false).Valid()
    ensures Binding(keys, m, false).Valid()
    decreases |downs|
  {
    if downs == [] then 0
    else
      var b := Binding(keys, Matched(keys, downs[..|downs| - 1]), false);
      if Completes(b, downs[|downs| - 1]) then 0 else Bump(b, downs[|downs| - 1])
  }

  lemma StartIsValid(b: Binding)
    requires b.Valid()
    ensures Binding(b.keys, 0, false).Valid()
  {
  }

  /** The flag `down` plays no part in matching. */
  lemma DownDoesNotMatter(b: Binding, m: nat, code: nat)
    requires b.Valid() && b.matched == m
    ensures Completes(b, code) == Completes(Binding(b.keys, m, false), code)
    ensures Bump(b, code) == Bump(Binding(b.keys, m, false), code)
  {
  }

  lemma {:induction false} IndexOfDowns(b: Binding, es: seq<Event>)
    requires b.Valid() && b.matched == 0
    ensures NextAll(b, es).matched == Matched(b.keys, Downs(es))
    decreases |es|
  {
    hide Completes, Bump, Binding.Valid;
    StartIsValid(b);
    if es != [] {
      var before, e := es[..|es| - 1], es[|es| - 1];
      IndexOfDowns(b, before);
      if e.IsDown() {
        assert Downs(es)[..|Downs(es)| - 1] == Downs(before);
        DownDoesNotMatter(NextAll(b, before), Matched(b.keys, Downs(before)), e.code);
      }
    }
  }

  /** The last k of the key-downs are the first k keys, and the matcher was idle
      before them. */
  predicate Explains(keys: seq<int>, downs: seq<nat>, k: nat)
    requires Binding(keys, 0, false).Valid()
  {
    k < |keys| && EndsWith(downs, keys[..k]) && Matched(keys, downs[..|downs| - k]) == 0
  }

  lemma ExplainsOneMore(keys: seq<int>, downs: seq<nat>, k: nat)
    requires Binding(keys, 0, false).Valid() && downs != [] && 0 < k < |keys|
    ensures var n := |downs| - 1;
            Explains(keys, downs, k) <==> downs[n] == keys[k - 1] && Explains(keys, downs[..n], k - 1)
  {
    hide Matched, EndsWith;
    var n := |downs| - 1;
    EndsWithSnoc(downs, keys[..k]);
    assert keys[..k][..k - 1] == keys[..k - 1];
    if k <= |downs| {
      assert downs[..n][..n - (k - 1)] == downs[..|downs| - k];
    } else {
      EndsWithLength(downs, keys[..k]);
    }
  }

  lemma EndsWithLength(s: seq<int>, suffix: seq<int>)
    ensures EndsWith(s, suffix) ==> |suffix| <= |s|
  {
  }

  /** An index of k stands for the binding's first k keys, pressed last. */
  lemma {:induction false} MatchedMeans(keys: seq<int>, downs: seq<nat>)
    requires Binding(keys, 0, false).Valid()
    ensures Explains(keys, downs, Matched(keys, downs))
    decreases |downs|
  {
    hide EndsWith;
    if downs != [] {
      var k := Matched(keys, downs);
      MatchedMeans(keys, downs[..|downs| - 1]);
      if k > 0 {
        hide Explains;
        ExplainsOneMore(keys, downs, k);
      } else {
        ExplainsNothing(keys, downs);
      }
    } else {
      ExplainsNothing(keys, downs);
    }
  }

  lemma ExplainsNothing(keys: seq<int>, downs: seq<nat>)
    requires Binding(keys, 0, false).Valid() && Matched(keys, downs) == 0
    ensures Explains(keys, downs, 0)
  {
    assert downs[..|downs|] == downs;
  }

  /** Conversely, key-downs so explained bring the matcher to k, as long as the
      sequence is not complete. */
  lemma {:induction false} ExplainedIsMatched(keys: seq<int>, downs: seq<nat>, k: nat)
    requires Binding(keys, 0, false).Valid() && k < |keys| - 1 && Explains(keys, downs, k)
    ensures Matched(keys, downs) == k
    decreases k
  {
    hide EndsWith;
    if k == 0 {
      assert downs[..|downs|] == downs;
    } else {
      EndsWithLength(downs, keys[..k]);
      ExplainsOneMore(keys, downs, k);
      ExplainedIsMatched(keys, downs[..|downs| - 1], k - 1);
    }
  }

  /** Whether the last of the key-downs completes the binding. */
  predicate Fires(keys: seq<int>, downs: seq<nat>)
    requires Binding(keys, 0, false).Valid() && downs != []
  {
    Completes(Binding(keys, Matched(keys, downs[..|downs| - 1]), false), downs[|downs| - 1])
  }

  /** Exactly when a binding fires: the key-downs end with its whole sequence,
      and the matcher was idle when that began. */
  lemma FiresExactly(keys: seq<int>, downs: seq<nat>)
    requires Binding(keys, 0, false).Valid() && downs != []
    ensures Fires(keys, downs) <==> |keys| == 1 || Explains(keys, downs, |keys| - 1)
  {
    hide EndsWith, Matched, Explains;
    var n, before := |keys| - 1, downs[..|downs| - 1];
    if n > 0 {
      MatchedMeans(keys, before);
      ExplainsOneMore(keys, downs, n);
      if Explains(keys, before, n - 1) {
        ExplainedIsMatched(keys, before, n - 1);
      }
    }
  }

  /** Over every event stream: the index says which keys were pressed last, a
      binding fires only at the end of its whole sequence, and always when
      exactly its sequence has been typed since the last release. */
  lemma HotKeyIsSound(b: Binding, es: seq<Event>, e: Event)
    requires b.Valid() && b.matched == 0 && e.IsDown()
    ensures var now, downs, n := NextAll(b, es), Downs(es + [e]), |b.keys| - 1;
            && EndsWith(Downs(es), b.keys[..now.matched])
            && (Completes(now, e.code) ==> EndsWith(downs, b.Sequence()))
            && (downs == b.Sequence() ==> Completes(now, e.code))
  {
    hide Explains, EndsWith, Matched, Completes, Fires, Binding.Valid;
    assert (es + [e])[..|es|] == es;
    StartIsValid(b);
    IndexOfDowns(b, es);
    CompletesLikeFires(NextAll(b, es), Downs(es), e.code);
    DownsAreSound(b.keys, Downs(es), e.code);
  }

  lemma DownsAreSound(keys: seq<int>, before: seq<nat>, code: nat)
    requires Binding(keys, 0, false).Valid()
    ensures var downs, sequence := before + [code], keys[..|keys| - 1];
            && Matched(keys, before) < |keys| && EndsWith(before, keys[..Matched(keys, before)])
            && (Fires(keys, downs) ==> EndsWith(downs, sequence))
            && (downs == sequence ==> Fires(keys, downs))
  {
    hide Explains, EndsWith, Matched, Fires;
    var downs, n := before + [code], |keys| - 1;
    MatchedMeans(keys, before);
    ExplainsEnd(keys, before, Matched(keys, before));
    FiresExactly(keys, downs);
    if n == 0 {
      EmptyEnds(downs, keys[..n]);
    } else if Explains(keys, downs, n) {
      ExplainsEnd(keys, downs, n);
    }
    if downs == keys[..n] {
      WholeIsExplained(keys, downs);
    }
  }

  lemma ExplainsEnd(keys: seq<int>, downs: seq<nat>, k: nat)
    requires Binding(keys, 0, false).Valid() && Explains(keys, downs, k)
    ensures EndsWith(downs, keys[..k])
  {
  }

  lemma EmptyEnds(downs: seq<nat>, suffix: seq<int>)
    requires suffix == []
    ensures EndsWith(downs, suffix)
  {
  }

  lemma WholeIsExplained(keys: seq<int>, downs: seq<nat>)
    requires Binding(keys, 0, false).Valid() && downs == keys[..|keys| - 1]
    ensures Explains(keys, downs, |keys| - 1)
  {
    assert downs[..0] == [];
  }

  lemma CompletesLikeFires(b: Binding, before: seq<nat>, code: nat)
    requires b.Valid() && b.matched == Matched(b.keys, before)
    ensures Fires(b.keys, before + [code]) == Completes(b, code)
  {
    assert (before + [code])[..|before|] == before;
  }

  /** The matcher does not look back: with the first key of a two-key binding
      typed twice, the sequence that follows is missed. */
  lemma RestartCanMissASequence(a: nat, c: nat)
    requires a != c
    ensures EndsWith([a, a, c], [a, c]) && !Fires([a, c, END], [a, a, c])
  {
    assert [a, a, c][1..] == [a, c];
    assert [a, a, c][..2] == [a, a] && [a, a][..1] == [a] && [a][..0] == [];
    assert Matched([a, c, END], []) == 0;
    assert Matched([a, c, END], [a]) == 1;
    assert Matched([a, c, END], [a, a]) == 0;
  }

  // ----- All bindings -----------------------------------------------------

  ghost predicate AllValid(bs: seq<Binding>) {
    forall i | 0 <= i < |bs| :: bs[i].Valid()
  }

  /** The last binding that a key-down completes, or -1. */
  function Winner(bs: seq<Binding>, code: nat): (w: int)
    requires AllValid(bs)
    ensures -1 <= w < |bs|
    ensures w >= 0 ==> Completes(bs[w], code)
    ensures forall i | w < i < |bs| :: !Completes(bs[i], code)
  {
    if bs == [] then -1
    else if Completes(bs[|bs| - 1], code) then |bs| - 1
    else Winner(bs[..|bs| - 1], code)
  }

  lemma WinnerIs(bs: seq<Binding>, code: nat, w: int)
    requires AllValid(bs) && -1 <= w < |bs| && (w >= 0 ==> Completes(bs[w], code))
    requires forall i | w < i < |bs| :: !Completes(bs[i], code)
    ensures Winner(bs, code) == w
  {
    hide Completes, Binding.Valid;
  }

  /** All bindings after an event: only the one whose callback runs is held
      down. */
  function Exec(bs: seq<Binding>, e: Event): (rs: seq<Binding>)
    requires AllValid(bs)
    ensures |rs| == |bs| && AllValid(rs)
    ensures forall i | 0 <= i < |bs| ::
              rs[i] == if e.IsDown() && Winner(bs, e.code) == i then Next(bs[i], e).(down := true) else Next(bs[i], e)
  {
    seq(|bs|, i requires 0 <= i < |bs| =>
      if e.IsDown() && Winner(bs, e.code) == i then Next(bs[i], e).(down := true) else Next(bs[i], e))
  }

  function ExecAll(bs: seq<Binding>, es: seq<Event>): (rs: seq<Binding>)
    requires AllValid(bs)
    ensures |rs| == |bs| && AllValid(rs)
    decreases |es|
  {
    if es == [] then bs else Exec(ExecAll(bs, es[..|es| - 1]), es[|es| - 1])
  }

  /** Whether the callback of binding i has run since the last key-up. */
  predicate FiredSince(bs: seq<Binding>, es: seq<Event>, i: nat)
    requires AllValid(bs)
    decreases |es|
  {
    es != [] && (
      var before, e := es[..|es| - 1], es[|es| - 1];
      !e.IsUp() && ((e.IsDown() && Winner(ExecAll(bs, before), e.code) == i) || FiredSince(bs, before, i)))
  }

  /** Over every stream: a binding is held down exactly if its callback has run
      since the last key-up, and it matches as if it were alone. */
  lemma {:induction false} DownMeansFired(bs: seq<Binding>, es: seq<Event>, i: nat)
    requires AllValid(bs) && i < |bs| && !bs[i].down
    ensures ExecAll(bs, es)[i].down <==> FiredSince(bs, es, i)
    ensures ExecAll(bs, es)[i].matched == NextAll(bs[i], es).matched && ExecAll(bs, es)[i].keys == bs[i].keys
    decreases |es|
  {
    hide Completes, Bump, Binding.Valid;
    if es != [] {
      DownMeansFired(bs, es[..|es| - 1], i);
      SameIndexNext(ExecAll(bs, es[..|es| - 1])[i], NextAll(bs[i], es[..|es| - 1]), es[|es| - 1]);
    }
  }

  lemma SameIndexNext(b: Binding, c: Binding, e: Event)
    requires b.Valid() && c.Valid() && b.keys == c.keys && b.matched == c.matched
    ensures Next(b, e).matched == Next(c, e).matched
    ensures Next(b, e).down <==> b.down && !e.IsUp()
  {
  }

  // ----- The code ---------------------------------------------------------

  /** The bindings of `input_dev`. */
  class Matcher {
    var bindings: seq<Binding>

    ghost predicate Valid()
      reads this
    {
      AllValid(bindings)
    }

    constructor ()
      ensures Valid() && bindings == []
    {
      bindings := [];
    }

    /** `input_add_binding`: copies the table up to its terminator. */
    method AddBinding(tab: seq<int>)
      requires Valid() && END in tab
      modifies this
      ensures Valid()
      ensures |bindings| == |old(bindings)| + 1 && bindings[..|old(bindings)|] == old(bindings)
      ensures var b := bindings[|old(bindings)|];
              b.matched == 0 && !b.down && b.keys <= tab
    {
      var len := 0;
      while tab[len] != END
        invariant 0 <= len < |tab|
        invariant forall i | 0 <= i < len :: tab[i] != END
        invariant END in tab[len..]
        decreases |tab| - len
      {
        assert tab[len..] == [tab[len]] + tab[len + 1..];
        len := len + 1;
      }
      len := len + 1;
      bindings := bindings + [Binding(tab[..len], 0, false)];
    }

    /** `input_exec_bindings` up to the callback: the index of the binding whose
        callback runs, or -1 if the event is to be passed on. */
    method ExecBindings(e: Event) returns (fired: int)
      requires Valid()
      modifies this
      ensures Valid() && bindings == Exec(old(bindings), e)
      ensures fired == if e.IsDown() then Winner(old(bindings), e.code) else -1
    {
      fired := -1;
      if e.IsUp() {
        Release();
      }
      if !e.IsDown() {
        return;
      }
      hide Completes, Bump, Next, Winner, Binding.Valid;
      fired := PressAll(e);
      if fired >= 0 {
        var b := bindings[fired].(down := true);
        DownKeepsValid(bindings[fired]);
        bindings := bindings[fired := b];
      }
    }

    /** The loop of `input_exec_bindings` over the bindings. */
    method PressAll(e: Event) returns (fired: int)
      requires Valid() && e.IsDown()
      modifies this
      ensures Valid() && |bindings| == |old(bindings)|
      ensures forall i | 0 <= i < |bindings| :: bindings[i] == Next(old(bindings)[i], e)
      ensures fired == Winner(old(bindings), e.code)
    {
      hide Completes, Bump, Next, Winner, Binding.Valid;
      fired := -1;
      var n := 0;
      while n < |bindings|
        invariant 0 <= n <= |bindings| == |old(bindings)| && -1 <= fired < n
        invariant fired >= 0 ==> Completes(old(bindings)[fired], e.code)
        invariant forall i | fired < i < n :: !Completes(old(bindings)[i], e.code)
        invariant forall i | 0 <= i < n :: bindings[i] == Next(old(bindings)[i], e)
        invariant forall i | n <= i < |bindings| :: bindings[i] == old(bindings)[i]
      {
        var b, complete := Press(bindings[n], e);
        if complete {
          fired := n;
        }
        bindings := bindings[n := b];
        n := n + 1;
      }
      WinnerIs(old(bindings), e.code, fired);
    }

    /** The body of the loop over the bindings. */
    method Press(b: Binding, e: Event) returns (r: Binding, complete: bool)
      requires b.Valid() && e.IsDown()
      ensures complete == Completes(b, e.code) && r == Next(b, e)
    {
      r, complete := b, false;
      if r.keys[r.matched] == e.code {
        r := r.(matched := r.matched + 1);
      } else {
        r := r.(matched := 0);
      }
      if r.keys[r.matched] == END {
        r := r.(matched := 0);
        complete := true;
      }
    }

    lemma DownKeepsValid(b: Binding)
      requires b.Valid()
      ensures b.(down := true).Valid()
    {
    }

    /** The loop that a key-up runs over all bindings. */
    method Release()
      requires Valid()
      modifies this
      ensures Valid() && |bindings| == |old(bindings)|
      ensures forall i | 0 <= i < |bindings| :: bindings[i] == old(bindings)[i].(matched := 0, down := false)
    {
      var n := 0;
      while n < |bindings|
        invariant 0 <= n <= |bindings| == |old(bindings)|
        invariant forall i | 0 <= i < n :: bindings[i] == old(bindings)[i].(matched := 0, down := false)
        invariant forall i | n <= i < |bindings| :: bindings[i] == old(bindings)[i]
      {
        bindings := bindings[n := bindings[n].(matched := 0, down := false)];
        n := n + 1;
      }
    }
  }
}
