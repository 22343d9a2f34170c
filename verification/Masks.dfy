/** Masks: 32-bit words as sets of bit positions. */
module Masks {

  /** `1 << i`. */
  function Bit(i: nat): bv32 {
    if i == 0 then 1 else Bit(i - 1) << 1
  }

  function Both(m: bv32, b: bv32): bv32 {
    m & b
  }

  predicate Meet(m: bv32, b: bv32) {
    Both(m, b) != 0
  }

  function Join(m: bv32, b: bv32): bv32 {
    m | b
  }

  function Remove(m: bv32, b: bv32): bv32 {
    m & !b
  }

  /** Whether bit `i` of the word is set. */
  predicate Has(m: bv32, i: nat) {
    Meet(m, Bit(i))
  }

  lemma BitTable()
    ensures Bit(0) == 0x1 && Bit(1) == 0x2 && Bit(2) == 0x4 && Bit(3) == 0x8
    ensures Bit(4) == 0x10 && Bit(5) == 0x20 && Bit(6) == 0x40 && Bit(7) == 0x80
    ensures Bit(8) == 0x100 && Bit(9) == 0x200 && Bit(10) == 0x400 && Bit(11) == 0x800
    ensures Bit(12) == 0x1000 && Bit(13) == 0x2000 && Bit(14) == 0x4000 && Bit(15) == 0x8000
    ensures Bit(16) == 0x10000 && Bit(17) == 0x20000 && Bit(18) == 0x40000 && Bit(19) == 0x80000
    ensures Bit(20) == 0x100000 && Bit(21) == 0x200000 && Bit(22) == 0x400000 && Bit(23) == 0x800000
    ensures Bit(24) == 0x1000000 && Bit(25) == 0x2000000 && Bit(26) == 0x4000000 && Bit(27) == 0x8000000
    ensures Bit(28) == 0x10000000 && Bit(29) == 0x20000000 && Bit(30) == 0x40000000 && Bit(31) == 0x80000000
  {
    assert Bit(0) == 0x1;
    assert Bit(1) == 0x2;
    assert Bit(2) == 0x4;
    assert Bit(3) == 0x8;
    assert Bit(4) == 0x10;
    assert Bit(5) == 0x20;
    assert Bit(6) == 0x40;
    assert Bit(7) == 0x80;
    assert Bit(8) == 0x100;
    assert Bit(9) == 0x200;
    assert Bit(10) == 0x400;
    assert Bit(11) == 0x800;
    assert Bit(12) == 0x1000;
    assert Bit(13) == 0x2000;
    assert Bit(14) == 0x4000;
    assert Bit(15) == 0x8000;
    assert Bit(16) == 0x10000;
    assert Bit(17) == 0x20000;
    assert Bit(18) == 0x40000;
    assert Bit(19) == 0x80000;
    assert Bit(20) == 0x100000;
    assert Bit(21) == 0x200000;
    assert Bit(22) == 0x400000;
    assert Bit(23) == 0x800000;
    assert Bit(24) == 0x1000000;
    assert Bit(25) == 0x2000000;
    assert Bit(26) == 0x4000000;
    assert Bit(27) == 0x8000000;
    assert Bit(28) == 0x10000000;
    assert Bit(29) == 0x20000000;
    assert Bit(30) == 0x40000000;
    assert Bit(31) == 0x80000000;
  }

  lemma BitIsNotZero(i: nat)
    requires i < 32
    ensures Bit(i) != 0
  {
    hide Bit;
    BitTable();
  }

  lemma {:induction false} Distinct(i: nat, j: nat)
    requires i != j
    ensures !Meet(Bit(i), Bit(j))
  {
    hide Meet;
    if i == 0 {
      OddAndEven(Bit(j - 1));
    } else if j == 0 {
      OddAndEven(Bit(i - 1));
    } else {
      Distinct(i - 1, j - 1);
      ShiftApart(Bit(i - 1), Bit(j - 1));
    }
  }

  lemma OddAndEven(b: bv32)
    ensures !Meet(1, b << 1) && !Meet(b << 1, 1)
  {
  }

  lemma ShiftApart(a: bv32, b: bv32)
    requires !Meet(a, b)
    ensures !Meet(a << 1, b << 1)
  {
  }

  lemma JoinDistributes(m: bv32, a: bv32, b: bv32)
    ensures Both(Join(m, a), b) == Join(Both(m, b), Both(a, b))
  {
  }

  lemma JoinIsZero(x: bv32, y: bv32)
    ensures Join(x, y) == 0 <==> x == 0 && y == 0
  {
  }

  lemma JoinMeets(m: bv32, a: bv32, b: bv32)
    ensures Meet(Join(m, a), b) <==> Meet(m, b) || Meet(a, b)
  {
    hide Both, Join;
    JoinDistributes(m, a, b);
    JoinIsZero(Both(m, b), Both(a, b));
  }

  lemma RemoveMeets(m: bv32, a: bv32, b: bv32)
    ensures a == b ==> !Meet(Remove(m, a), b)
    ensures !Meet(a, b) ==> (Meet(Remove(m, a), b) <==> Meet(m, b))
  {
  }

  lemma MeetsItself(b: bv32)
    requires b != 0
    ensures Meet(b, b)
  {
  }

  lemma SetBit(m: bv32, i: nat, j: nat)
    requires j < 32
    ensures Has(Join(m, Bit(i)), j) <==> Has(m, j) || i == j
  {
    hide Bit, Meet, Join;
    JoinMeets(m, Bit(i), Bit(j));
    if i != j {
      Distinct(i, j);
    } else {
      BitIsNotZero(j);
      MeetsItself(Bit(j));
    }
  }

  lemma ClearBit(m: bv32, i: nat, j: nat)
    ensures Has(Remove(m, Bit(i)), j) <==> Has(m, j) && i != j
  {
    hide Bit, Meet, Remove;
    RemoveMeets(m, Bit(i), Bit(j));
    if i != j {
      Distinct(i, j);
    }
  }

  lemma ZeroHasNone(i: nat)
    ensures !Has(0, i)
  {
  }

  /** Two words with the same bits are the same. */
  lemma SameBits(m: bv32, n: bv32)
    requires forall i | 0 <= i < 32 :: Has(m, i) <==> Has(n, i)
    ensures m == n
  {
    hide Bit, Meet;
    BitTable();
    assert Has(m, 0) <==> Has(n, 0);
    assert Has(m, 1) <==> Has(n, 1);
    assert Has(m, 2) <==> Has(n, 2);
    assert Has(m, 3) <==> Has(n, 3);
    assert Has(m, 4) <==> Has(n, 4);
    assert Has(m, 5) <==> Has(n, 5);
    assert Has(m, 6) <==> Has(n, 6);
    assert Has(m, 7) <==> Has(n, 7);
    assert Has(m, 8) <==> Has(n, 8);
    assert Has(m, 9) <==> Has(n, 9);
    assert Has(m, 10) <==> Has(n, 10);
    assert Has(m, 11) <==> Has(n, 11);
    assert Has(m, 12) <==> Has(n, 12);
    assert Has(m, 13) <==> Has(n, 13);
    assert Has(m, 14) <==> Has(n, 14);
    assert Has(m, 15) <==> Has(n, 15);
    assert Has(m, 16) <==> Has(n, 16);
    assert Has(m, 17) <==> Has(n, 17);
    assert Has(m, 18) <==> Has(n, 18);
    assert Has(m, 19) <==> Has(n, 19);
    assert Has(m, 20) <==> Has(n, 20);
    assert Has(m, 21) <==> Has(n, 21);
    assert Has(m, 22) <==> Has(n, 22);
    assert Has(m, 23) <==> Has(n, 23);
    assert Has(m, 24) <==> Has(n, 24);
    assert Has(m, 25) <==> Has(n, 25);
    assert Has(m, 26) <==> Has(n, 26);
    assert Has(m, 27) <==> Has(n, 27);
    assert Has(m, 28) <==> Has(n, 28);
    assert Has(m, 29) <==> Has(n, 29);
    assert Has(m, 30) <==> Has(n, 30);
    assert Has(m, 31) <==> Has(n, 31);
    SameWord(m, n);
  }

  lemma SameWord(m: bv32, n: bv32)
    requires (Meet(m, 0x1) <==> Meet(n, 0x1)) && (Meet(m, 0x2) <==> Meet(n, 0x2))
    requires (Meet(m, 0x4) <==> Meet(n, 0x4)) && (Meet(m, 0x8) <==> Meet(n, 0x8))
    requires (Meet(m, 0x10) <==> Meet(n, 0x10)) && (Meet(m, 0x20) <==> Meet(n, 0x20))
    requires (Meet(m, 0x40) <==> Meet(n, 0x40)) && (Meet(m, 0x80) <==> Meet(n, 0x80))
    requires (Meet(m, 0x100) <==> Meet(n, 0x100)) && (Meet(m, 0x200) <==> Meet(n, 0x200))
    requires (Meet(m, 0x400) <==> Meet(n, 0x400)) && (Meet(m, 0x800) <==> Meet(n, 0x800))
    requires (Meet(m, 0x1000) <==> Meet(n, 0x1000)) && (Meet(m, 0x2000) <==> Meet(n, 0x2000))
    requires (Meet(m, 0x4000) <==> Meet(n, 0x4000)) && (Meet(m, 0x8000) <==> Meet(n, 0x8000))
    requires (Meet(m, 0x10000) <==> Meet(n, 0x10000)) && (Meet(m, 0x20000) <==> Meet(n, 0x20000))
    requires (Meet(m, 0x40000) <==> Meet(n, 0x40000)) && (Meet(m, 0x80000) <==> Meet(n, 0x80000))
    requires (Meet(m, 0x100000) <==> Meet(n, 0x100000)) && (Meet(m, 0x200000) <==> Meet(n, 0x200000))
    requires (Meet(m, 0x400000) <==> Meet(n, 0x400000)) && (Meet(m, 0x800000) <==> Meet(n, 0x800000))
    requires (Meet(m, 0x1000000) <==> Meet(n, 0x1000000)) && (Meet(m, 0x2000000) <==> Meet(n, 0x2000000))
    requires (Meet(m, 0x4000000) <==> Meet(n, 0x4000000)) && (Meet(m, 0x8000000) <==> Meet(n, 0x8000000))
    requires (Meet(m, 0x10000000) <==> Meet(n, 0x10000000)) && (Meet(m, 0x20000000) <==> Meet(n, 0x20000000))
    requires (Meet(m, 0x40000000) <==> Meet(n, 0x40000000)) && (Meet(m, 0x80000000) <==> Meet(n, 0x80000000))
    ensures m == n
  {
  }
}
