/**
 Bit sets in machine words: shifting 1 by i, setting, testing and masking.  The operators are
 wrapped in functions so that the facts about bit vectors can be kept in small lemmas.
 */
module Bits {
  type Word = bv64

  const ALL: Word := 0xFFFF_FFFF_FFFF_FFFF

  function And(a: Word, b: Word): Word { a & b }
  function Or(a: Word, b: Word): Word { a | b }
  function Next(l: Word): Word { (l << 1) | 1 }
  function Succ(l: Word): Word { l + 1 }
  function Seven(l: Word): Word { (l << 7) | 0x7F }
  function Eight(l: Word): Word { (l << 8) | 0xFF }
  function Double(b: Word): Word { b << 1 }

  /** The i lowest bits. */
  function Low(i: nat): Word { if i == 0 then 0 else Next(Low(i - 1)) }

  /** 1 << i */
  function Bit(i: nat): Word { if i == 0 then 1 else Double(Bit(i - 1)) }

  predicate Test(w: Word, i: nat) { And(w, Bit(i)) != 0 }

  /** A run of low bits. */
  ghost predicate Mask(l: Word) { And(l, Succ(l)) == 0 }

  ghost predicate Sub(a: Word, b: Word) { And(a, b) == a }

  // ------------------------------------------------------------------ facts about words

  lemma MaskNext(l: Word)
    requires Mask(l)
    ensures Mask(Next(l)) && Next(l) == Or(l, Succ(l)) && Succ(Next(l)) == Double(Succ(l))
  {
  }

  lemma MaskZero()
    ensures Mask(0) && Succ(0) == 1 && Next(0) == 1
  {
  }

  lemma SubOr(a: Word, b: Word, c: Word)
    ensures Sub(a, b) ==> Sub(a, Or(b, c))
    ensures Sub(c, Or(b, c)) && Sub(a, a)
  {
  }

  lemma SubJoin(a: Word, b: Word, m: Word)
    requires Sub(a, m) && Sub(b, m)
    ensures Sub(Or(a, b), m)
  {
  }

  lemma SubPart(a: Word, b: Word, m: Word)
    requires Sub(Or(a, b), m)
    ensures Sub(b, m)
  {
  }

  lemma NotFull(l: Word)
    requires Sub(l, 0x7FFF_FFFF_FFFF_FFFF)
    ensures Succ(l) != 0
  {
  }

  lemma Single(l: Word, m: Word)
    requires Mask(l)
    ensures And(m, Succ(l)) == 0 || And(m, Succ(l)) == Succ(l)
    ensures And(m, Or(l, Succ(l))) == Or(And(m, l), And(m, Succ(l)))
  {
  }

  lemma Above(b: Word, l: Word)
    requires Mask(l) && Sub(b, l)
    ensures And(b, Succ(l)) == 0
  {
  }

  lemma OrApart(m: Word, a: Word, b: Word)
    requires And(a, b) == 0
    ensures And(Or(m, a), b) == And(m, b)
  {
  }

  lemma OrSame(m: Word, a: Word)
    ensures And(Or(m, a), a) == a
  {
  }

  lemma Basics(a: Word, b: Word)
    ensures And(a, b) == And(b, a) && And(a, a) == a && Or(a, 0) == a && Or(0, a) == a && And(0, a) == 0
            && And(ALL, a) == a && And(a, 0) == 0
  {
  }

  lemma NextEight(l: Word)
    ensures var s := Next(Next(Next(Next(Next(Next(Next(l))))))); s == Seven(l) && Next(s) == Eight(l)
  {
  }

  // ------------------------------------------------------------------ single bits

  lemma {:induction false} LowMask(i: nat)
    ensures Mask(Low(i)) && Bit(i) == Succ(Low(i)) && Low(i + 1) == Or(Low(i), Bit(i))
  {
    hide And, Or, Next, Succ, Double, Mask;
    if i == 0 {
      MaskZero();
      Basics(1, 0);
    } else {
      LowMask(i - 1);
      MaskNext(Low(i - 1));
    }
    MaskNext(Low(i));
  }

  lemma {:induction false} LowMono(i: nat, j: nat)
    requires i <= j
    ensures Sub(Low(i), Low(j))
    decreases j
  {
    hide *;
    if i < j {
      LowMono(i, j - 1);
      LowMask(j - 1);
      SubOr(Low(i), Low(j - 1), Bit(j - 1));
    } else {
      SubOr(Low(i), 0, 0);
    }
  }

  lemma LowUnroll(i: nat)
    ensures Low(i + 7) == Next(Next(Next(Next(Next(Next(Next(Low(i)))))))) && Low(i + 8) == Next(Low(i + 7))
  {
    hide Next;
    assert Low(i + 2) == Next(Low(i + 1));
    assert Low(i + 4) == Next(Low(i + 3));
    assert Low(i + 6) == Next(Low(i + 5));
  }

  lemma LowEight(i: nat)
    ensures Low(i + 8) == Eight(Low(i)) && Low(i + 7) == Seven(Low(i))
  {
    hide Low, Next, Eight, Seven;
    LowUnroll(i);
    NextEight(Low(i));
  }

  lemma LowValues()
    ensures Low(8) == 0xFF && Low(16) == 0xFFFF && Low(32) == 0xFFFF_FFFF && Low(63) == 0x7FFF_FFFF_FFFF_FFFF
            && Low(64) == ALL
  {
    assert Low(0) == 0;
    hide Low, Next;
    LowEight(0);
    LowEight(8);
    LowEight(16);
    LowEight(24);
    LowEight(32);
    LowEight(40);
    LowEight(48);
    LowEight(56);
  }

  lemma BitNonZero(i: nat)
    requires i < 64
    ensures Bit(i) != 0
  {
    hide Low, Bit, Succ, And, Sub;
    LowMask(i);
    LowMono(i, 63);
    LowValues();
    NotFull(Low(i));
  }

  lemma BitBelow(i: nat, j: nat)
    requires i < j
    ensures Sub(Bit(i), Low(j))
  {
    hide *;
    LowMask(i);
    LowMono(i + 1, j);
    SubPart(Low(i), Bit(i), Low(j));
  }

  lemma BitsApart(i: nat, j: nat)
    requires i != j
    ensures And(Bit(i), Bit(j)) == 0
  {
    hide *;
    var a, b := if i < j then i else j, if i < j then j else i;
    BitBelow(a, b);
    LowMask(b);
    Above(Bit(a), Low(b));
    Basics(Bit(i), Bit(j));
  }

  // ------------------------------------------------------------------ sets of bits

  /** Setting a bit adds it and nothing else. */
  lemma SetBit(w: Word, i: nat, j: nat)
    requires i < 64
    ensures Test(Or(w, Bit(i)), j) <==> Test(w, j) || i == j
  {
    hide And, Or, Bit;
    if i == j {
      BitNonZero(i);
      OrSame(w, Bit(i));
    } else {
      BitsApart(i, j);
      OrApart(w, Bit(i), Bit(j));
    }
  }

  lemma NothingSet(j: nat)
    ensures !Test(0, j)
  {
    hide And, Bit;
    Basics(Bit(j), 0);
  }

  /** The low bits of a word, one at a time. */
  lemma NextBit(w: Word, i: nat)
    ensures And(w, Low(i + 1)) == if Test(w, i) then Or(And(w, Low(i)), Bit(i)) else And(w, Low(i))
  {
    hide And, Or, Low, Bit, Succ, Mask;
    LowMask(i);
    Single(Low(i), w);
    Basics(And(w, Low(i)), 0);
  }

  /** Setting a bit below n leaves a word without bits from n on. */
  lemma BelowKept(w: Word, i: nat, n: nat)
    requires Sub(w, Low(n)) && i < n
    ensures Sub(Or(w, Bit(i)), Low(n))
  {
    hide *;
    BitBelow(i, n);
    SubJoin(w, Bit(i), Low(n));
  }
}
