/** The 64-bit products, from 16-bit halves. */
module Multiplication {
  import opened Words

  const HALF := 0x1_0000
  const DOUBLE := WORD_SIZE * WORD_SIZE

  type SWord = w: int | -0x8000_0000 <= w < 0x8000_0000

  /** The word that holds a signed number. */
  function ToWord(v: int): Word {
    v % WORD_SIZE
  }

  /** The number two words hold between them, in two's complement. */
  function Signed64(hi: Word, lo: Word): int {
    hi * WORD_SIZE + lo - if hi < 0x8000_0000 then 0 else DOUBLE
  }

  /** What is added up in the middle: the carry out of the low product, and the two
      mixed products. */
  function Middle(m1: Word, m2: Word): int {
    (m1 % HALF) * (m2 % HALF) / HALF + ((m1 / HALF) * (m2 % HALF) + (m1 % HALF) * (m2 / HALF))
  }

  lemma HalfProduct(p: nat, q: nat)
    requires p < HALF && q < HALF
    ensures 0 <= p * q <= (HALF - 1) * (HALF - 1)
  {
    assert p * q <= p * (HALF - 1) by { Scale(q, HALF - 1, p); }
    assert p * (HALF - 1) <= (HALF - 1) * (HALF - 1);
  }

  lemma Scale(x: int, y: int, k: nat)
    requires x <= y
    ensures k * x <= k * y && x * k <= y * k
  {
  }

  lemma MiddleIsSmall(m1: Word, m2: Word)
    ensures Middle(m1, m2) < 2 * WORD_SIZE
  {
    HalfProduct(m1 % HALF, m2 % HALF);
    HalfProduct(m1 / HALF, m2 % HALF);
    HalfProduct(m1 % HALF, m2 / HALF);
  }

  /** One if the middle sum does not fit its word. */
  function Carry(m1: Word, m2: Word): (c: nat)
    ensures c == 1 <==> Middle(m1, m2) >= WORD_SIZE
    ensures c <= 1
  {
    if Middle(m1, m2) >= WORD_SIZE then 1 else 0
  }

  lemma Distributes(a: int, b: int, c: int, d: int)
    ensures (HALF * a + b) * (HALF * c + d) == WORD_SIZE * (a * c) + HALF * (a * d + b * c) + b * d
  {
    calc {
      (HALF * a + b) * (HALF * c + d);
      (HALF * a) * (HALF * c) + (HALF * a) * d + b * (HALF * c) + b * d;
      WORD_SIZE * (a * c) + HALF * (a * d) + HALF * (b * c) + b * d;
    }
  }

  /** The middle word, and the two words of the result, from the three sums of
      products. */
  function MiddleWord(mid: nat, bd: nat): Word {
    (bd / HALF % HALF + mid % WORD_SIZE) % WORD_SIZE
  }

  function LowWord(mid: nat, bd: nat): nat {
    bd % HALF + MiddleWord(mid, bd) % HALF * HALF
  }

  function HighWord(ac: nat, mid: nat, bd: nat): Word {
    (MiddleWord(mid, bd) / HALF % HALF + ac) % WORD_SIZE
  }

  /** For all words, the result is the product short of the carry that was lost. */
  method UnsMult(m1: Word, m2: Word) returns (hi: Word, lo: Word)
    ensures hi * WORD_SIZE + lo + Carry(m1, m2) * WORD_SIZE * HALF == m1 * m2
  {
    var a, b := m1 / HALF, m1 % HALF;
    var c, d := m2 / HALF, m2 % HALF;
    ghost var ac, mid, bd := Assembles(m1, m2, a, b, c, d);
    hide Carry;
    lo := b * d;
    var x: Word := (a * d + b * c) % WORD_SIZE;
    var y: Word := (lo / HALF % HALF + x) % WORD_SIZE;
    assert y == MiddleWord(mid, bd);
    lo := lo % HALF + y % HALF * HALF;
    hi := (y / HALF % HALF + a * c) % WORD_SIZE;
    assert lo == LowWord(mid, bd) && hi == HighWord(ac, mid, bd);
  }

  lemma Assembles(m1: Word, m2: Word, a: nat, b: nat, c: nat, d: nat) returns (ac: nat, mid: nat, bd: nat)
    requires a == m1 / HALF && b == m1 % HALF && c == m2 / HALF && d == m2 % HALF
    ensures ac == a * c && mid == a * d + b * c && bd == b * d < WORD_SIZE && LowWord(mid, bd) < WORD_SIZE
    ensures HighWord(ac, mid, bd) * WORD_SIZE + LowWord(mid, bd) + Carry(m1, m2) * WORD_SIZE * HALF == m1 * m2
  {
    HalfProduct(b, d);
    HalfProduct(a, c);
    HalfProduct(a, d);
    HalfProduct(b, c);
    ac, mid, bd := a * c, a * d + b * c, b * d;
    MiddleIsSmall(m1, m2);
    assert Middle(m1, m2) == bd / HALF + mid;
    hide Middle, Carry, LowWord, HighWord;
    Products(m1, m2, a, b, c, d);
    AssemblesFrom(ac, mid, bd, Carry(m1, m2));
  }

  lemma Products(m1: Word, m2: Word, a: nat, b: nat, c: nat, d: nat)
    requires a == m1 / HALF && b == m1 % HALF && c == m2 / HALF && d == m2 % HALF
    ensures m1 * m2 == WORD_SIZE * (a * c) + HALF * (a * d + b * c) + b * d
  {
    Distributes(a, b, c, d);
    assert m1 == HALF * a + b && m2 == HALF * c + d;
  }

  /** The same with the products as they come. */
  lemma AssemblesFrom(ac: nat, mid: nat, bd: nat, carry: nat)
    requires ac <= (HALF - 1) * (HALF - 1) && bd <= (HALF - 1) * (HALF - 1)
    requires bd / HALF + mid < 2 * WORD_SIZE && carry == if bd / HALF + mid >= WORD_SIZE then 1 else 0
    ensures LowWord(mid, bd) < WORD_SIZE
    ensures HighWord(ac, mid, bd) * WORD_SIZE + LowWord(mid, bd) + carry * WORD_SIZE * HALF ==
            WORD_SIZE * ac + HALF * mid + bd
  {
    assert bd == HALF * (bd / HALF) + bd % HALF && bd / HALF < HALF;
    MiddleWraps(bd / HALF, mid, carry);
    var y := MiddleWord(mid, bd);
    assert y + carry * WORD_SIZE == bd / HALF + mid;
    hide MiddleWord;
    assert y == HALF * (y / HALF) + y % HALF && y / HALF < HALF;
    assert HighWord(ac, mid, bd) == y / HALF + ac;
  }

  lemma MiddleWraps(l: nat, mid: nat, carry: nat)
    requires l < HALF && l + mid < 2 * WORD_SIZE && carry == if l + mid >= WORD_SIZE then 1 else 0
    ensures (l % HALF + mid % WORD_SIZE) % WORD_SIZE + carry * WORD_SIZE == l + mid
  {
    var q := (l + mid) / WORD_SIZE;
    assert (l % HALF + mid % WORD_SIZE) % WORD_SIZE == (l + mid) % WORD_SIZE;
  }

  /** The product is exact exactly when the middle sum fits a word. */
  lemma ExactIff(m1: Word, m2: Word, hi: Word, lo: Word)
    requires hi * WORD_SIZE + lo + Carry(m1, m2) * WORD_SIZE * HALF == m1 * m2
    ensures hi * WORD_SIZE + lo == m1 * m2 <==> Middle(m1, m2) < WORD_SIZE
  {
    hide Middle;
  }

  /** It fits when neither operand is above 2^31. */
  lemma MagnitudesFit(m1: Word, m2: Word)
    requires m1 <= 0x8000_0000 && m2 <= 0x8000_0000
    ensures Middle(m1, m2) < WORD_SIZE
  {
    var a, b, c, d := m1 / HALF, m1 % HALF, m2 / HALF, m2 % HALF;
    HalfProduct(b, d);
    Scale(a, 0x8000, d);
    Scale(c, 0x8000, b);
    assert a * d <= 0x8000 * d && b * c <= 0x8000 * b;
  }

  /** Adds words; the flag is the carry out. */
  method UnsAdd(a1: Word, a2: Word) returns (dest: Word, overflow: bool)
    ensures dest + (if overflow then WORD_SIZE else 0) == a1 + a2
  {
    dest := (a1 + a2) % WORD_SIZE;
    overflow := WORD_SIZE - 1 - a1 < a2;
  }

  function Magnitude(m: SWord): Word {
    if m < 0 then -(m as int) else m
  }

  /** The two's complement of a double word: complement both words, add one below
      and carry it up. */
  method Negate(hi: Word, lo: Word) returns (hip: Word, lop: Word)
    ensures (hi == lo == 0 && hip == lop == 0) || hip * WORD_SIZE + lop == DOUBLE - (hi * WORD_SIZE + lo)
  {
    hip := WORD_SIZE - 1 - hi;
    lop := WORD_SIZE - 1 - lo;
    var carry;
    lop, carry := UnsAdd(lop, 1);
    if carry { hip := (hip + 1) % WORD_SIZE; }
  }

  /** The product of two magnitudes under a sign. */
  method Signed(u1: Word, u2: Word, negResult: bool, ghost p: nat) returns (hi: Word, lo: Word)
    requires u1 <= 0x8000_0000 && u2 <= 0x8000_0000 && p == u1 * u2
    ensures Signed64(hi, lo) == if negResult then -(p as int) else p
  {
    hide Middle, Carry, Signed64;
    MagnitudesFit(u1, u2);
    Scale(u2, 0x8000_0000, u1);
    hi, lo := UnsMult(u1, u2);
    assert hi * WORD_SIZE + lo == p;
    if negResult { hi, lo := Negate(hi, lo); }
    SignedIs(hi, lo, p);
  }

  /** The exact signed product, for every pair of words. */
  method SignMult(m1: SWord, m2: SWord) returns (hi: Word, lo: Word)
    ensures Signed64(hi, lo) == m1 * m2
  {
    var negResult := false;
    var u1, u2 := ToWord(m1), ToWord(m2);
    if m1 < 0 {
      negResult := !negResult;
      u1 := ToWord(-(m1 as int));
    }
    if m2 < 0 {
      negResult := !negResult;
      u2 := ToWord(-(m2 as int));
    }
    assert u1 == Magnitude(m1) && u2 == Magnitude(m2);
    hide Magnitude, ToWord, Signed64;
    ghost var p := SignedProduct(m1, m2, u1, u2, negResult);
    hi, lo := Signed(u1, u2, negResult, p);
  }

  lemma SignedIs(hi: Word, lo: Word, p: nat)
    requires p <= 0x4000_0000_0000_0000
    ensures hi * WORD_SIZE + lo == p ==> Signed64(hi, lo) == p
    ensures hi * WORD_SIZE + lo == DOUBLE - p || (hi == lo == p == 0) ==> Signed64(hi, lo) == -(p as int)
  {
  }

  lemma SignedProduct(m1: SWord, m2: SWord, u1: Word, u2: Word, negative: bool) returns (p: nat)
    requires u1 == Magnitude(m1) && u2 == Magnitude(m2) && negative == ((m1 < 0) != (m2 < 0))
    ensures p == u1 * u2 && m1 * m2 == if negative then -(p as int) else p
  {
    Scale(0, u2, u1);
    p := u1 * u2;
    if m1 < 0 { assert m1 * m2 == -(u1 * m2); }
    if m2 < 0 { assert u1 * m2 == -(u1 * u2 as int); }
  }

  /** The mixed product takes its second operand as unsigned too: it is right
      exactly when that is not negative and nothing is lost, or the first is 0. */
  method UnsSignMult(m1: Word, m2: SWord) returns (hi: Word, lo: Word)
    ensures Signed64(hi, lo) == m1 * m2 <==> (m2 >= 0 && Middle(m1, ToWord(m2)) < WORD_SIZE) || m1 == 0
  {
    hi, lo := UnsMult(m1, ToWord(m2));
    MixedProductIff(m1, m2, hi, lo);
  }

  lemma MixedProductIff(m1: Word, m2: SWord, hi: Word, lo: Word)
    requires var u := ToWord(m2); hi * WORD_SIZE + lo + Carry(m1, u) * WORD_SIZE * HALF == m1 * u
    ensures Signed64(hi, lo) == m1 * m2 <==> (m2 >= 0 && Middle(m1, ToWord(m2)) < WORD_SIZE) || m1 == 0
  {
    var u := ToWord(m2);
    if m1 == HALF { assert Middle(m1, u) == u % HALF; }
    hide Middle, ToWord;
    var p, v := m1 * u, hi * WORD_SIZE + lo;
    assert p == v + Carry(m1, u) * WORD_SIZE * HALF;
    assert u == (if m2 >= 0 then m2 else m2 + WORD_SIZE) by { WordIs(m2); }
    if m2 >= 0 {
      Scale(m1, WORD_SIZE, m2);
      assert 0 <= p < WORD_SIZE * 0x8000_0000;
    } else {
      assert p == m1 * m2 + m1 * WORD_SIZE;
    }
  }

  lemma WordIs(m: SWord)
    ensures ToWord(m) == if m >= 0 then m else m + WORD_SIZE
  {
  }
}
