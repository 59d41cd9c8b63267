/** Integer bit operations as the sources use them.

    Shr is the arithmetic shift of a two's complement integer (Python int, torch.int32), And masks a
    possibly negative integer with a non-negative mask, Or and Shl combine non-negative integers. */
module BitOps {
  import opened Arith

  function Pow2(n: nat): (p: nat)
    ensures p > 0
  {
    if n == 0 then 1 else 2 * Pow2(n - 1)
  }

  function Shr(x: int, n: nat): int
    decreases n
  {
    if n == 0 then x else Shr(x / 2, n - 1)
  }

  function Shl(x: nat, n: nat): nat
    decreases n
  {
    if n == 0 then x else 2 * Shl(x, n - 1)
  }

  function And(x: int, mask: nat): nat
    decreases mask
  {
    if mask == 0 then 0 else (if mask % 2 == 1 then x % 2 else 0) + 2 * And(x / 2, mask / 2)
  }

  function Or(x: nat, y: nat): nat
    decreases x + y
  {
    if x == 0 && y == 0 then 0
    else (if x % 2 == 1 || y % 2 == 1 then 1 else 0) + 2 * Or(x / 2, y / 2)
  }

  /** The i-th 4-bit lane of a word, as every unpacking in the repository writes it. */
  function Nibble(x: int, i: nat): nat {
    And(Shr(x, 4 * i), 15)
  }

  lemma Pow2Add(m: nat, n: nat)
    ensures Pow2(m + n) == Pow2(m) * Pow2(n)
  {
    if m > 0 {
      Pow2Add(m - 1, n);
    }
  }

  lemma {:induction false} ShrDivides(x: int, n: nat)
    ensures Shr(x, n) == x / Pow2(n)
    decreases n
  {
    if n > 0 {
      ShrDivides(x / 2, n - 1);
      HalvedDivMod(x, Pow2(n - 1));
    }
  }

  lemma {:induction false} ShlMultiplies(x: nat, n: nat)
    ensures Shl(x, n) == x * Pow2(n)
    decreases n
  {
    if n > 0 {
      ShlMultiplies(x, n - 1);
      assert x * (2 * Pow2(n - 1)) == 2 * (x * Pow2(n - 1));
    }
  }

  lemma AndLowBit(x: int, p: nat)
    requires p > 0
    ensures And(x, 2 * p - 1) == x % 2 + 2 * And(x / 2, p - 1)
  {
    assert (2 * p - 1) % 2 == 1 && (2 * p - 1) / 2 == p - 1;
  }

  lemma AndNothing(x: int)
    ensures And(x, 0) == 0
  {
  }

  /** Masking with n low ones is the remainder, also for negative words. */
  lemma {:induction false} AndLowBits(x: int, n: nat)
    ensures And(x, Pow2(n) - 1) == x % Pow2(n)
    decreases n
  {
    hide And;
    AndNothing(x);
    if n > 0 {
      AndLowBits(x / 2, n - 1);
      AndLowBit(x, Pow2(n - 1));
      HalvedDivMod(x, Pow2(n - 1));
    }
  }

  lemma And15(x: int)
    ensures And(x, 15) == x % 16
  {
    assert Pow2(4) == 16;
    AndLowBits(x, 4);
  }

  lemma OrZero(y: nat)
    ensures Or(0, y) == y
  {
    if y > 0 {
      OrZero(y / 2);
    }
  }

  /** ORing a value above the bits already used is an addition: no bit is lost or carried. */
  lemma {:induction false} OrDisjoint(x: nat, y: nat, n: nat)
    requires x < Pow2(n)
    ensures Or(x, Shl(y, n)) == x + Shl(y, n)
  {
    if n == 0 {
      OrZero(y);
    } else {
      OrDisjoint(x / 2, y, n - 1);
    }
  }

  // ------------------------------------------------- lanes packed in a word

  predicate Nibbles(v: seq<int>) {
    forall i :: 0 <= i < |v| ==> 0 <= v[i] <= 15
  }

  /** word |= v[i] << (4 * i), for i from 0 up. */
  function PackNibbles(v: seq<int>): nat
    requires Nibbles(v)
  {
    if |v| == 0 then 0
    else Or(PackNibbles(v[..|v| - 1]), Shl(v[|v| - 1], 4 * (|v| - 1)))
  }

  lemma Pow2Lane(i: nat)
    ensures Pow2(4 * (i + 1)) == 16 * Pow2(4 * i)
  {
    Pow16();
    Pow2Add(4, 4 * i);
  }

  lemma FitsLane(rest: nat, v: nat, p: nat)
    requires rest < p && v <= 15
    ensures rest + v * p < 16 * p
  {
    assert v * p <= 15 * p;
  }

  lemma {:induction false} PackNibblesSum(v: seq<int>)
    requires Nibbles(v)
    ensures PackNibbles(v) < Pow2(4 * |v|)
    ensures |v| > 0 ==> PackNibbles(v) == PackNibbles(v[..|v| - 1]) + v[|v| - 1] * Pow2(4 * (|v| - 1))
  {
    if |v| > 0 {
      var m := |v| - 1;
      PackNibblesSum(v[..m]);
      OrDisjoint(PackNibbles(v[..m]), v[m], 4 * m);
      ShlMultiplies(v[m], 4 * m);
      Pow2Lane(m);
      FitsLane(PackNibbles(v[..m]), v[m], Pow2(4 * m));
    }
  }

  /** A multiple of 16 * p added to a number changes no bit in its lane at p. */
  lemma LaneUntouched(x: int, p: int, c: int)
    requires p > 0
    ensures (x + p * (16 * c)) / p % 16 == x / p % 16
  {
    var q, r := x / p, x % p;
    assert p * (q + 16 * c) == p * q + p * (16 * c);
    DivModUnique(x + p * (16 * c), p, q + 16 * c, r);
    DivModUnique(q + 16 * c, 16, q / 16 + c, q % 16);
  }

  lemma Pow2Above(i: nat, m: nat) returns (c: int)
    requires i < m
    ensures c > 0 && Pow2(4 * m) == Pow2(4 * i) * (16 * c)
  {
    c := Pow2(4 * (m - i - 1));
    Pow2Lane(m - i - 1);
    Pow2Add(4 * i, 4 * (m - i));
  }

  lemma TopLane(rest: nat, top: nat, p: int)
    requires rest < p && top <= 15
    ensures (rest + top * p) / p % 16 == top
  {
    DivModUnique(rest + top * p, p, top, rest);
  }

  lemma LowerLane(rest: int, top: int, i: nat, m: nat)
    requires i < m
    ensures (rest + top * Pow2(4 * m)) / Pow2(4 * i) % 16 == rest / Pow2(4 * i) % 16
  {
    var p := Pow2(4 * i);
    var c := Pow2Above(i, m);
    assert top * (p * (16 * c)) == p * (16 * (top * c));
    LaneUntouched(rest, p, top * c);
  }

  /** Every lane ORed into a word is read back unchanged by shift and mask. */
  lemma {:induction false} NibbleOfPack(v: seq<int>, i: nat)
    requires Nibbles(v) && i < |v|
    ensures Nibble(PackNibbles(v), i) == v[i]
  {
    var m := |v| - 1;
    var w, rest, top := PackNibbles(v), PackNibbles(v[..m]), v[m];
    PackNibblesSum(v);
    PackNibblesSum(v[..m]);
    NibbleIs(w, i);
    if i == m {
      TopLane(rest, top, Pow2(4 * m));
    } else {
      NibbleOfPack(v[..m], i);
      NibbleIs(rest, i);
      LowerLane(rest, top, i, m);
    }
  }

  /** Reinterpreting a 32-bit word as a signed int32 keeps all eight lanes. */
  function Signed32(w: nat): int
    requires w < Pow2(32)
  {
    if w < Pow2(31) then w else w - Pow2(32)
  }

  lemma {:induction false} NibbleSigned(w: nat, i: nat)
    requires w < Pow2(32) && i < 8
    ensures Nibble(Signed32(w), i) == Nibble(w, i)
  {
    if w >= Pow2(31) {
      var x := Signed32(w);
      NibbleIs(w, i);
      NibbleIs(x, i);
      LowerLane(w, -1, i, 8);
      assert x == w + -1 * Pow2(32);
    }
  }

  lemma NibbleIs(x: int, i: nat)
    ensures Nibble(x, i) == (x / Pow2(4 * i)) % 16
  {
    And15(Shr(x, 4 * i));
    ShrDivides(x, 4 * i);
  }

  lemma NibbleRange(x: int, i: nat)
    ensures 0 <= Nibble(x, i) <= 15
  {
    NibbleIs(x, i);
  }

  lemma ByteNibbles(b: nat)
    ensures Nibble(b, 0) == b % 16 && Nibble(b, 1) == b / 16 % 16
  {
    NibbleIs(b, 0);
    NibbleIs(b, 1);
    assert Pow2(0) == 1;
    Pow16();
  }

  lemma NibbleLanes(b: int)
    ensures Nibble(b, 0) == And(b, 15) && Nibble(b, 1) == And(Shr(b, 4), 15)
  {
  }

  lemma Pow16()
    ensures Pow2(4) == 16
  {
    assert Pow2(2) == 4;
  }

  /** Two codes in one byte: low | (high << 4), read with the shift (k % 2) * 4. */
  function PackPair(low: nat, high: nat): nat {
    Or(low, Shl(high, 4))
  }

  lemma PackPairIs(low: nat, high: nat)
    requires low <= 15
    ensures PackPair(low, high) == low + 16 * high
  {
    Pow16();
    OrDisjoint(low, high, 4);
    ShlMultiplies(high, 4);
  }

  lemma SplitByte(b: nat, low: nat, high: nat)
    requires low <= 15 && high <= 15 && b == low + 16 * high
    ensures b <= 255 && b % 16 == low && b / 16 % 16 == high
  {
  }

  lemma PackPairNibbles(low: nat, high: nat)
    requires low <= 15 && high <= 15
    ensures PackPair(low, high) <= 255
    ensures Nibble(PackPair(low, high), 0) == low
    ensures Nibble(PackPair(low, high), 1) == high
  {
    var b := PackPair(low, high);
    assert b == low + 16 * high by { PackPairIs(low, high); }
    SplitByte(b, low, high);
    ByteNibbles(b);
  }

  /** A byte is its two nibbles. */
  lemma ByteIsNibbles(b: nat)
    requires b <= 255
    ensures b == Nibble(b, 0) + 16 * Nibble(b, 1)
  {
    ByteNibbles(b);
  }
}
