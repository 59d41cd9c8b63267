/** The pure-Python references of the int4 layout: nested loops that OR nibbles into words or assign them to
    preallocated lists, with their input checks. */
module Int4Reference {
  import opened Prelude
  import opened Arith
  import opened BitOps
  import opened AwqLayout

  datatype RepackError =
    | EmptyE | NNotDivisibleBy8 | EmptyK | RaggedN | RaggedK | ByteRange

  predicate ByteRow(row: seq<int>, halfK: nat) {
    |row| == halfK && forall h :: 0 <= h < halfK ==> 0 <= row[h] <= 255
  }

  predicate ByteRows(rows: seq<seq<int>>, N: nat, halfK: nat) {
    |rows| == N && forall n :: 0 <= n < N ==> ByteRow(rows[n], halfK)
  }

  /** What repack_int4_reference accepts: a non-empty box of bytes with N a positive multiple of 8. */
  predicate Repackable(w: seq<seq<seq<int>>>) {
    && |w| > 0 && |w[0]| > 0 && |w[0]| % 8 == 0 && |w[0][0]| > 0
    && forall e :: 0 <= e < |w| ==> ByteRows(w[e], |w[0]|, |w[0][0]|)
  }

  /** The first requirement an expert's rows violate, row by row: the length of a row before its bytes. */
  predicate RowsViolate(rows: seq<seq<int>>, N: nat, halfK: nat, error: RepackError) {
    if |rows| != N then error == RaggedN
    else exists n :: 0 <= n < N && FirstBadRow(rows, halfK, n) && error == if |rows[n]| != halfK then RaggedK else ByteRange
  }

  predicate FirstBadRow(rows: seq<seq<int>>, halfK: nat, n: nat) {
    n < |rows| && !ByteRow(rows[n], halfK) && forall i :: 0 <= i < n ==> ByteRow(rows[i], halfK)
  }

  /** The first requirement of repack_int4_reference, in its order, that w violates. */
  predicate Violates(w: seq<seq<seq<int>>>, error: RepackError) {
    if |w| == 0 then error == EmptyE
    else if |w[0]| == 0 || |w[0]| % 8 != 0 then error == NNotDivisibleBy8
    else if |w[0][0]| == 0 then error == EmptyK
    else exists e :: 0 <= e < |w| && FirstBadExpert(w, e) && RowsViolate(w[e], |w[0]|, |w[0][0]|, error)
  }

  predicate FirstBadExpert(w: seq<seq<seq<int>>>, e: nat)
    requires |w| > 0 && |w[0]| > 0
  {
    && e < |w| && !ByteRows(w[e], |w[0]|, |w[0][0]|)
    && forall a :: 0 <= a < e ==> ByteRows(w[a], |w[0]|, |w[0][0]|)
  }

  /** There is only one first violation. */
  lemma ViolationUnique(w: seq<seq<seq<int>>>, x: RepackError, y: RepackError)
    requires Violates(w, x) && Violates(w, y)
    ensures x == y && !Repackable(w)
  {
    hide ByteRow;
  }

  /** The code of column k in a row of bytes. */
  function RowCode(row: seq<int>, k: nat): nat
    requires k / 2 < |row|
  {
    Nibble(row[k / 2], k % 2)
  }

  /** The first count codes of column k in the eight rows that share word c. */
  function Lanes(rows: seq<seq<int>>, halfK: nat, k: nat, c: nat, count: nat): (lanes: seq<int>)
    requires k < 2 * halfK && 8 * c + count <= |rows|
    requires forall n :: 8 * c <= n < 8 * c + count ==> |rows[n]| == halfK
    ensures |lanes| == count && Nibbles(lanes)
    ensures forall j :: 0 <= j < count ==> lanes[j] == RowCode(rows[8 * c + j], k)
  {
    if count == 0 then []
    else
      NibbleRange(rows[8 * c + count - 1][k / 2], k % 2);
      Lanes(rows, halfK, k, c, count - 1) + [RowCode(rows[8 * c + count - 1], k)]
  }

  function Word(rows: seq<seq<int>>, halfK: nat, k: nat, c: nat): nat
    requires k < 2 * halfK && 8 * c + 8 <= |rows|
    requires forall n :: 8 * c <= n < 8 * c + 8 ==> |rows[n]| == halfK
  {
    PackNibbles(Lanes(rows, halfK, k, c, 8))
  }

  // -------------------------------------------------------------- repacking

  /** The innermost loops: one row of bytes into lane n % 8 of every word of column n / 8. */
  method RepackRow(row: seq<int>, e: nat, n: nat, out: array3<nat>) returns (ok: bool)
    requires e < out.Length0 && out.Length1 == 2 * |row| && n / 8 < out.Length2
    modifies out
    ensures ok <==> ByteRow(row, |row|)
    ensures ok ==> forall k :: 0 <= k < out.Length1 ==>
              out[e, k, n / 8] == Or(old(out[e, k, n / 8]), Shl(RowCode(row, k), 4 * (n % 8)))
    ensures forall a, k, c :: 0 <= a < out.Length0 && 0 <= k < out.Length1 && 0 <= c < out.Length2 && (a != e || c != n / 8) ==>
              out[a, k, c] == old(out[a, k, c])
  {
    hide Or, Shl, Nibble;
    for kh := 0 to |row|
      invariant forall h :: 0 <= h < kh ==> 0 <= row[h] <= 255
      invariant forall k :: 0 <= k < 2 * kh ==>
                  out[e, k, n / 8] == Or(old(out[e, k, n / 8]), Shl(RowCode(row, k), 4 * (n % 8)))
      invariant forall k :: 2 * kh <= k < out.Length1 ==> out[e, k, n / 8] == old(out[e, k, n / 8])
      invariant forall a, k, c :: 0 <= a < out.Length0 && 0 <= k < out.Length1 && 0 <= c < out.Length2 && (a != e || c != n / 8) ==>
                  out[a, k, c] == old(out[a, k, c])
    {
      var b := row[kh];
      if !(0 <= b <= 255) { return false; }
      NibbleLanes(b);
      var k := 2 * kh;
      out[e, k, n / 8] := Or(out[e, k, n / 8], Shl(And(b, 15), 4 * (n % 8)));
      k := 2 * kh + 1;
      out[e, k, n / 8] := Or(out[e, k, n / 8], Shl(And(Shr(b, 4), 15), 4 * (n % 8)));
    }
    ok := true;
  }

  /** How many lanes of word c the first n rows fill. */
  function Filled(n: int, c: int): int {
    if n <= 8 * c then 0 else if n >= 8 * c + 8 then 8 else n - 8 * c
  }

  /** The word at (k, c) after the first n rows. */
  predicate WordAfter(rows: seq<seq<int>>, halfK: nat, n: int, k: int, c: int, word: nat) {
    && 0 <= k < 2 * halfK && 0 <= c && 0 <= n <= |rows| && 8 * c + Filled(n, c) <= |rows|
    && (forall i :: 0 <= i < n ==> |rows[i]| == halfK)
    && word == PackNibbles(Lanes(rows, halfK, k, c, Filled(n, c)))
  }

  lemma LaneAdded(rows: seq<seq<int>>, halfK: nat, k: nat, c: nat, m: nat)
    requires k < 2 * halfK && 8 * c + m < |rows|
    requires forall n :: 8 * c <= n <= 8 * c + m ==> |rows[n]| == halfK
    ensures PackNibbles(Lanes(rows, halfK, k, c, m + 1))
         == Or(PackNibbles(Lanes(rows, halfK, k, c, m)), Shl(RowCode(rows[8 * c + m], k), 4 * m))
  {
    hide Or, Shl, Nibble;
    var lanes := Lanes(rows, halfK, k, c, m + 1);
    assert lanes[..m] == Lanes(rows, halfK, k, c, m);
  }

  lemma WordStep(rows: seq<seq<int>>, halfK: nat, n: nat, k: int, c: int, before: nat, after: nat)
    requires n < |rows| && |rows[n]| == halfK && WordAfter(rows, halfK, n, k, c, before)
    requires c != n / 8 ==> after == before
    requires c == n / 8 ==> after == Or(before, Shl(RowCode(rows[n], k), 4 * (n % 8)))
    requires |rows| % 8 == 0
    ensures WordAfter(rows, halfK, n + 1, k, c, after)
  {
    hide Or, Shl, RowCode, Lanes, PackNibbles;
    if c == n / 8 {
      assert n == 8 * c + n % 8 && Filled(n, c) == n % 8 && Filled(n + 1, c) == n % 8 + 1;
      LaneAdded(rows, halfK, k, c, n % 8);
    } else {
      assert Filled(n + 1, c) == Filled(n, c);
    }
  }

  /** One expert: its row count, then every row's length and bytes, filling the expert's words. */
  method RepackExpert(rows: seq<seq<int>>, e: nat, N: nat, halfK: nat, out: array3<nat>)
    returns (error: Option<RepackError>)
    requires e < out.Length0 && out.Length1 == 2 * halfK && out.Length2 == N / 8 && N % 8 == 0
    requires forall k, c :: 0 <= k < out.Length1 && 0 <= c < out.Length2 ==> out[e, k, c] == 0
    modifies out
    ensures error.None? <==> ByteRows(rows, N, halfK)
    ensures error.Some? ==> RowsViolate(rows, N, halfK, error.value)
    ensures error.None? ==> forall k, c :: 0 <= k < out.Length1 && 0 <= c < out.Length2 ==>
              out[e, k, c] == Word(rows, halfK, k, c)
    ensures forall a, k, c :: 0 <= a < out.Length0 && 0 <= k < out.Length1 && 0 <= c < out.Length2 && a != e ==>
              out[a, k, c] == old(out[a, k, c])
  {
    hide Or, Shl, Nibble, Lanes, RowCode;
    if |rows| != N { return Some(RaggedN); }
    NothingFilled(rows, halfK);
    for n := 0 to N
      invariant forall i :: 0 <= i < n ==> ByteRow(rows[i], halfK)
      invariant forall k, c :: 0 <= k < out.Length1 && 0 <= c < out.Length2 ==>
                  WordAfter(rows, halfK, n, k, c, out[e, k, c])
      invariant forall a, k, c :: 0 <= a < out.Length0 && 0 <= k < out.Length1 && 0 <= c < out.Length2 && a != e ==>
                  out[a, k, c] == old(out[a, k, c])
    {
      if |rows[n]| != halfK {
        assert FirstBadRow(rows, halfK, n);
        return Some(RaggedK);
      }
      label before:
      var ok := RepackRow(rows[n], e, n, out);
      if !ok {
        assert FirstBadRow(rows, halfK, n);
        return Some(ByteRange);
      }
      forall k, c | 0 <= k < out.Length1 && 0 <= c < out.Length2
        ensures WordAfter(rows, halfK, n + 1, k, c, out[e, k, c])
      {
        WordStep(rows, halfK, n, k, c, old@before(out[e, k, c]), out[e, k, c]);
      }
    }
    error := None;
  }

  lemma NothingFilled(rows: seq<seq<int>>, halfK: nat)
    requires |rows| % 8 == 0
    ensures forall k, c :: 0 <= k < 2 * halfK && 0 <= c < |rows| / 8 ==> WordAfter(rows, halfK, 0, k, c, 0)
  {
  }

  /** repack_int4_reference: E, N, K / 2 bytes to E, K, N / 8 words, or the first violated requirement. */
  method Repack(w: seq<seq<seq<int>>>) returns (error: Option<RepackError>, out: array3<nat>)
    ensures error.None? <==> Repackable(w)
    ensures error.Some? ==> Violates(w, error.value)
    ensures error.None? ==>
              && out.Length0 == |w| && out.Length1 == 2 * |w[0][0]| && out.Length2 == |w[0]| / 8
              && forall e, k, c :: 0 <= e < |w| && 0 <= k < 2 * |w[0][0]| && 0 <= c < |w[0]| / 8 ==>
                   out[e, k, c] == Word(w[e], |w[0][0]|, k, c)
  {
    hide Word;
    out := new nat[0, 0, 0];
    if |w| == 0 { return Some(EmptyE), out; }
    var N := |w[0]|;
    if N == 0 || N % 8 != 0 { return Some(NNotDivisibleBy8), out; }
    var halfK := |w[0][0]|;
    if halfK == 0 { return Some(EmptyK), out; }
    out := new nat[|w|, 2 * halfK, N / 8]((e, k, c) => 0);
    for e := 0 to |w|
      invariant fresh(out)
      invariant out.Length0 == |w| && out.Length1 == 2 * halfK && out.Length2 == N / 8
      invariant forall a :: 0 <= a < e ==> ByteRows(w[a], N, halfK)
      invariant forall a, k, c :: 0 <= a < e && 0 <= k < 2 * halfK && 0 <= c < N / 8 ==>
                  out[a, k, c] == Word(w[a], halfK, k, c)
      invariant forall a, k, c :: e <= a < |w| && 0 <= k < 2 * halfK && 0 <= c < N / 8 ==> out[a, k, c] == 0
    {
      error := RepackExpert(w[e], e, N, halfK, out);
      if error.Some? {
        assert FirstBadExpert(w, e);
        return;
      }
    }
    error := None;
  }

  // -------------------------------------------------------------- unpacking

  /** unpack_repacked_int4_reference. */
  method UnpackRepacked(packed: array3<nat>, N: nat) returns (out: array3<nat>)
    requires packed.Length0 > 0 && N <= 8 * packed.Length2
    ensures out.Length0 == packed.Length0 && out.Length1 == N && out.Length2 == packed.Length1
    ensures forall e, n, k :: 0 <= e < packed.Length0 && 0 <= n < N && 0 <= k < packed.Length1 ==>
              out[e, n, k] == Nibble(packed[e, k, n / 8], n % 8)
  {
    hide And, Shr;
    var E, K := packed.Length0, packed.Length1;
    out := new nat[E, N, K]((e, n, k) => 0);
    for e := 0 to E
      invariant fresh(out) && out.Length0 == E && out.Length1 == N && out.Length2 == K
      invariant forall a, n, k :: 0 <= a < e && 0 <= n < N && 0 <= k < K ==> out[a, n, k] == Nibble(packed[a, k, n / 8], n % 8)
    {
      for k := 0 to K
        invariant fresh(out) && out.Length0 == E && out.Length1 == N && out.Length2 == K
        invariant forall a, n, j :: 0 <= a < e && 0 <= n < N && 0 <= j < K ==> out[a, n, j] == Nibble(packed[a, j, n / 8], n % 8)
        invariant forall n, j :: 0 <= n < N && 0 <= j < k ==> out[e, n, j] == Nibble(packed[e, j, n / 8], n % 8)
      {
        for n := 0 to N
          invariant fresh(out) && out.Length0 == E && out.Length1 == N && out.Length2 == K
          invariant forall a, m, j :: 0 <= a < e && 0 <= m < N && 0 <= j < K ==> out[a, m, j] == Nibble(packed[a, j, m / 8], m % 8)
          invariant forall m, j :: 0 <= m < N && 0 <= j < k ==> out[e, m, j] == Nibble(packed[e, j, m / 8], m % 8)
          invariant forall m :: 0 <= m < n ==> out[e, m, k] == Nibble(packed[e, k, m / 8], m % 8)
        {
          out[e, n, k] := And(Shr(packed[e, k, n / 8], 4 * (n % 8)), 15);
        }
      }
    }
  }

  /** The code a row gives column k; a column past the end of a short row keeps its zero. */
  function CodeOrZero(row: seq<int>, k: nat): nat {
    if k / 2 < |row| then RowCode(row, k) else 0
  }

  /** No list index fails: there is a first row, every expert has as many rows, and none is longer. Extra rows
      are ignored and short ones leave zeros. */
  predicate Indexable(w: seq<seq<seq<int>>>) {
    && |w| > 0 && |w[0]| > 0
    && forall e :: 0 <= e < |w| ==> RowsIndexable(w[e], |w[0]|, |w[0][0]|)
  }

  predicate RowsIndexable(rows: seq<seq<int>>, N: nat, width: nat) {
    |rows| >= N && forall n :: 0 <= n < N ==> |rows[n]| <= width
  }

  /** unpack_original_int4_reference; not ok is its IndexError. */
  method UnpackOriginal(w: seq<seq<seq<int>>>) returns (ok: bool, out: array3<nat>)
    ensures ok <==> Indexable(w)
    ensures ok ==>
              && out.Length0 == |w| && out.Length1 == |w[0]| && out.Length2 == 2 * |w[0][0]|
              && forall e, n, k :: 0 <= e < |w| && 0 <= n < |w[0]| && 0 <= k < 2 * |w[0][0]| ==>
                   out[e, n, k] == CodeOrZero(w[e][n], k)
  {
    hide And, Shr, CodeOrZero;
    out := new nat[0, 0, 0];
    if |w| == 0 || |w[0]| == 0 { return false, out; }
    var E, N, halfK := |w|, |w[0]|, |w[0][0]|;
    out := new nat[E, N, 2 * halfK]((e, n, k) => 0);
    for e := 0 to E
      invariant fresh(out) && out.Length0 == E && out.Length1 == N && out.Length2 == 2 * halfK
      invariant forall a :: 0 <= a < e ==> RowsIndexable(w[a], N, halfK)
      invariant forall a, n, k :: 0 <= a < e && 0 <= n < N && 0 <= k < 2 * halfK ==> out[a, n, k] == CodeOrZero(w[a][n], k)
      invariant forall a, n, k :: e <= a < E && 0 <= n < N && 0 <= k < 2 * halfK ==> out[a, n, k] == 0
    {
      ok := UnpackExpert(w[e], e, out);
      if !ok { return; }
    }
    ok := true;
  }

  method UnpackExpert(rows: seq<seq<int>>, e: nat, out: array3<nat>) returns (ok: bool)
    requires e < out.Length0 && out.Length2 % 2 == 0
    requires forall n, k :: 0 <= n < out.Length1 && 0 <= k < out.Length2 ==> out[e, n, k] == 0
    modifies out
    ensures ok <==> RowsIndexable(rows, out.Length1, out.Length2 / 2)
    ensures ok ==> forall n, k :: 0 <= n < out.Length1 && 0 <= k < out.Length2 ==> out[e, n, k] == CodeOrZero(rows[n], k)
    ensures forall a, n, k :: 0 <= a < out.Length0 && 0 <= n < out.Length1 && 0 <= k < out.Length2 && a != e ==>
              out[a, n, k] == old(out[a, n, k])
  {
    hide And, Shr, CodeOrZero;
    for n := 0 to out.Length1
      invariant n > 0 ==> |rows| >= n
      invariant forall m :: 0 <= m < n ==> |rows[m]| <= out.Length2 / 2
      invariant forall m, k :: 0 <= m < n && 0 <= k < out.Length2 ==> out[e, m, k] == CodeOrZero(rows[m], k)
      invariant forall m, k :: n <= m < out.Length1 && 0 <= k < out.Length2 ==> out[e, m, k] == 0
      invariant forall a, m, k :: 0 <= a < out.Length0 && 0 <= m < out.Length1 && 0 <= k < out.Length2 && a != e ==>
                  out[a, m, k] == old(out[a, m, k])
    {
      if n >= |rows| { return false; }
      ok := UnpackBytes(rows[n], e, n, out);
      if !ok { return; }
    }
    ok := true;
  }

  /** One row: each byte assigns its two codes, as far as the list reaches. */
  method UnpackBytes(row: seq<int>, e: nat, n: nat, out: array3<nat>) returns (ok: bool)
    requires e < out.Length0 && n < out.Length1 && out.Length2 % 2 == 0
    requires forall k :: 0 <= k < out.Length2 ==> out[e, n, k] == 0
    modifies out
    ensures ok <==> |row| <= out.Length2 / 2
    ensures ok ==> forall k :: 0 <= k < out.Length2 ==> out[e, n, k] == CodeOrZero(row, k)
    ensures forall a, m, k :: 0 <= a < out.Length0 && 0 <= m < out.Length1 && 0 <= k < out.Length2 && (a != e || m != n) ==>
              out[a, m, k] == old(out[a, m, k])
  {
    hide And, Shr, Nibble;
    for kh := 0 to |row|
      invariant 2 * kh <= out.Length2
      invariant forall k :: 0 <= k < out.Length2 ==> out[e, n, k] == if k < 2 * kh then RowCode(row, k) else 0
      invariant forall a, m, k :: 0 <= a < out.Length0 && 0 <= m < out.Length1 && 0 <= k < out.Length2 && (a != e || m != n) ==>
                  out[a, m, k] == old(out[a, m, k])
    {
      if 2 * kh >= out.Length2 { return false; }
      NibbleLanes(row[kh]);
      out[e, n, 2 * kh] := And(row[kh], 15);
      out[e, n, 2 * kh + 1] := And(Shr(row[kh], 4), 15);
    }
    ok := true;
  }

  /** What stops unpack_zp_reference: a list index, or a value that is not a byte. */
  datatype ZpError = IndexFails | ByteFails

  predicate IsByte(b: int) { 0 <= b <= 255 }

  /** A row's error: a bad byte at or before the first position past the groups, else being too long. */
  function ZpRowError(row: seq<int>, G: nat): Option<ZpError> {
    if exists g :: 0 <= g <= G && g < |row| && !IsByte(row[g]) then Some(ByteFails)
    else if |row| > G then Some(IndexFails)
    else None
  }

  function ZpRowsError(rows: seq<seq<int>>, n: nat, G: nat): Option<ZpError> {
    if n == 0 then None
    else
      var before := ZpRowsError(rows, n - 1, G);
      if before.Some? then before
      else if n - 1 >= |rows| then Some(IndexFails)
      else ZpRowError(rows[n - 1], G)
  }

  function ZpExpertsError(zp: seq<seq<seq<int>>>, count: nat, halfN: nat, G: nat): Option<ZpError>
    requires count <= |zp|
  {
    if count == 0 then None
    else
      var before := ZpExpertsError(zp, count - 1, halfN, G);
      if before.Some? then before else ZpRowsError(zp[count - 1], halfN, G)
  }

  /** The first error in the order of the loops. */
  function ZpFirstError(zp: seq<seq<seq<int>>>): Option<ZpError> {
    if |zp| == 0 || |zp[0]| == 0 then Some(IndexFails) else ZpExpertsError(zp, |zp|, |zp[0]|, |zp[0][0]|)
  }

  predicate ZpOk(zp: seq<seq<seq<int>>>) {
    && Indexable(zp)
    && forall e, h, g :: 0 <= e < |zp| && 0 <= h < |zp[0]| && 0 <= g < |zp[e][h]| ==> IsByte(zp[e][h][g])
  }

  function ZpOrZero(row: seq<int>, g: nat, lane: nat): nat {
    if g < |row| then Nibble(row[g], lane) else 0
  }

  /** unpack_zp_reference: E, N / 2, G bytes to E, G, N zero points; the first thing that stops it otherwise. */
  method UnpackZp(zp: seq<seq<seq<int>>>) returns (error: Option<ZpError>, out: array3<nat>)
    ensures error == ZpFirstError(zp)
    ensures error.None? ==>
              && Indexable(zp) && out.Length0 == |zp| && out.Length1 == |zp[0][0]| && out.Length2 == 2 * |zp[0]|
              && forall e, g, n :: 0 <= e < |zp| && 0 <= g < |zp[0][0]| && 0 <= n < 2 * |zp[0]| ==>
                   out[e, g, n] == ZpOrZero(zp[e][n / 2], g, n % 2)
  {
    hide And, Shr, ZpOrZero, ZpRowsError;
    out := new nat[0, 0, 0];
    if |zp| == 0 || |zp[0]| == 0 { return Some(IndexFails), out; }
    var E, halfN, G := |zp|, |zp[0]|, |zp[0][0]|;
    out := new nat[E, G, 2 * halfN]((e, g, n) => 0);
    for e := 0 to E
      invariant fresh(out) && out.Length0 == E && out.Length1 == G && out.Length2 == 2 * halfN
      invariant ZpExpertsError(zp, e, halfN, G).None?
      invariant forall a :: 0 <= a < e ==> RowsIndexable(zp[a], halfN, G)
      invariant forall a, g, n :: 0 <= a < e && 0 <= g < G && 0 <= n < 2 * halfN ==> out[a, g, n] == ZpOrZero(zp[a][n / 2], g, n % 2)
      invariant forall a, g, n :: e <= a < E && 0 <= g < G && 0 <= n < 2 * halfN ==> out[a, g, n] == 0
    {
      error := UnpackZpExpert(zp[e], e, out);
      if error.Some? {
        ExpertsErrorStays(zp, e + 1, |zp|, halfN, G);
        return;
      }
    }
    error := None;
  }

  lemma {:induction false} ExpertsErrorStays(zp: seq<seq<seq<int>>>, from: nat, to: nat, halfN: nat, G: nat)
    requires from <= to <= |zp| && ZpExpertsError(zp, from, halfN, G).Some?
    ensures ZpExpertsError(zp, to, halfN, G) == ZpExpertsError(zp, from, halfN, G)
  {
    if from < to { ExpertsErrorStays(zp, from, to - 1, halfN, G); }
  }

  lemma {:induction false} RowsErrorStays(rows: seq<seq<int>>, from: nat, to: nat, G: nat)
    requires from <= to && ZpRowsError(rows, from, G).Some?
    ensures ZpRowsError(rows, to, G) == ZpRowsError(rows, from, G)
  {
    if from < to { RowsErrorStays(rows, from, to - 1, G); }
  }

  method UnpackZpExpert(rows: seq<seq<int>>, e: nat, out: array3<nat>) returns (error: Option<ZpError>)
    requires e < out.Length0 && out.Length2 % 2 == 0
    requires forall g, n :: 0 <= g < out.Length1 && 0 <= n < out.Length2 ==> out[e, g, n] == 0
    modifies out
    ensures error == ZpRowsError(rows, out.Length2 / 2, out.Length1)
    ensures error.None? ==> RowsIndexable(rows, out.Length2 / 2, out.Length1)
    ensures error.None? ==> forall g, n :: 0 <= g < out.Length1 && 0 <= n < out.Length2 ==>
              out[e, g, n] == ZpOrZero(rows[n / 2], g, n % 2)
    ensures forall a, g, n :: 0 <= a < out.Length0 && 0 <= g < out.Length1 && 0 <= n < out.Length2 && a != e ==>
              out[a, g, n] == old(out[a, g, n])
  {
    hide And, Shr, ZpOrZero, ZpRowError;
    var halfN, G := out.Length2 / 2, out.Length1;
    for nh := 0 to halfN
      invariant nh <= |rows| || nh == 0
      invariant ZpRowsError(rows, nh, G).None?
      invariant forall h :: 0 <= h < nh ==> |rows[h]| <= G
      invariant forall g, n :: 0 <= g < G && 0 <= n < 2 * nh ==> out[e, g, n] == ZpOrZero(rows[n / 2], g, n % 2)
      invariant forall g, n :: 0 <= g < G && 2 * nh <= n < out.Length2 ==> out[e, g, n] == 0
      invariant forall a, g, n :: 0 <= a < out.Length0 && 0 <= g < G && 0 <= n < out.Length2 && a != e ==>
                  out[a, g, n] == old(out[a, g, n])
    {
      if nh >= |rows| {
        RowsErrorStays(rows, nh + 1, halfN, G);
        return Some(IndexFails);
      }
      error := UnpackZpRow(rows[nh], e, nh, out);
      if error.Some? {
        RowsErrorStays(rows, nh + 1, halfN, G);
        return;
      }
    }
    error := None;
  }

  method UnpackZpRow(row: seq<int>, e: nat, nh: nat, out: array3<nat>) returns (error: Option<ZpError>)
    requires e < out.Length0 && 2 * nh + 1 < out.Length2
    requires forall g, n :: 0 <= g < out.Length1 && 2 * nh <= n < 2 * nh + 2 ==> out[e, g, n] == 0
    modifies out
    ensures error == ZpRowError(row, out.Length1)
    ensures error.None? ==> |row| <= out.Length1
    ensures error.None? ==> forall g, n :: 0 <= g < out.Length1 && 2 * nh <= n < 2 * nh + 2 ==>
              out[e, g, n] == ZpOrZero(row, g, n - 2 * nh)
    ensures forall a, g, n :: 0 <= a < out.Length0 && 0 <= g < out.Length1 && 0 <= n < out.Length2 && (a != e || n / 2 != nh) ==>
              out[a, g, n] == old(out[a, g, n])
  {
    hide And, Shr, Nibble;
    for kg := 0 to |row|
      invariant kg <= out.Length1
      invariant forall g :: 0 <= g < kg ==> IsByte(row[g])
      invariant forall g, n :: 0 <= g < kg && 2 * nh <= n < 2 * nh + 2 ==> out[e, g, n] == Nibble(row[g], n - 2 * nh)
      invariant forall g, n :: kg <= g < out.Length1 && 2 * nh <= n < 2 * nh + 2 ==> out[e, g, n] == 0
      invariant forall a, g, n :: 0 <= a < out.Length0 && 0 <= g < out.Length1 && 0 <= n < out.Length2 && (a != e || n / 2 != nh) ==>
                  out[a, g, n] == old(out[a, g, n])
    {
      if !IsByte(row[kg]) { return Some(ByteFails); }
      if kg >= out.Length1 { return Some(IndexFails); }
      NibbleLanes(row[kg]);
      out[e, kg, 2 * nh] := And(row[kg], 15);
      out[e, kg, 2 * nh + 1] := And(Shr(row[kg], 4), 15);
    }
    error := None;
  }

  /** It accepts exactly lists no index of which fails and whose used values are all bytes. */
  lemma ZpAcceptedExactly(zp: seq<seq<seq<int>>>)
    ensures ZpFirstError(zp).None? <==> ZpOk(zp)
  {
    hide ZpRowsError;
    if |zp| > 0 && |zp[0]| > 0 {
      ExpertsNone(zp, |zp|, |zp[0]|, |zp[0][0]|);
      forall e | 0 <= e < |zp|
        ensures ZpRowsError(zp[e], |zp[0]|, |zp[0][0]|).None? <==> RowsClean(zp[e], |zp[0]|, |zp[0][0]|)
      {
        RowsNone(zp[e], |zp[0]|, |zp[0][0]|);
      }
      assert ZpOk(zp) <==> forall e :: 0 <= e < |zp| ==> RowsClean(zp[e], |zp[0]|, |zp[0][0]|);
    }
  }

  predicate RowClean(row: seq<int>, G: nat) {
    |row| <= G && forall g :: 0 <= g < |row| ==> IsByte(row[g])
  }

  predicate RowsClean(rows: seq<seq<int>>, n: nat, G: nat) {
    |rows| >= n && forall h :: 0 <= h < n ==> RowClean(rows[h], G)
  }

  lemma RowNone(row: seq<int>, G: nat)
    ensures ZpRowError(row, G).None? <==> RowClean(row, G)
  {
  }

  lemma {:induction false} RowsNone(rows: seq<seq<int>>, n: nat, G: nat)
    ensures ZpRowsError(rows, n, G).None? <==> RowsClean(rows, n, G)
  {
    hide ZpRowError, RowClean;
    if n > 0 {
      RowsNone(rows, n - 1, G);
      if n <= |rows| { RowNone(rows[n - 1], G); }
    }
  }

  lemma {:induction false} ExpertsNone(zp: seq<seq<seq<int>>>, count: nat, halfN: nat, G: nat)
    requires count <= |zp|
    ensures ZpExpertsError(zp, count, halfN, G).None? <==>
              forall e :: 0 <= e < count ==> ZpRowsError(zp[e], halfN, G).None?
  {
    hide ZpRowsError;
    if count > 0 { ExpertsNone(zp, count - 1, halfN, G); }
  }

  // ---------------------------------------------------------------- theorems

  /** Unpacking what repacking produced is unpacking the original bytes, code by code. */
  lemma RepackKeepsCodes(rows: seq<seq<int>>, halfK: nat, n: nat, k: nat)
    requires |rows| % 8 == 0 && n < |rows| && k < 2 * halfK
    requires forall i :: 0 <= i < |rows| ==> |rows[i]| == halfK
    ensures Nibble(Word(rows, halfK, k, n / 8), n % 8) == RowCode(rows[n], k)
  {
    hide Nibble, Lanes;
    NibbleOfPack(Lanes(rows, halfK, k, n / 8, 8), n % 8);
  }

  /** Every repacked word fits 32 bits. */
  lemma WordFits(rows: seq<seq<int>>, halfK: nat, k: nat, c: nat)
    requires k < 2 * halfK && 8 * c + 8 <= |rows|
    requires forall n :: 8 * c <= n < 8 * c + 8 ==> |rows[n]| == halfK
    ensures Word(rows, halfK, k, c) < 0x1_0000_0000
  {
    hide Lanes;
    PackNibblesSum(Lanes(rows, halfK, k, c, 8));
    TwoTo32();
  }

  lemma TwoTo32()
    ensures Pow2(32) == 0x1_0000_0000
  {
    Pow16();
    Pow2Add(4, 4);
    Pow2Add(8, 8);
    Pow2Add(16, 16);
  }

  /** Two accepted inputs with the same words are the same input: repacking loses nothing. */
  lemma RepackInjective(v: seq<seq<seq<int>>>, w: seq<seq<seq<int>>>)
    requires Repackable(v) && Repackable(w)
    requires |v| == |w| && |v[0][0]| == |w[0][0]| && |v[0]| / 8 == |w[0]| / 8
    requires forall e, k, c :: 0 <= e < |v| && 0 <= k < 2 * |v[0][0]| && 0 <= c < |v[0]| / 8 ==>
               Word(v[e], |v[0][0]|, k, c) == Word(w[e], |w[0][0]|, k, c)
    ensures v == w
  {
    hide Word, RowCode;
    forall e | 0 <= e < |v| ensures v[e] == w[e] {
      RowsInjective(v[e], w[e], |v[0]|, |v[0][0]|);
    }
  }

  lemma RowsInjective(rows: seq<seq<int>>, rows': seq<seq<int>>, N: nat, halfK: nat)
    requires N % 8 == 0 && ByteRows(rows, N, halfK) && ByteRows(rows', N, halfK)
    requires forall k, c :: 0 <= k < 2 * halfK && 0 <= c < N / 8 ==> Word(rows, halfK, k, c) == Word(rows', halfK, k, c)
    ensures rows == rows'
  {
    hide Word, RowCode;
    forall n | 0 <= n < N ensures rows[n] == rows'[n] {
      forall h | 0 <= h < halfK ensures rows[n][h] == rows'[n][h] {
        RepackKeepsCodes(rows, halfK, n, 2 * h);
        RepackKeepsCodes(rows', halfK, n, 2 * h);
        RepackKeepsCodes(rows, halfK, n, 2 * h + 1);
        RepackKeepsCodes(rows', halfK, n, 2 * h + 1);
        SameByte(rows[n], rows'[n], h);
      }
    }
  }

  /** A byte's low nibble is the even column of its pair, its high nibble the odd one. */
  lemma RowCodeMeans(row: seq<int>, h: nat)
    requires h < |row| && IsByte(row[h])
    ensures row[h] == RowCode(row, 2 * h) + 16 * RowCode(row, 2 * h + 1)
    ensures RowCode(row, 2 * h) < 16 && RowCode(row, 2 * h + 1) < 16
  {
    hide Nibble;
    ByteIsNibbles(row[h]);
    NibbleRange(row[h], 0);
    NibbleRange(row[h], 1);
  }

  lemma SameByte(row: seq<int>, row': seq<int>, h: nat)
    requires h < |row| && h < |row'| && 0 <= row[h] <= 255 && 0 <= row'[h] <= 255
    requires RowCode(row, 2 * h) == RowCode(row', 2 * h) && RowCode(row, 2 * h + 1) == RowCode(row', 2 * h + 1)
    ensures row[h] == row'[h]
  {
    hide Nibble;
    ByteIsNibbles(row[h]);
    ByteIsNibbles(row'[h]);
  }

  /** The check the reference exists for: repack and unpack, and compare with unpacking the original. */
  method RepackAndUnpack(w: seq<seq<seq<int>>>) returns (error: Option<RepackError>, repacked: array3<nat>, original: array3<nat>)
    ensures error.None? <==> Repackable(w)
    ensures error.None? ==>
              && repacked.Length0 == original.Length0 == |w|
              && repacked.Length1 == original.Length1 == |w[0]|
              && repacked.Length2 == original.Length2 == 2 * |w[0][0]|
              && forall e, n, k :: 0 <= e < |w| && 0 <= n < |w[0]| && 0 <= k < 2 * |w[0][0]| ==>
                   repacked[e, n, k] == original[e, n, k] == RowCode(w[e][n], k)
  {
    hide Word, RowCode, Nibble;
    var packed;
    error, packed := Repack(w);
    repacked, original := packed, packed;
    if error.Some? { return; }
    repacked := UnpackRepacked(packed, |w[0]|);
    var ok;
    ok, original := UnpackOriginal(w);
    assert Indexable(w) by { assert forall e :: 0 <= e < |w| ==> ByteRows(w[e], |w[0]|, |w[0][0]|); }
    forall e, n, k | 0 <= e < |w| && 0 <= n < |w[0]| && 0 <= k < 2 * |w[0][0]|
      ensures repacked[e, n, k] == RowCode(w[e][n], k)
    {
      RepackKeepsCodes(w[e], |w[0][0]|, n, k);
    }
  }

  /** unpack_zp_reference reads, transposed, the zero points that _build_correction unpacks. */
  method ZeroPointsBothWays(zp: Tensor<nat>) returns (reference: array3<nat>, unpacked: array3<nat>)
    requires |zp| > 0 && |zp[0]| > 0 && Shaped(zp, |zp|, |zp[0]|, |zp[0][0]|)
    requires forall e, h, g :: 0 <= e < |zp| && 0 <= h < |zp[0]| && 0 <= g < |zp[0][0]| ==> zp[e][h][g] <= 255
    ensures reference.Length0 == unpacked.Length0 == |zp|
    ensures reference.Length1 == unpacked.Length2 == |zp[0][0]| && reference.Length2 == unpacked.Length1 == 2 * |zp[0]|
    ensures forall e, n, g :: 0 <= e < |zp| && 0 <= n < 2 * |zp[0]| && 0 <= g < |zp[0][0]| ==>
              reference[e, g, n] == unpacked[e, n, g]
  {
    hide Nibble, ZpFirstError;
    var error;
    error, reference := UnpackZp(zp);
    ZpAcceptedExactly(zp);
    assert ZpOk(zp);
    unpacked := UnpackZeros(zp, |zp|, |zp[0]|, |zp[0][0]|);
  }
}
