/** The AutoAWQ to Triton weight layout: int32 words of eight 4-bit codes, K-first, become N-first bytes
    of two codes, and the zero points become a per-group correction tensor. */
module AwqLayout {
  import opened Arith
  import opened BitOps
  import opened Prelude

  /** A rank-three tensor, indexed [i][j][k]. */
  type Tensor<T> = seq<seq<seq<T>>>

  ghost predicate Shaped<T>(t: Tensor<T>, d0: nat, d1: nat, d2: nat) {
    && |t| == d0
    && (forall i :: 0 <= i < d0 ==> |t[i]| == d1)
    && (forall i, j :: 0 <= i < d0 && 0 <= j < d1 ==> |t[i][j]| == d2)
  }

  function Plane<T>(d1: nat, d2: nat, i: int, f: (int, int, int) --> T): (t: seq<seq<T>>)
    requires forall j, k :: 0 <= j < d1 && 0 <= k < d2 ==> f.requires(i, j, k)
    ensures |t| == d1
    ensures forall j :: 0 <= j < d1 ==> |t[j]| == d2
    ensures forall j, k :: 0 <= j < d1 && 0 <= k < d2 ==> t[j][k] == f(i, j, k)
  {
    seq(d1, j requires 0 <= j < d1 => seq(d2, k requires 0 <= k < d2 => f(i, j, k)))
  }

  function Build<T>(d0: nat, d1: nat, d2: nat, f: (int, int, int) --> T): (t: Tensor<T>)
    requires forall i, j, k :: 0 <= i < d0 && 0 <= j < d1 && 0 <= k < d2 ==> f.requires(i, j, k)
    ensures Shaped(t, d0, d1, d2)
    ensures forall i, j, k :: 0 <= i < d0 && 0 <= j < d1 && 0 <= k < d2 ==> t[i][j][k] == f(i, j, k)
  {
    seq(d0, i requires 0 <= i < d0 => Plane(d1, d2, i, f))
  }

  function Transpose12<T>(t: Tensor<T>, d0: nat, d1: nat, d2: nat): (r: Tensor<T>)
    requires Shaped(t, d0, d1, d2)
    ensures Shaped(r, d0, d2, d1)
  {
    Build(d0, d2, d1, (i, k, j) requires 0 <= i < d0 && 0 <= j < d1 && 0 <= k < d2 => t[i][j][k])
  }

  ghost predicate Codes(t: Tensor<int>, d0: nat, d1: nat, d2: nat) {
    && Shaped(t, d0, d1, d2)
    && forall i, j, k :: 0 <= i < d0 && 0 <= j < d1 && 0 <= k < d2 ==> 0 <= t[i][j][k] <= 15
  }

  /** _REVERSE_AWQ_PACK_ORDER, as far as indexing goes: eight lane numbers. */
  predicate LaneOrder(order: seq<nat>) {
    |order| == 8 && forall j :: 0 <= j < 8 ==> order[j] < 8
  }

  predicate InverseOrders(order: seq<nat>, reverse: seq<nat>) {
    && LaneOrder(order) && LaneOrder(reverse)
    && forall j :: 0 <= j < 8 ==> order[reverse[j]] == j
  }

  /** The code AutoAWQ means at column n of a row of words. */
  function AwqCode(row: seq<int>, reverse: seq<nat>, n: nat): nat
    requires LaneOrder(reverse) && n < 8 * |row|
  {
    Nibble(row[n / 8], reverse[n % 8])
  }

  // ------------------------------------------------------- the conversion

  /** ((words.unsqueeze(-1) >> shifts) & 15)[..., reverse].reshape(d0, d1, 8 * np) */
  function UnpackWords(words: Tensor<int>, reverse: seq<nat>, d0: nat, d1: nat, np: nat): (vals: Tensor<nat>)
    requires Shaped(words, d0, d1, np) && LaneOrder(reverse)
    ensures Shaped(vals, d0, d1, 8 * np)
  {
    Build(d0, d1, 8 * np, (i, j, n) requires 0 <= i < d0 && 0 <= j < d1 && 0 <= n < 8 * np =>
            Nibble(words[i][j][n / 8], reverse[n % 8]))
  }

  /** (t[..., 0::2] | (t[..., 1::2] << 4)).to(uint8) */
  function PackLast(t: Tensor<nat>, d0: nat, d1: nat, half: nat): (bytes: Tensor<nat>)
    requires Shaped(t, d0, d1, 2 * half)
    ensures Shaped(bytes, d0, d1, half)
  {
    Build(d0, d1, half, (i, j, h) requires 0 <= i < d0 && 0 <= j < d1 && 0 <= h < half =>
            PackPair(t[i][j][2 * h], t[i][j][2 * h + 1]) % 256)
  }

  /** (t[:, 0::2, :] | (t[:, 1::2, :] << 4)).to(uint8) */
  function PackMiddle(t: Tensor<nat>, d0: nat, half: nat, d2: nat): (bytes: Tensor<nat>)
    requires Shaped(t, d0, 2 * half, d2)
    ensures Shaped(bytes, d0, half, d2)
  {
    Build(d0, half, d2, (i, h, k) requires 0 <= i < d0 && 0 <= h < half && 0 <= k < d2 =>
            PackPair(t[i][2 * h][k], t[i][2 * h + 1][k]) % 256)
  }

  function CodesNFirst(words: Tensor<int>, reverse: seq<nat>, E: nat, rows: nat, np: nat): (vals: Tensor<nat>)
    requires Shaped(words, E, rows, np) && LaneOrder(reverse)
    ensures Shaped(vals, E, 8 * np, rows)
  {
    Transpose12(UnpackWords(words, reverse, E, rows, np), E, rows, 8 * np)
  }

  /** _awq_w13_to_packed_nfirst, the packed codes: E, N, K / 2. */
  function PackedWeights(qweight: Tensor<int>, reverse: seq<nat>, E: nat, halfK: nat, np: nat): (packed: Tensor<nat>)
    requires Shaped(qweight, E, 2 * halfK, np) && LaneOrder(reverse)
    ensures Shaped(packed, E, 8 * np, halfK)
  {
    PackLast(CodesNFirst(qweight, reverse, E, 2 * halfK, np), E, 8 * np, halfK)
  }

  /** _awq_w13_to_packed_nfirst, the packed zero points: E, N / 2, G. */
  function PackedZeros(qzeros: Tensor<int>, reverse: seq<nat>, E: nat, G: nat, np: nat): (zp: Tensor<nat>)
    requires Shaped(qzeros, E, G, np) && LaneOrder(reverse)
    ensures Shaped(zp, E, 4 * np, G)
  {
    PackMiddle(CodesNFirst(qzeros, reverse, E, G, np), E, 4 * np, G)
  }

  // ----------------------------------------------------- reading it back

  /** (packed >> ((kk % 2) * 4)) & 15, as the kernels load a code. */
  function ReadCode(packed: Tensor<nat>, e: nat, n: nat, k: nat): (q: nat)
    requires e < |packed| && n < |packed[e]| && k / 2 < |packed[e][n]|
    ensures q <= 15
  {
    NibbleRange(packed[e][n][k / 2], k % 2);
    Nibble(packed[e][n][k / 2], k % 2)
  }

  /** (zpbyte >> ((n % 2) * 4)) & 15, as the kernels load a zero point. */
  function ReadZero(zp: Tensor<nat>, e: nat, n: nat, g: nat): (z: nat)
    requires e < |zp| && n / 2 < |zp[e]| && g < |zp[e][n / 2]|
    ensures z <= 15
  {
    NibbleRange(zp[e][n / 2][g], n % 2);
    Nibble(zp[e][n / 2][g], n % 2)
  }

  lemma PairLane(low: nat, high: nat, j: nat)
    requires low <= 15 && high <= 15 && j < 2
    ensures Nibble(PackPair(low, high) % 256, j) == if j == 0 then low else high
  {
    hide Nibble, PackPair;
    PackPairNibbles(low, high);
  }

  lemma CodesNFirstAt(words: Tensor<int>, reverse: seq<nat>, E: nat, rows: nat, np: nat, e: nat, n: nat, r: nat)
    requires Shaped(words, E, rows, np) && LaneOrder(reverse) && e < E && n < 8 * np && r < rows
    ensures CodesNFirst(words, reverse, E, rows, np)[e][n][r] == AwqCode(words[e][r], reverse, n) <= 15
  {
    hide Nibble;
    NibbleRange(words[e][r][n / 8], reverse[n % 8]);
  }

  lemma PackLastAt(t: Tensor<nat>, d0: nat, d1: nat, half: nat, i: nat, j: nat, h: nat)
    requires Shaped(t, d0, d1, 2 * half) && i < d0 && j < d1 && h < half
    ensures PackLast(t, d0, d1, half)[i][j][h] == PackPair(t[i][j][2 * h], t[i][j][2 * h + 1]) % 256
  {
    hide PackPair;
  }

  lemma PackMiddleAt(t: Tensor<nat>, d0: nat, half: nat, d2: nat, i: nat, h: nat, k: nat)
    requires Shaped(t, d0, 2 * half, d2) && i < d0 && h < half && k < d2
    ensures PackMiddle(t, d0, half, d2)[i][h][k] == PackPair(t[i][2 * h][k], t[i][2 * h + 1][k]) % 256
  {
    hide PackPair;
  }

  /** The converted bytes, read with the kernel's shift, hold exactly AutoAWQ's code. */
  lemma PackedWeightsReadBack(qweight: Tensor<int>, reverse: seq<nat>, E: nat, halfK: nat, np: nat,
                              e: nat, n: nat, k: nat)
    requires Shaped(qweight, E, 2 * halfK, np) && LaneOrder(reverse)
    requires e < E && n < 8 * np && k < 2 * halfK
    ensures ReadCode(PackedWeights(qweight, reverse, E, halfK, np), e, n, k) == AwqCode(qweight[e][k], reverse, n)
  {
    hide Nibble, PackPair, PackLast, CodesNFirst, AwqCode;
    var vals := CodesNFirst(qweight, reverse, E, 2 * halfK, np);
    var h := k / 2;
    PackLastAt(vals, E, 8 * np, halfK, e, n, h);
    CodesNFirstAt(qweight, reverse, E, 2 * halfK, np, e, n, 2 * h);
    CodesNFirstAt(qweight, reverse, E, 2 * halfK, np, e, n, 2 * h + 1);
    PairLane(vals[e][n][2 * h], vals[e][n][2 * h + 1], k % 2);
  }

  lemma PackedZerosReadBack(qzeros: Tensor<int>, reverse: seq<nat>, E: nat, G: nat, np: nat,
                            e: nat, n: nat, g: nat)
    requires Shaped(qzeros, E, G, np) && LaneOrder(reverse)
    requires e < E && n < 8 * np && g < G
    ensures ReadZero(PackedZeros(qzeros, reverse, E, G, np), e, n, g) == AwqCode(qzeros[e][g], reverse, n)
  {
    hide Nibble, PackPair, PackMiddle, CodesNFirst, AwqCode;
    var vals := CodesNFirst(qzeros, reverse, E, G, np);
    var h := n / 2;
    PackMiddleAt(vals, E, 4 * np, G, e, h, g);
    CodesNFirstAt(qzeros, reverse, E, G, np, e, 2 * h, g);
    CodesNFirstAt(qzeros, reverse, E, G, np, e, 2 * h + 1, g);
    PairLane(vals[e][2 * h][g], vals[e][2 * h + 1][g], n % 2);
  }

  // -------------------------------------------- AutoAWQ's own packing order

  /** One AutoAWQ word: lane i holds the code of column order[i], stored as an int32. */
  function AwqWord(codes: seq<int>, order: seq<nat>): int
    requires |codes| == 8 && Nibbles(codes) && LaneOrder(order)
  {
    var lanes := seq(8, i requires 0 <= i < 8 => codes[order[i]]);
    PackNibblesSum(lanes);
    Signed32(PackNibbles(lanes))
  }

  lemma AwqWordLane(codes: seq<int>, order: seq<nat>, reverse: seq<nat>, j: nat)
    requires |codes| == 8 && Nibbles(codes) && InverseOrders(order, reverse) && j < 8
    ensures Nibble(AwqWord(codes, order), reverse[j]) == codes[j]
  {
    var lanes := seq(8, i requires 0 <= i < 8 => codes[order[i]]);
    PackNibblesSum(lanes);
    NibbleSigned(PackNibbles(lanes), reverse[j]);
    NibbleOfPack(lanes, reverse[j]);
  }

  function AwqPack(codes: Tensor<int>, order: seq<nat>, d0: nat, d1: nat, np: nat): (words: Tensor<int>)
    requires Codes(codes, d0, d1, 8 * np) && LaneOrder(order)
    ensures Shaped(words, d0, d1, np)
  {
    Build(d0, d1, np, (i, j, w) requires 0 <= i < d0 && 0 <= j < d1 && 0 <= w < np =>
            AwqWord(codes[i][j][8 * w..8 * w + 8], order))
  }

  lemma AwqPackCode(codes: Tensor<int>, order: seq<nat>, reverse: seq<nat>, d0: nat, d1: nat, np: nat,
                    i: nat, j: nat, n: nat)
    requires Codes(codes, d0, d1, 8 * np) && InverseOrders(order, reverse)
    requires i < d0 && j < d1 && n < 8 * np
    ensures AwqCode(AwqPack(codes, order, d0, d1, np)[i][j], reverse, n) == codes[i][j][n]
  {
    hide AwqWord, Nibble;
    var w := n / 8;
    AwqWordLane(codes[i][j][8 * w..8 * w + 8], order, reverse, n % 8);
  }

  /** Zero to end: whatever permutation packs the codes, packing, converting and reading gives them back. */
  lemma AwqRoundTrip(codes: Tensor<int>, order: seq<nat>, reverse: seq<nat>, E: nat, halfK: nat, np: nat,
                     e: nat, n: nat, k: nat)
    requires Codes(codes, E, 2 * halfK, 8 * np) && InverseOrders(order, reverse)
    requires e < E && n < 8 * np && k < 2 * halfK
    ensures ReadCode(PackedWeights(AwqPack(codes, order, E, 2 * halfK, np), reverse, E, halfK, np), e, n, k)
         == codes[e][k][n]
  {
    hide PackedWeights, ReadCode, AwqPack, AwqCode;
    PackedWeightsReadBack(AwqPack(codes, order, E, 2 * halfK, np), reverse, E, halfK, np, e, n, k);
    AwqPackCode(codes, order, reverse, E, 2 * halfK, np, e, k, n);
  }

  // ------------------------------------------------------ the correction

  /** The buffer of unpacked zero points: even columns from the low nibbles, odd from the high. */
  method UnpackZeros(zpPacked: Tensor<nat>, E: nat, half: nat, G: nat) returns (zp: array3<nat>)
    requires Shaped(zpPacked, E, half, G)
    ensures zp.Length0 == E && zp.Length1 == 2 * half && zp.Length2 == G
    ensures forall e, n, g :: 0 <= e < E && 0 <= n < 2 * half && 0 <= g < G ==>
              zp[e, n, g] == ReadZero(zpPacked, e, n, g)
  {
    hide And, Shr, ReadZero;
    zp := new nat[E, 2 * half, G];
    forall e, h, g | 0 <= e < E && 0 <= h < half && 0 <= g < G {
      zp[e, 2 * h, g] := And(zpPacked[e][h][g], 15);
    }
    forall e, h, g | 0 <= e < E && 0 <= h < half && 0 <= g < G {
      zp[e, 2 * h + 1, g] := And(Shr(zpPacked[e][h][g], 4), 15);
    }
    forall e, n, g | 0 <= e < E && 0 <= n < 2 * half && 0 <= g < G
      ensures zp[e, n, g] == ReadZero(zpPacked, e, n, g)
    {
      ReadZeroLanes(zpPacked, e, n / 2, g);
      assert n == 2 * (n / 2) + n % 2;
    }
  }

  lemma ReadZeroLanes(zp: Tensor<nat>, e: nat, h: nat, g: nat)
    requires e < |zp| && h < |zp[e]| && g < |zp[e][h]|
    ensures ReadZero(zp, e, 2 * h, g) == And(zp[e][h][g], 15)
    ensures ReadZero(zp, e, 2 * h + 1, g) == And(Shr(zp[e][h][g], 4), 15)
  {
    hide And, Shr;
    NibbleLanes(zp[e][h][g]);
  }

  /** _build_correction: zero point times scale for every expert, column and group. */
  method BuildCorrection(zpPacked: Tensor<nat>, scale: Tensor<real>, E: nat, half: nat, G: nat)
    returns (correction: Tensor<real>)
    requires Shaped(zpPacked, E, half, G) && Shaped(scale, E, 2 * half, G)
    ensures Shaped(correction, E, 2 * half, G)
    ensures forall e, n, g :: 0 <= e < E && 0 <= n < 2 * half && 0 <= g < G ==>
              correction[e][n][g] == ReadZero(zpPacked, e, n, g) as real * scale[e][n][g]
  {
    hide ReadZero;
    var zp := UnpackZeros(zpPacked, E, half, G);
    correction := seq(E, e requires 0 <= e < E reads zp =>
      seq(2 * half, n requires 0 <= n < 2 * half reads zp =>
        seq(G, g requires 0 <= g < G reads zp => zp[e, n, g] as real * scale[e][n][g])));
  }

  /** The correction tensor recovers AutoAWQ's zero point times its scale. */
  lemma CorrectionOfAwq(qzeros: Tensor<int>, reverse: seq<nat>, scale: Tensor<real>, correction: Tensor<real>,
                        E: nat, G: nat, np: nat, e: nat, n: nat, g: nat)
    requires Shaped(qzeros, E, G, np) && LaneOrder(reverse) && Shaped(scale, E, 8 * np, G)
    requires Shaped(correction, E, 8 * np, G) && e < E && n < 8 * np && g < G
    requires correction[e][n][g] == ReadZero(PackedZeros(qzeros, reverse, E, G, np), e, n, g) as real * scale[e][n][g]
    ensures correction[e][n][g] == AwqCode(qzeros[e][g], reverse, n) as real * scale[e][n][g]
  {
    hide PackedZeros, ReadZero, AwqCode;
    PackedZerosReadBack(qzeros, reverse, E, G, np, e, n, g);
  }

  // --------------------------------------------- the layout proof's decoder

  /** torch.stack((bytes & 15, (bytes >> 4) & 15), dim=-1).reshape(d0, d1, 2 * half) */
  function InterleaveLast(bytes: Tensor<nat>, d0: nat, d1: nat, half: nat): (t: Tensor<nat>)
    requires Shaped(bytes, d0, d1, half)
    ensures Shaped(t, d0, d1, 2 * half)
  {
    Build(d0, d1, 2 * half, (i, j, k) requires 0 <= i < d0 && 0 <= j < d1 && 0 <= k < 2 * half =>
            if k % 2 == 0 then And(bytes[i][j][k / 2], 15) else And(Shr(bytes[i][j][k / 2], 4), 15))
  }

  /** torch.stack((bytes & 15, (bytes >> 4) & 15), dim=2).reshape(d0, 2 * half, d2) */
  function InterleaveMiddle(bytes: Tensor<nat>, d0: nat, half: nat, d2: nat): (t: Tensor<nat>)
    requires Shaped(bytes, d0, half, d2)
    ensures Shaped(t, d0, 2 * half, d2)
  {
    Build(d0, 2 * half, d2, (i, j, k) requires 0 <= i < d0 && 0 <= j < 2 * half && 0 <= k < d2 =>
            if j % 2 == 0 then And(bytes[i][j / 2][k], 15) else And(Shr(bytes[i][j / 2][k], 4), 15))
  }

  lemma InterleaveLastAt(bytes: Tensor<nat>, d0: nat, d1: nat, half: nat, i: nat, j: nat, k: nat)
    requires Shaped(bytes, d0, d1, half) && i < d0 && j < d1 && k < 2 * half
    ensures InterleaveLast(bytes, d0, d1, half)[i][j][k] == ReadCode(bytes, i, j, k)
  {
    hide And, Shr, Nibble;
    NibbleLanes(bytes[i][j][k / 2]);
  }

  lemma InterleaveMiddleAt(bytes: Tensor<nat>, d0: nat, half: nat, d2: nat, i: nat, j: nat, k: nat)
    requires Shaped(bytes, d0, half, d2) && i < d0 && j < 2 * half && k < d2
    ensures InterleaveMiddle(bytes, d0, half, d2)[i][j][k] == ReadZero(bytes, i, j, k)
  {
    hide And, Shr, Nibble;
    NibbleLanes(bytes[i][j / 2][k]);
  }

  /** t.repeat_interleave(size, dim=1) */
  function RepeatInterleave<T>(t: Tensor<T>, d0: nat, d1: nat, d2: nat, size: nat): (r: Tensor<T>)
    requires Shaped(t, d0, d1, d2) && size > 0
    ensures Shaped(r, d0, d1 * size, d2)
  {
    Build(d0, d1 * size, d2, (i, j, k) requires 0 <= i < d0 && 0 <= j < d1 * size && 0 <= k < d2 =>
            QuotientInRange(j, size, d1); t[i][j / size][k])
  }

  function Dequantised(q: Tensor<nat>, zero: Option<Tensor<nat>>, scale: Tensor<real>, d0: nat, d1: nat, d2: nat)
    : (w: Tensor<real>)
    requires Shaped(q, d0, d1, d2) && Shaped(scale, d0, d1, d2) && (zero.Some? ==> Shaped(zero.value, d0, d1, d2))
    ensures Shaped(w, d0, d1, d2)
    ensures forall i, j, k :: 0 <= i < d0 && 0 <= j < d1 && 0 <= k < d2 ==>
              w[i][j][k] == (q[i][j][k] as int - if zero.None? then 8 else zero.value[i][j][k]) as real * scale[i][j][k]
  {
    Build(d0, d1, d2, (i, j, k) requires 0 <= i < d0 && 0 <= j < d1 && 0 <= k < d2 =>
            (q[i][j][k] as int - if zero.None? then 8 else zero.value[i][j][k]) as real * scale[i][j][k])
  }

  /** decode_triton: the packed form back to real weights, E, K, N. */
  function DecodeTriton(wbytes: Tensor<nat>, st: Tensor<real>, zbytes: Option<Tensor<nat>>,
                        E: nat, half: nat, halfN: nat, G: nat, groupSize: nat): (w: Tensor<real>)
    requires groupSize > 0 && 2 * half == G * groupSize
    requires Shaped(wbytes, E, 2 * halfN, half) && Shaped(st, E, 2 * halfN, G)
    requires zbytes.Some? ==> Shaped(zbytes.value, E, halfN, G)
    ensures Shaped(w, E, 2 * half, 2 * halfN)
  {
    var q := Transpose12(InterleaveLast(wbytes, E, 2 * halfN, half), E, 2 * halfN, 2 * half);
    var scales := RepeatInterleave(Transpose12(st, E, 2 * halfN, G), E, G, 2 * halfN, groupSize);
    var zero :=
      if zbytes.None? then None
      else Some(RepeatInterleave(Transpose12(InterleaveMiddle(zbytes.value, E, halfN, G), E, 2 * halfN, G),
                                 E, G, 2 * halfN, groupSize));
    Dequantised(q, zero, scales, E, 2 * half, 2 * halfN)
  }

  lemma TransposeAt<T>(t: Tensor<T>, d0: nat, d1: nat, d2: nat, i: nat, j: nat, k: nat)
    requires Shaped(t, d0, d1, d2) && i < d0 && j < d1 && k < d2
    ensures Transpose12(t, d0, d1, d2)[i][k][j] == t[i][j][k]
  {
  }

  lemma RepeatAt<T>(t: Tensor<T>, d0: nat, d1: nat, d2: nat, size: nat, i: nat, j: nat, k: nat)
    requires Shaped(t, d0, d1, d2) && size > 0 && i < d0 && j < d1 * size && k < d2
    ensures 0 <= j / size < d1 && RepeatInterleave(t, d0, d1, d2, size)[i][j][k] == t[i][j / size][k]
  {
    QuotientInRange(j, size, d1);
  }

  /** Decoding what the adapter packed is the direct dequantisation of the AutoAWQ words, with the stored
      zero points or, without any, with the symmetric offset 8. */
  lemma DecodeOfAdapter(qw: Tensor<int>, scales: Tensor<real>, qz: Option<Tensor<int>>, reverse: seq<nat>,
                        E: nat, half: nat, np: nat, G: nat, groupSize: nat, e: nat, k: nat, n: nat)
    requires groupSize > 0 && 2 * half == G * groupSize && LaneOrder(reverse)
    requires Shaped(qw, E, 2 * half, np) && Shaped(scales, E, G, 8 * np)
    requires qz.Some? ==> Shaped(qz.value, E, G, np)
    requires e < E && k < 2 * half && n < 8 * np
    ensures 0 <= k / groupSize < G
    ensures DecodeTriton(PackedWeights(qw, reverse, E, half, np), Transpose12(scales, E, G, 8 * np),
                         if qz.None? then None else Some(PackedZeros(qz.value, reverse, E, G, np)),
                         E, half, 4 * np, G, groupSize)[e][k][n]
         == (AwqCode(qw[e][k], reverse, n) as int
             - if qz.None? then 8 else AwqCode(qz.value[e][k / groupSize], reverse, n)) as real
            * scales[e][k / groupSize][n]
  {
    hide PackedWeights, PackedZeros, ReadCode, ReadZero, AwqCode, InterleaveLast, InterleaveMiddle;
    hide Transpose12, RepeatInterleave, Dequantised;
    var N := 8 * np;
    var wbytes := PackedWeights(qw, reverse, E, half, np);
    var lanes := InterleaveLast(wbytes, E, N, half);
    TransposeAt(lanes, E, N, 2 * half, e, n, k);
    InterleaveLastAt(wbytes, E, N, half, e, n, k);
    PackedWeightsReadBack(qw, reverse, E, half, np, e, n, k);
    var st := Transpose12(scales, E, G, N);
    RepeatAt(Transpose12(st, E, N, G), E, G, N, groupSize, e, k, n);
    var g := k / groupSize;
    TransposeAt(st, E, N, G, e, n, g);
    TransposeAt(scales, E, G, N, e, g, n);
    if qz.Some? {
      ZeroOfAdapter(qz.value, reverse, E, np, G, groupSize, e, k, n);
    }
  }

  lemma ZeroOfAdapter(qz: Tensor<int>, reverse: seq<nat>, E: nat, np: nat, G: nat, groupSize: nat,
                      e: nat, k: nat, n: nat)
    requires groupSize > 0 && LaneOrder(reverse) && Shaped(qz, E, G, np)
    requires e < E && k < G * groupSize && n < 8 * np
    ensures 0 <= k / groupSize < G
    ensures RepeatInterleave(
              Transpose12(InterleaveMiddle(PackedZeros(qz, reverse, E, G, np), E, 4 * np, G), E, 8 * np, G),
              E, G, 8 * np, groupSize)[e][k][n]
         == AwqCode(qz[e][k / groupSize], reverse, n)
  {
    hide PackedZeros, ReadZero, AwqCode, InterleaveMiddle, Transpose12, RepeatInterleave;
    var zbytes := PackedZeros(qz, reverse, E, G, np);
    var lanes := InterleaveMiddle(zbytes, E, 4 * np, G);
    RepeatAt(Transpose12(lanes, E, 8 * np, G), E, G, 8 * np, groupSize, e, k, n);
    var g := k / groupSize;
    TransposeAt(lanes, E, 8 * np, G, e, n, g);
    InterleaveMiddleAt(zbytes, E, 4 * np, G, e, n, g);
    PackedZerosReadBack(qz, reverse, E, G, np, e, n, g);
  }
}
