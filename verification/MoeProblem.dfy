/** One routed INT4 matrix product: activations, packed weights, routing, its block-aligned table, and
    what every output cell is meant to hold. Exact real arithmetic. */
module MoeProblem {
  import opened Arith
  import opened AwqLayout
  import opened Swizzle

  /** The output of moe_align_block_size: token slots in blocks, one expert per block, filled up to npost. */
  datatype Table = Table(sorted: seq<int>, experts: seq<int>, npost: nat) {

    predicate Blocked(block: nat) {
      block > 0 && npost % block == 0 && npost <= |sorted| && npost / block <= |experts|
    }

    ghost predicate HasSlot(t: int) {
      exists i :: 0 <= i < npost <= |sorted| && sorted[i] == t
    }

    /** Every valid slot number occurs, and only once; anything else is padding. */
    ghost predicate Covers(slots: nat) {
      && npost <= |sorted|
      && (forall i :: 0 <= i < npost ==> 0 <= sorted[i])
      && (forall t :: 0 <= t < slots ==> HasSlot(t))
      && (forall i, j :: 0 <= i < j < npost && sorted[i] == sorted[j] ==> sorted[i] >= slots)
    }

    /** A block's expert is the one its slots were routed to; -1 marks a block of another rank. */
    ghost predicate Routes(block: nat, routing: seq<int>, E: nat) {
      && Blocked(block)
      && (forall i :: 0 <= i < npost && 0 <= sorted[i] < |routing| && 0 <= i / block < |experts| ==>
            experts[i / block] == routing[sorted[i]])
      && (forall b :: 0 <= b < npost / block ==> -1 <= experts[b] < E)
    }

    /** The contract of moe_align_block_size. Slots are numbered t = token * top_k + choice, and
        routing[t] is the (mapped) expert chosen for it. */
    ghost predicate Aligned(block: nat, routing: seq<int>, E: nat) {
      Covers(|routing|) && Routes(block, routing, E)
    }

    ghost function Position(t: int): (i: int)
      requires HasSlot(t)
      ensures 0 <= i < npost <= |sorted| && sorted[i] == t
    {
      var i :| 0 <= i < npost <= |sorted| && sorted[i] == t;
      i
    }

    lemma PositionUnique(i: int, slots: nat)
      requires Covers(slots) && 0 <= i < npost && sorted[i] < slots
      ensures HasSlot(sorted[i]) && Position(sorted[i]) == i
    {
      var p := Position(sorted[i]);
      assert p == i || p < i || i < p;
    }
  }

  datatype Problem = Problem(
    A: seq<seq<real>>, B: Tensor<nat>, S: Tensor<real>, Z: Tensor<nat>,
    E: nat, N: nat, K: nat, topK: nat, routing: seq<int>,
    BM: nat, BN: nat, BK: nat, GK: nat, GM: nat,
    table: Table)
  {
    function NumValid(): nat {
      |A| * topK
    }

    /** Number of scale groups along K; the last one may be short. */
    function Groups(): nat
      requires GK > 0
    {
      CDiv(K, GK)
    }

    predicate Sizes() {
      topK > 0 && BM > 0 && BN > 0 && BK > 0 && GK > 0 && GM > 0 && GK % BK == 0
    }

    ghost predicate Tensors()
      requires GK > 0
    {
      && (forall m :: 0 <= m < |A| ==> |A[m]| == K)
      && Shaped(B, E, N, (K + 1) / 2)
      && Shaped(S, E, N, Groups())
      && Shaped(Z, E, (N + 1) / 2, Groups())
    }

    ghost predicate Routed() {
      && |routing| == NumValid()
      && (forall t :: 0 <= t < |routing| ==> -1 <= routing[t] < E)
      && table.Aligned(BM, routing, E)
    }

    ghost predicate Valid() {
      Sizes() && Tensors() && Routed()
    }

    // ------------------------------------------------------- masked loads

    /** tl.load(A + (tok // top_k) * stride + k, mask=(tok < num_valid) & (k < K), other=0) */
    function AVal(t: int, k: int): real
      requires Valid() && 0 <= t && 0 <= k
    {
      if t < NumValid() && k < K then
        QuotientInRange(t, topK, |A|); A[t / topK][k]
      else 0.0
    }

    /** The code of weight (e, n, k), zero under a false mask. */
    function QVal(e: int, n: int, k: int): nat
      requires Valid() && 0 <= e < E && 0 <= n && 0 <= k
    {
      if n < N && k < K then ReadCode(B, e, n, k) else 0
    }

    function ZVal(e: int, n: int, g: int): nat
      requires Valid() && 0 <= e < E && 0 <= n && 0 <= g < Groups()
    {
      if n < N then ReadZero(Z, e, n, g) else 0
    }

    function SVal(e: int, n: int, g: int): real
      requires Valid() && 0 <= e < E && 0 <= n && 0 <= g < Groups()
    {
      if n < N then S[e][n][g] else 0.0
    }

    // ---------------------------------------------- what a cell must hold

    function Span(): nat
      requires GK > 0
    {
      Groups() * GK
    }

    /** One dequantised product: activation times (code - zero point) * scale. */
    function Term(e: int, t: int, n: int, k: int): real
      requires Valid() && 0 <= e < E && 0 <= t && 0 <= n && 0 <= k < Span()
    {
      QuotientInRange(k, GK, Groups());
      AVal(t, k) * ((QVal(e, n, k) as real - ZVal(e, n, k / GK) as real) * SVal(e, n, k / GK))
    }

    /** The plain matrix product over k in [lo, hi). */
    function Product(e: int, t: int, n: int, lo: int, hi: int): real
      requires Valid() && 0 <= e < E && 0 <= t && 0 <= n && 0 <= lo <= hi <= Span()
      decreases hi - lo
    {
      if hi == lo then 0.0 else Product(e, t, n, lo, hi - 1) + Term(e, t, n, hi - 1)
    }

    function Cell(t: int, n: int): real
      requires Valid() && 0 <= t < NumValid() && 0 <= n < N
    {
      SpanCovers();
      if routing[t] == -1 then 0.0 else Product(routing[t], t, n, 0, K)
    }

    lemma SpanCovers()
      requires Valid()
      ensures K <= Span()
    {
      assert K + GK - 1 == Groups() * GK + (K + GK - 1) % GK;
    }

    lemma GroupIndex(start: int)
      requires Valid() && 0 <= start < K && start % GK == 0
      ensures 0 <= start / GK < Groups() && start == start / GK * GK && start + GK <= Span()
    {
      hide Tensors, Routed;
      CDivCovers(start, K, GK);
      MulMonotone(start / GK + 1, Groups(), GK);
    }

    /** Past K every activation is masked to zero, so a short last group adds nothing. */
    lemma {:induction false} ProductTail(e: int, t: int, n: int, hi: int)
      requires Valid() && 0 <= e < E && 0 <= t && 0 <= n && K <= hi <= Span()
      ensures Product(e, t, n, 0, hi) == Product(e, t, n, 0, K)
      decreases hi
    {
      hide QVal, ZVal, SVal, Tensors, Routed;
      if hi > K {
        ProductTail(e, t, n, hi - 1);
      }
    }

    // -------------------------------------------------- the algebraic form

    /** The integer-code dot product and the activation sum the algebraic kernels accumulate. */
    function QDot(e: int, t: int, n: int, lo: int, hi: int): real
      requires Valid() && 0 <= e < E && 0 <= t && 0 <= n && 0 <= lo <= hi
      decreases hi - lo
    {
      if hi == lo then 0.0 else QDot(e, t, n, lo, hi - 1) + AVal(t, hi - 1) * QVal(e, n, hi - 1) as real
    }

    function ASum(t: int, lo: int, hi: int): real
      requires Valid() && 0 <= t && 0 <= lo <= hi
      decreases hi - lo
    {
      if hi == lo then 0.0 else ASum(t, lo, hi - 1) + AVal(t, hi - 1)
    }

    /** A@((Q - z) * s) == (A@Q) * s - sum(A) * (z * s) on any part of a group, added to what precedes it. */
    lemma {:induction false} GroupAlgebra(e: int, t: int, n: int, g: int, hi: int)
      requires Valid() && 0 <= e < E && 0 <= t && 0 <= n && 0 <= g < Groups()
      requires 0 <= g * GK <= hi <= g * GK + GK && g * GK + GK <= Span()
      ensures Product(e, t, n, 0, g * GK) + QDot(e, t, n, g * GK, hi) * SVal(e, n, g)
                - ASum(t, g * GK, hi) * (ZVal(e, n, g) as real * SVal(e, n, g))
           == Product(e, t, n, 0, hi)
      decreases hi
    {
      hide AVal, QVal, ZVal, SVal, Tensors, Routed;
      var lo := g * GK;
      if hi > lo {
        var k := hi - 1;
        GroupAlgebra(e, t, n, g, k);
        DivModUnique(k, GK, g, k - lo);
        Distribute(QDot(e, t, n, lo, k), ASum(t, lo, k), AVal(t, k), QVal(e, n, k) as real,
                   ZVal(e, n, g) as real, SVal(e, n, g));
      }
    }

    // ------------------------------------------------------ lanes of the grid

    function NumM(): nat
      requires BM > 0
    {
      CDiv(|table.sorted|, BM)
    }

    function NumN(): nat
      requires BN > 0
    {
      CDiv(N, BN)
    }

    function Grid(): nat
      requires BM > 0 && BN > 0
    {
      NumM() * NumN()
    }

    /** The tile of a program. */
    function TileM(pid: nat): int
      requires Sizes() && pid < Grid()
    {
      PidM(pid, NumM(), NumN(), GM)
    }

    function TileN(pid: nat): int
      requires Sizes() && pid < Grid()
    {
      PidN(pid, NumM(), NumN(), GM)
    }

    /** The one program that stores cell (t, n). */
    ghost function Owner(t: int, n: int): int
      requires Sizes() && table.HasSlot(t) && 0 <= n < N
    {
      PidOf(table.Position(t) / BM, n / BN, NumM(), NumN(), GM)
    }

    /** Every valid cell has a program and a lane, inside the part of the table that is filled. */
    lemma OwnerHasLane(t: int, n: int)
      requires Sizes() && table.HasSlot(t) && 0 <= n < N
      ensures 0 <= Owner(t, n) < Grid()
      ensures TileM(Owner(t, n)) * BM + table.Position(t) % BM == table.Position(t) < table.npost
      ensures TileN(Owner(t, n)) * BN + n % BN == n
    {
      hide PidM, PidN, PidOf, CDiv;
      CDivCovers(table.Position(t), |table.sorted|, BM);
      CDivCovers(n, N, BN);
      TileRoundTrip(table.Position(t) / BM, n / BN, NumM(), NumN(), GM);
    }

    /** A lane that stores a valid cell belongs to that cell's program, at the one place in its tile. */
    lemma LaneIsOwners(pid: int, i: int, j: int)
      requires Sizes() && table.Covers(NumValid()) && 0 <= pid < Grid() && 0 <= i < BM && 0 <= j < BN
      requires 0 <= TileM(pid) && TileM(pid) * BM + i < table.npost
      requires 0 <= TileN(pid) && TileN(pid) * BN + j < N
      requires 0 <= TileM(pid) * BM + i && table.sorted[TileM(pid) * BM + i] < NumValid()
      ensures var t, n := table.sorted[TileM(pid) * BM + i], TileN(pid) * BN + j;
              table.HasSlot(t) && 0 <= n && Owner(t, n) == pid
              && table.Position(t) == TileM(pid) * BM + i && n % BN == j
    {
      hide PidM, PidN, PidOf, CDiv;
      var m, c := TileM(pid), TileN(pid);
      table.PositionUnique(m * BM + i, NumValid());
      DivModUnique(m * BM + i, BM, m, i);
      assert c * BN >= 0;
      DivModUnique(c * BN + j, BN, c, j);
      PidRoundTrip(pid, NumM(), NumN(), GM);
    }

    /** The unmasked loads of a tile that is not skipped stay inside both tables. */
    lemma TableInBounds(pid: int)
      requires Sizes() && table.Blocked(BM) && 0 <= pid < Grid() && TileM(pid) * BM < table.npost
      ensures 0 <= TileM(pid) < |table.experts| && TileM(pid) < table.npost / BM
      ensures 0 <= TileM(pid) * BM && TileM(pid) * BM + BM <= table.npost <= |table.sorted|
      ensures 0 <= TileN(pid) < NumN()
    {
      hide PidM, PidN, PidOf, CDiv;
      PidRoundTrip(pid, NumM(), NumN(), GM);
      BlockInRange(TileM(pid), BM, table.npost);
    }

    /** The block's expert is the expert each of its valid slots was routed to. */
    lemma BlockExpert(m: int, i: int)
      requires table.Routes(BM, routing, E) && 0 <= i < BM && 0 <= m < |table.experts|
      requires 0 <= m * BM + i < table.npost && 0 <= table.sorted[m * BM + i] < |routing|
      ensures table.experts[m] == routing[table.sorted[m * BM + i]]
    {
      DivModUnique(m * BM + i, BM, m, i);
    }
  }

  lemma BlockInRange(m: int, block: int, total: int)
    requires block > 0 && m >= 0 && total % block == 0 && m * block < total
    ensures 0 <= m * block && m * block + block <= total && m < total / block
  {
    var blocks := total / block;
    if m >= blocks {
      MulMonotone(blocks, m, block);
    }
    MulMonotone(m + 1, blocks, block);
  }

  lemma Distribute(qdot: real, asum: real, a: real, q: real, z: real, s: real)
    ensures (qdot + a * q) * s - (asum + a) * (z * s) == qdot * s - asum * (z * s) + a * ((q - z) * s)
  {
    assert (asum + a) * (z * s) == asum * (z * s) + a * (z * s);
    assert (q - z) * s == q * s - z * s;
    assert a * (q * s - z * s) == a * (q * s) - a * (z * s);
  }
}
