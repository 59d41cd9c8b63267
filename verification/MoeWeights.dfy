/** The plain matrix product of a quantised projection, free of tiles, tables and packing, and its agreement
    with what the kernels store and with the AutoAWQ tensors the weights were converted from. */
module MoeWeights {
  import opened Arith
  import opened AwqLayout
  import opened MoeKernels
  import opened MoeLaunch
  import opened MoeProblem

  /** One packed projection: codes, scales, packed zero points. */
  datatype Weights = Weights(B: Tensor<nat>, S: Tensor<real>, Z: Tensor<nat>, E: nat, N: nat, K: nat, GK: nat) {
    ghost predicate Valid() {
      && GK > 0
      && Shaped(B, E, N, (K + 1) / 2)
      && Shaped(S, E, N, CDiv(K, GK))
      && Shaped(Z, E, (N + 1) / 2, CDiv(K, GK))
    }

    /** One dequantised weight: (code - zero point) * scale. */
    function Dequant(e: int, n: int, k: int): real
      requires Valid() && 0 <= e < E && 0 <= n < N && 0 <= k < K
    {
      CDivCovers(k, K, GK);
      assert 0 <= k / GK;
      (ReadCode(B, e, n, k) as real - ReadZero(Z, e, n, k / GK) as real) * S[e][n][k / GK]
    }
  }

  ghost predicate Matrix(A: seq<seq<real>>, cols: nat) {
    forall m :: 0 <= m < |A| ==> |A[m]| == cols
  }

  /** Row x of activations times column n of expert e's weights, up to hi. */
  function PlainDot(x: seq<real>, w: Weights, e: int, n: int, hi: nat): real
    requires w.Valid() && 0 <= e < w.E && 0 <= n < w.N && hi <= w.K == |x|
  {
    if hi == 0 then 0.0 else PlainDot(x, w, e, n, hi - 1) + x[hi - 1] * w.Dequant(e, n, hi - 1)
  }

  ghost predicate Routing(routing: seq<int>, slots: nat, E: nat) {
    |routing| == slots && forall t :: 0 <= t < slots ==> -1 <= routing[t] < E
  }

  /** Slot t of the routed product: zero for an expert of another rank. */
  function PlainCell(A: seq<seq<real>>, w: Weights, topK: nat, routing: seq<int>, t: int, n: int): real
    requires w.Valid() && topK > 0 && Matrix(A, w.K) && Routing(routing, |A| * topK, w.E)
    requires 0 <= t < |A| * topK && 0 <= n < w.N
  {
    QuotientInRange(t, topK, |A|);
    if routing[t] == -1 then 0.0 else PlainDot(A[t / topK], w, routing[t], n, w.K)
  }

  /** A problem multiplies these activations by these weights, whatever its tiles and table are. */
  ghost predicate Multiplies(p: Problem, A: seq<seq<real>>, w: Weights, topK: nat, routing: seq<int>) {
    && p.Valid() && p.A == A && p.topK == topK && p.routing == routing
    && p.B == w.B && p.S == w.S && p.Z == w.Z && p.E == w.E && p.N == w.N && p.K == w.K && p.GK == w.GK
  }

  lemma MultipliesShapes(p: Problem, A: seq<seq<real>>, w: Weights, topK: nat, routing: seq<int>)
    requires Multiplies(p, A, w, topK, routing)
    ensures w.Valid() && topK > 0 && Matrix(A, w.K) && Routing(routing, |A| * topK, w.E)
  {
  }

  lemma LoadsArePlain(p: Problem, A: seq<seq<real>>, w: Weights, topK: nat, routing: seq<int>,
                      e: int, n: int, k: nat, g: nat)
    requires Multiplies(p, A, w, topK, routing) && w.Valid()
    requires 0 <= e < w.E && 0 <= n < w.N && k < w.K && g < p.Groups()
    ensures p.QVal(e, n, k) == ReadCode(w.B, e, n, k)
    ensures p.ZVal(e, n, g) == ReadZero(w.Z, e, n, g)
    ensures p.SVal(e, n, g) == w.S[e][n][g]
  {
    hide Problem.Routed, ReadCode, ReadZero, CDiv;
  }

  lemma FactorIsPlain(p: Problem, A: seq<seq<real>>, w: Weights, topK: nat, routing: seq<int>,
                      e: int, n: int, k: nat)
    requires Multiplies(p, A, w, topK, routing) && w.Valid()
    requires 0 <= e < w.E && 0 <= n < w.N && k < w.K
    ensures 0 <= k / p.GK < p.Groups()
    ensures (p.QVal(e, n, k) as real - p.ZVal(e, n, k / p.GK) as real) * p.SVal(e, n, k / p.GK) == w.Dequant(e, n, k)
  {
    hide Problem.Tensors, Problem.Routed, ReadCode, ReadZero, CDiv, Problem.QVal, Problem.ZVal, Problem.SVal, Weights.Valid;
    CDivCovers(k, w.K, w.GK);
    LoadsArePlain(p, A, w, topK, routing, e, n, k, k / w.GK);
  }

  lemma TermIsPlain(p: Problem, A: seq<seq<real>>, w: Weights, topK: nat, routing: seq<int>,
                    e: int, t: int, n: int, k: nat)
    requires Multiplies(p, A, w, topK, routing) && w.Valid() && Matrix(A, w.K)
    requires 0 <= e < w.E && 0 <= t < |A| * topK && 0 <= n < w.N && k < w.K <= p.Span()
    ensures 0 <= t / topK < |A| && p.Term(e, t, n, k) == A[t / topK][k] * w.Dequant(e, n, k)
  {
    hide Problem.Routed, ReadCode, ReadZero, CDiv, Problem.QVal, Problem.ZVal, Problem.SVal, Weights.Dequant;
    QuotientInRange(t, topK, |A|);
    FactorIsPlain(p, A, w, topK, routing, e, n, k);
  }

  lemma {:induction false} ProductIsPlain(p: Problem, A: seq<seq<real>>, w: Weights, topK: nat, routing: seq<int>,
                                          e: int, t: int, n: int, hi: nat)
    requires Multiplies(p, A, w, topK, routing) && w.Valid() && Matrix(A, w.K)
    requires 0 <= e < w.E && 0 <= t < |A| * topK && 0 <= n < w.N && hi <= w.K <= p.Span()
    ensures 0 <= t / topK < |A| && p.Product(e, t, n, 0, hi) == PlainDot(A[t / topK], w, e, n, hi)
  {
    hide Problem.Tensors, Problem.Routed, Problem.Term, Weights.Dequant, Weights.Valid;
    QuotientInRange(t, topK, |A|);
    if hi > 0 {
      ProductIsPlain(p, A, w, topK, routing, e, t, n, hi - 1);
      TermIsPlain(p, A, w, topK, routing, e, t, n, hi - 1);
    }
  }

  // ------------------------------------------------- what the plain product is

  /** The plain product is zero on zero activations and moves, with one activation, by the change times that
      one dequantised weight; these two facts determine it. */
  lemma {:induction false} PlainDotMoves(x: seq<real>, w: Weights, e: int, n: int, hi: nat, k: nat, a: real)
    requires w.Valid() && 0 <= e < w.E && 0 <= n < w.N && hi <= w.K == |x| && k < w.K
    ensures 0 <= k / w.GK < CDiv(w.K, w.GK)
    ensures PlainDot(x[k := a], w, e, n, hi) - PlainDot(x, w, e, n, hi)
         == if k < hi then
              (a - x[k]) * ((ReadCode(w.B, e, n, k) as real - ReadZero(w.Z, e, n, k / w.GK) as real) * w.S[e][n][k / w.GK])
            else 0.0
  {
    hide Weights.Dequant, ReadCode, ReadZero, CDiv, Weights.Valid;
    DequantIs(w, e, n, k);
    SplitDifference(a, x[k], w.Dequant(e, n, k));
    if hi > 0 {
      PlainDotMoves(x, w, e, n, hi - 1, k, a);
    }
  }

  lemma SplitDifference(a: real, b: real, d: real)
    ensures (a - b) * d == a * d - b * d
  {
  }

  lemma DequantIs(w: Weights, e: int, n: int, k: nat)
    requires w.Valid() && 0 <= e < w.E && 0 <= n < w.N && k < w.K
    ensures 0 <= k / w.GK < CDiv(w.K, w.GK)
    ensures w.Dequant(e, n, k)
         == (ReadCode(w.B, e, n, k) as real - ReadZero(w.Z, e, n, k / w.GK) as real) * w.S[e][n][k / w.GK]
  {
    hide ReadCode, ReadZero, CDiv;
    CDivCovers(k, w.K, w.GK);
  }

  lemma {:induction false} PlainDotOfZeros(x: seq<real>, w: Weights, e: int, n: int, hi: nat)
    requires w.Valid() && 0 <= e < w.E && 0 <= n < w.N && hi <= w.K == |x|
    requires forall k :: 0 <= k < |x| ==> x[k] == 0.0
    ensures PlainDot(x, w, e, n, hi) == 0.0
  {
    hide Weights.Valid, Weights.Dequant;
    if hi > 0 {
      PlainDotOfZeros(x, w, e, n, hi - 1);
    }
  }

  /** A slot's cell is zero for an expert of another rank; otherwise one activation A[m][k] moves exactly the
      cells of token m's own top_k slots, by its change times the weight of the slot's expert. */
  lemma PlainCellMoves(A: seq<seq<real>>, w: Weights, topK: nat, routing: seq<int>, t: int, n: int, m: nat, k: nat, a: real)
    requires w.Valid() && topK > 0 && Matrix(A, w.K) && Routing(routing, |A| * topK, w.E)
    requires 0 <= t < |A| * topK && 0 <= n < w.N && m < |A| && k < w.K
    ensures 0 <= k / w.GK < CDiv(w.K, w.GK)
    ensures PlainCell(A[m := A[m][k := a]], w, topK, routing, t, n) - PlainCell(A, w, topK, routing, t, n)
         == if routing[t] != -1 && m * topK <= t < m * topK + topK then
              (a - A[m][k]) * ((ReadCode(w.B, routing[t], n, k) as real - ReadZero(w.Z, routing[t], n, k / w.GK) as real)
                               * w.S[routing[t]][n][k / w.GK])
            else 0.0
  {
    hide ReadCode, ReadZero, CDiv, Weights.Valid, PlainDot;
    TokenOfSlot(t, topK, |A|, m);
    if w.E > 0 { DequantIs(w, 0, n, k); }
    if routing[t] != -1 {
      PlainDotMoves(A[t / topK], w, routing[t], n, w.K, k, a);
    } else {
      GroupInRange(w, k);
    }
  }

  lemma GroupInRange(w: Weights, k: nat)
    requires w.Valid() && k < w.K
    ensures 0 <= k / w.GK < CDiv(w.K, w.GK)
  {
    hide CDiv;
    CDivCovers(k, w.K, w.GK);
  }

  lemma TokenOfSlot(t: int, topK: nat, tokens: nat, m: nat)
    requires topK > 0 && 0 <= t < tokens * topK
    ensures 0 <= t / topK < tokens && (t / topK == m <==> m * topK <= t < m * topK + topK)
  {
    QuotientInRange(t, topK, tokens);
    if m * topK <= t < m * topK + topK { DivModUnique(t, topK, m, t - m * topK); }
  }

  lemma PlainCellOfZeros(A: seq<seq<real>>, w: Weights, topK: nat, routing: seq<int>, t: int, n: int)
    requires w.Valid() && topK > 0 && Matrix(A, w.K) && Routing(routing, |A| * topK, w.E)
    requires 0 <= t < |A| * topK && 0 <= n < w.N
    requires routing[t] == -1 || forall m, k :: 0 <= m < |A| && 0 <= k < w.K ==> A[m][k] == 0.0
    ensures PlainCell(A, w, topK, routing, t, n) == 0.0
  {
    hide Weights.Valid, PlainDot;
    QuotientInRange(t, topK, |A|);
    if routing[t] != -1 { PlainDotOfZeros(A[t / topK], w, routing[t], n, w.K); }
  }

  /** The cell a kernel stores is the plain product: independent of the table and of every block size. */
  lemma CellIsPlain(p: Problem, A: seq<seq<real>>, w: Weights, topK: nat, routing: seq<int>, t: int, n: int)
    requires Multiplies(p, A, w, topK, routing)
    requires 0 <= t < |A| * topK && 0 <= n < w.N
    ensures w.Valid() && topK > 0 && Matrix(A, w.K) && Routing(routing, |A| * topK, w.E)
    ensures p.Cell(t, n) == PlainCell(A, w, topK, routing, t, n)
  {
    hide Problem.Tensors, Problem.Product, PlainDot;
    MultipliesShapes(p, A, w, topK, routing);
    p.SpanCovers();
    if routing[t] != -1 {
      ProductIsPlain(p, A, w, topK, routing, routing[t], t, n, w.K);
    }
  }

  /** Two launches of any two of the kernels, with any tables, tiles and program orders, that multiply the
      same operands into the same view of equal buffers leave equal buffers. */
  lemma KernelsAgree(p: Problem, q: Problem, A: seq<seq<real>>, w: Weights, topK: nat, routing: seq<int>,
                     v: View, before: seq<real>, afterP: seq<real>, afterQ: seq<real>)
    requires Multiplies(p, A, w, topK, routing) && Multiplies(q, A, w, topK, routing)
    requires |before| == |afterP| == |afterQ| && v.Fits(|A| * topK, w.N, |before|)
    requires Computed(p, v, before, afterP) && Computed(q, v, before, afterQ)
    ensures afterP == afterQ
  {
    hide Problem.Valid, Problem.Cell, PlainCell, View.Addr;
    forall x | 0 <= x < |before| ensures afterP[x] == afterQ[x] {
      if v.IsCell(|A| * topK, w.N, x) {
        var t, n :| 0 <= t < |A| * topK && 0 <= n < w.N && v.Addr(t, n) == x;
        CellIsPlain(p, A, w, topK, routing, t, n);
        CellIsPlain(q, A, w, topK, routing, t, n);
      }
    }
  }

  /** What BuildCorrection makes of the packed zero points is the tensor the correction kernel needs. */
  lemma CorrectionIsReady(p: Problem, R: Tensor<real>)
    requires p.Valid() && p.N % 2 == 0 && Shaped(R, p.E, p.N, p.Groups())
    requires forall e, n, g :: 0 <= e < p.E && 0 <= n < p.N && 0 <= g < p.Groups() ==>
               R[e][n][g] == ReadZero(p.Z, e, n, g) as real * p.S[e][n][g]
    ensures IsCorrection(p, R)
  {
    hide Problem.Routed, ReadZero;
  }

  /** The packed projection of an AutoAWQ layer. */
  function FromAwq(qweight: Tensor<int>, scales: Tensor<real>, qzeros: Tensor<int>, reverse: seq<nat>,
                   E: nat, halfK: nat, np: nat, GK: nat): (w: Weights)
    requires GK > 0 && LaneOrder(reverse)
    requires Shaped(qweight, E, 2 * halfK, np)
    requires Shaped(scales, E, CDiv(2 * halfK, GK), 8 * np) && Shaped(qzeros, E, CDiv(2 * halfK, GK), np)
    ensures w.Valid()
  {
    var G := CDiv(2 * halfK, GK);
    Weights(PackedWeights(qweight, reverse, E, halfK, np), Transpose12(scales, E, G, 8 * np),
            PackedZeros(qzeros, reverse, E, G, np), E, 8 * np, 2 * halfK, GK)
  }

  /** End to end: the weight every kernel multiplies by is AutoAWQ's (code - zero point) * scale. */
  lemma DequantIsAwq(qweight: Tensor<int>, scales: Tensor<real>, qzeros: Tensor<int>, reverse: seq<nat>,
                     E: nat, halfK: nat, np: nat, GK: nat, e: nat, n: nat, k: nat)
    requires GK > 0 && LaneOrder(reverse)
    requires Shaped(qweight, E, 2 * halfK, np)
    requires Shaped(scales, E, CDiv(2 * halfK, GK), 8 * np) && Shaped(qzeros, E, CDiv(2 * halfK, GK), np)
    requires e < E && n < 8 * np && k < 2 * halfK
    ensures k / GK < CDiv(2 * halfK, GK)
    ensures FromAwq(qweight, scales, qzeros, reverse, E, halfK, np, GK).Dequant(e, n, k)
         == (AwqCode(qweight[e][k], reverse, n) as real - AwqCode(qzeros[e][k / GK], reverse, n) as real)
            * scales[e][k / GK][n]
  {
    hide PackedWeights, PackedZeros, ReadCode, ReadZero, AwqCode, Transpose12, CDiv;
    var G := CDiv(2 * halfK, GK);
    CDivCovers(k, 2 * halfK, GK);
    PackedWeightsReadBack(qweight, reverse, E, halfK, np, e, n, k);
    PackedZerosReadBack(qzeros, reverse, E, G, np, e, n, k / GK);
    TransposeAt(scales, E, G, 8 * np, e, k / GK, n);
  }
}
