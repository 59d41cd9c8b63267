/** R9700HybridWNA16Experts: one guarded substitution of the W1 product, over two workspaces of which one
    holds the first and then, in the same memory, the third intermediate cache. */
module HybridApply {
  import opened Prelude
  import opened Arith
  import opened AwqLayout
  import opened MoeKernels
  import opened MoeLaunch
  import opened MoeProblem
  import opened MoeWeights

  /** What one call is given: the tensors as values, the facts the guard tests, the rowwise activation and
      input quantisation, the stock tile sizes, and moe_align_block_size by block size. */
  datatype Call = Call(
    hidden: seq<seq<real>>, hiddenSize: nat, contiguous: bool, halfFloat: bool, silu: bool,
    w1Bytes: bool, w2Bytes: bool, topkDims: nat, topK: nat, routing: seq<int>, topkWeights: seq<real>,
    weightOnInput: bool, blockM: nat, blockN: nat, groupM: nat,
    activation: seq<real> -> seq<real>, quantise: seq<real> -> seq<real>, align: nat -> Table)
  {
    function Slots(): nat {
      |hidden| * topK
    }
  }

  ghost predicate GoodCall(c: Call, w1: Weights, w2: Weights) {
    && w1.Valid() && w2.Valid() && w1.E == w2.E && c.topK > 0
    && c.hiddenSize == w1.K == w2.N && Matrix(c.hidden, w1.K)
    && Routing(c.routing, c.Slots(), w1.E) && |c.topkWeights| == c.Slots()
    && c.blockM > 0 && c.blockN > 0 && c.groupM > 0
    && (forall x :: |x| == w1.N ==> |c.activation(x)| == w2.K)
    && (forall x :: |x| == w2.K ==> |c.quantise(x)| == w2.K)
    && (forall b :: 0 < b ==> c.align(b).Aligned(b, c.routing, w1.E))
  }

  // ------------------------------------------------ the unaliased pipeline

  /** Row t after W1, the activation and the input quantisation of W2. */
  function Activated(c: Call, w1: Weights, w2: Weights, t: int): (row: seq<real>)
    requires GoodCall(c, w1, w2) && 0 <= t < c.Slots()
    ensures |row| == w2.K
  {
    c.quantise(c.activation(seq(w1.N, n requires 0 <= n < w1.N =>
      PlainCell(c.hidden, w1, c.topK, c.routing, t, n))))
  }

  /** Slot t after W2, with its routing weight unless the input already carries it. */
  function SecondCell(c: Call, w1: Weights, w2: Weights, t: int, k: int): real
    requires GoodCall(c, w1, w2) && 0 <= t < c.Slots() && 0 <= k < w2.N
  {
    (if c.routing[t] == -1 then 0.0 else PlainDot(Activated(c, w1, w2, t), w2, c.routing[t], k, w2.K))
    * (if c.weightOnInput then 1.0 else c.topkWeights[t])
  }

  function SumChoices(c: Call, w1: Weights, w2: Weights, m: int, k: int, count: nat): real
    requires GoodCall(c, w1, w2) && 0 <= m < |c.hidden| && 0 <= k < w2.N && count <= c.topK
  {
    if count == 0 then 0.0
    else
      RowMajorInRange(m, count - 1, |c.hidden|, c.topK);
      SumChoices(c, w1, w2, m, k, count - 1) + SecondCell(c, w1, w2, m * c.topK + (count - 1), k)
  }

  /** The output of the pipeline with separate buffers. */
  function Expected(c: Call, w1: Weights, w2: Weights, m: int, k: int): real
    requires GoodCall(c, w1, w2) && 0 <= m < |c.hidden| && 0 <= k < w2.N
  {
    SumChoices(c, w1, w2, m, k, c.topK)
  }

  // --------------------------------------------------------- the stages

  ghost predicate HoldsFirst(c: Call, w1: Weights, w2: Weights, buf: seq<real>)
    requires GoodCall(c, w1, w2)
  {
    && c.Slots() * w1.N <= |buf|
    && forall t, n :: 0 <= t < c.Slots() && 0 <= n < w1.N ==> FirstAt(c, w1, w2, buf, t, n)
  }

  ghost predicate FirstAt(c: Call, w1: Weights, w2: Weights, buf: seq<real>, t: int, n: int)
    requires GoodCall(c, w1, w2) && 0 <= t < c.Slots() && 0 <= n < w1.N
  {
    && 0 <= View(w1.N, 1).Addr(t, n) < |buf|
    && buf[View(w1.N, 1).Addr(t, n)] == PlainCell(c.hidden, w1, c.topK, c.routing, t, n)
  }

  ghost predicate HoldsSecond(c: Call, w1: Weights, w2: Weights, buf: seq<real>)
    requires GoodCall(c, w1, w2)
  {
    && c.Slots() * w2.N <= |buf|
    && forall t, k :: 0 <= t < c.Slots() && 0 <= k < w2.N ==> SecondAt(c, w1, w2, buf, t, k)
  }

  ghost predicate SecondAt(c: Call, w1: Weights, w2: Weights, buf: seq<real>, t: int, k: int)
    requires GoodCall(c, w1, w2) && 0 <= t < c.Slots() && 0 <= k < w2.N
  {
    && 0 <= View(w2.N, 1).Addr(t, k) < |buf|
    && buf[View(w2.N, 1).Addr(t, k)] == SecondCell(c, w1, w2, t, k)
  }

  /** The contract of the stock WNA16 kernel: every valid cell of a contiguous output is the product, times
      the slot's weight when asked to. */
  method StockGemm(p: Problem, v: View, weights: Option<seq<real>>, out: array<real>)
    requires p.Valid() && v.Fits(p.NumValid(), p.N, out.Length)
    requires weights.Some? ==> |weights.value| == p.NumValid()
    modifies out
    ensures forall t, n :: 0 <= t < p.NumValid() && 0 <= n < p.N ==>
              out[v.Addr(t, n)] == p.Cell(t, n) * if weights.Some? then weights.value[t] else 1.0
  {
    hide Problem.Tensors, Problem.Routed, Problem.Cell, View.Addr;
    forall t, n | 0 <= t < p.NumValid() && 0 <= n < p.N {
      out[v.Addr(t, n)] := p.Cell(t, n) * if weights.Some? then weights.value[t] else 1.0;
    }
  }

  // ------------------------------------------------------------- W1

  /** The problem a W1 launch solves: the caller's tiles over the caller's table. */
  function FirstProblem(c: Call, w1: Weights, table: Table, bm: nat, bn: nat, bk: nat, gm: nat): Problem {
    Problem(c.hidden, w1.B, w1.S, w1.Z, w1.E, w1.N, w1.K, c.topK, c.routing, bm, bn, bk, w1.GK, gm, table)
  }

  lemma FirstMultiplies(c: Call, w1: Weights, w2: Weights, bm: nat, bn: nat, bk: nat, gm: nat)
    requires GoodCall(c, w1, w2) && bm > 0 && bn > 0 && bk > 0 && gm > 0 && w1.GK % bk == 0
    ensures Multiplies(FirstProblem(c, w1, c.align(bm), bm, bn, bk, gm), c.hidden, w1, c.topK, c.routing)
  {
    hide Shaped, Table.Covers, Table.Routes;
    assert c.align(bm).Aligned(bm, c.routing, w1.E);
  }

  /** The cells W1 stores, whichever kernel stored them, are the first cache of the pipeline. */
  lemma FirstFromCells(c: Call, w1: Weights, w2: Weights, p: Problem, buf: seq<real>)
    requires GoodCall(c, w1, w2) && Multiplies(p, c.hidden, w1, c.topK, c.routing)
    requires View(w1.N, 1).Fits(c.Slots(), w1.N, |buf|) && c.Slots() * w1.N <= |buf|
    requires forall t, n :: 0 <= t < c.Slots() && 0 <= n < w1.N ==> buf[View(w1.N, 1).Addr(t, n)] == p.Cell(t, n)
    ensures HoldsFirst(c, w1, w2, buf)
  {
    hide Problem.Valid, Problem.Cell, PlainCell, View.Addr, Weights.Valid;
    forall t, n | 0 <= t < c.Slots() && 0 <= n < w1.N ensures FirstAt(c, w1, w2, buf, t, n) {
      CellIsPlain(p, c.hidden, w1, c.topK, c.routing, t, n);
    }
  }

  /** _small_w1: 16 x 128 tiles, 32 columns a step, groups of 128, the correction tensor of the layer. */
  method SmallW1(c: Call, w1: Weights, ghost w2: Weights, correction: Tensor<real>, table: Table, out: array<real>)
    requires GoodCall(c, w1, w2) && w1.GK == 128 && table == c.align(16)
    requires c.Slots() * w1.N <= out.Length && LayerCorrection(w1, correction)
    modifies out
    ensures HoldsFirst(c, w1, w2, out[..])
  {
    hide Weights.Valid, Problem.Valid, Problem.Cell, PlainCell, View.Addr, Computed, LayerCorrection, IsCorrection;
    FirstMultiplies(c, w1, w2, 16, 128, 32, 1);
    var p := FirstProblem(c, w1, table, 16, 128, 32, 1);
    ContiguousFits(c.Slots(), w1.N, out.Length);
    LayerCorrectionIsReady(c, w1, w2, p, correction);
    var v := View(w1.N, 1);
    ghost var before := out[..];
    Launch(p, Correction(correction), v, Ascending(p.Grid()), out);
    ComputedCells(p, v, before, out[..]);
    FirstFromCells(c, w1, w2, p, out[..]);
  }

  function Ascending(n: nat): (order: seq<nat>)
    ensures forall pid: nat :: pid in order <==> pid < n
  {
    if n == 0 then [] else Ascending(n - 1) + [n - 1]
  }

  lemma ComputedCells(p: Problem, v: View, before: seq<real>, after: seq<real>)
    requires p.Valid() && |before| == |after| && v.Fits(p.NumValid(), p.N, |before|)
    requires Computed(p, v, before, after)
    ensures forall t, n :: 0 <= t < p.NumValid() && 0 <= n < p.N ==> after[v.Addr(t, n)] == p.Cell(t, n)
  {
  }

  /** What the constructor's BuildCorrection leaves in the layer. */
  ghost predicate LayerCorrection(w1: Weights, R: Tensor<real>)
    requires w1.Valid()
  {
    && w1.N % 2 == 0 && Shaped(R, w1.E, w1.N, CDiv(w1.K, w1.GK))
    && forall e, n, g :: 0 <= e < w1.E && 0 <= n < w1.N && 0 <= g < CDiv(w1.K, w1.GK) ==>
         R[e][n][g] == ReadZero(w1.Z, e, n, g) as real * w1.S[e][n][g]
  }

  lemma LayerCorrectionIsReady(c: Call, w1: Weights, w2: Weights, p: Problem, R: Tensor<real>)
    requires GoodCall(c, w1, w2) && Multiplies(p, c.hidden, w1, c.topK, c.routing) && LayerCorrection(w1, R)
    ensures Ready(p, Correction(R))
  {
    hide Problem.Valid, ReadZero;
    CorrectionIsReady(p, R);
  }

  /** The stock W1 of the full fallback, with the configured tiles. */
  method StockW1(c: Call, w1: Weights, ghost w2: Weights, out: array<real>)
    requires GoodCall(c, w1, w2) && c.Slots() * w1.N <= out.Length
    modifies out
    ensures HoldsFirst(c, w1, w2, out[..])
  {
    hide Shaped, Problem.Valid, Problem.Cell, PlainCell, View.Addr;
    FirstMultiplies(c, w1, w2, c.blockM, c.blockN, w1.GK, c.groupM);
    var p := FirstProblem(c, w1, c.align(c.blockM), c.blockM, c.blockN, w1.GK, c.groupM);
    ContiguousFits(c.Slots(), w1.N, out.Length);
    StockGemm(p, View(w1.N, 1), None, out);
    FirstFromCells(c, w1, w2, p, out[..]);
  }

  // ------------------------------------- activation, quantisation, W2, sum

  /** Row t of a contiguous cache. */
  function RowOf(buf: seq<real>, t: int, width: nat): seq<real>
    requires 0 <= t && 0 <= t * width && t * width + width <= |buf|
  {
    buf[t * width..t * width + width]
  }

  lemma RowFits(t: int, rows: nat, width: nat)
    requires 0 <= t < rows
    ensures 0 <= t * width && t * width + width <= rows * width
  {
    MulMonotone(t + 1, rows, width);
  }

  lemma FirstRow(c: Call, w1: Weights, w2: Weights, buf: seq<real>, t: int)
    requires GoodCall(c, w1, w2) && HoldsFirst(c, w1, w2, buf) && 0 <= t < c.Slots()
    ensures 0 <= t * w1.N && t * w1.N + w1.N <= |buf|
    ensures RowOf(buf, t, w1.N) == seq(w1.N, n requires 0 <= n < w1.N => PlainCell(c.hidden, w1, c.topK, c.routing, t, n))
  {
    hide PlainCell, Weights.Valid, Routing, Matrix;
    RowFits(t, c.Slots(), w1.N);
    forall n | 0 <= n < w1.N ensures buf[t * w1.N + n] == PlainCell(c.hidden, w1, c.topK, c.routing, t, n) {
      assert FirstAt(c, w1, w2, buf, t, n);
    }
  }

  /** cache2[t] is the activation of cache1[t]; the second cache lives in the other workspace. */
  ghost predicate ActivatedRows(c: Call, w1: Weights, w2: Weights, first: seq<real>, second: seq<real>, upTo: int)
    requires GoodCall(c, w1, w2)
  {
    && c.Slots() * w1.N <= |first| && c.Slots() * w2.K <= |second| && upTo <= c.Slots()
    && forall t :: 0 <= t < upTo ==> ActivatedRow(c, w1, w2, first, second, t)
  }

  ghost predicate ActivatedRow(c: Call, w1: Weights, w2: Weights, first: seq<real>, second: seq<real>, t: int)
    requires 0 <= t
  {
    && 0 <= t * w1.N && t * w1.N + w1.N <= |first| && 0 <= t * w2.K && t * w2.K + w2.K <= |second|
    && RowOf(second, t, w2.K) == c.activation(RowOf(first, t, w1.N))
  }

  lemma ActivateStep(c: Call, w1: Weights, w2: Weights, first: seq<real>, before: seq<real>, after: seq<real>, t: nat)
    requires GoodCall(c, w1, w2) && t < c.Slots() && |after| == |before|
    requires ActivatedRows(c, w1, w2, first, before, t)
    requires 0 <= t * w1.N && t * w1.N + w1.N <= |first| && 0 <= t * w2.K && t * w2.K + w2.K <= |after|
    requires after[..t * w2.K] == before[..t * w2.K]
    requires RowOf(after, t, w2.K) == c.activation(RowOf(first, t, w1.N))
    ensures ActivatedRows(c, w1, w2, first, after, t + 1)
  {
    hide GoodCall;
    forall u | 0 <= u < t + 1 ensures ActivatedRow(c, w1, w2, first, after, u) {
      if u < t {
        assert ActivatedRow(c, w1, w2, first, before, u);
        RowFits(u, t, w2.K);
        assert RowOf(after, u, w2.K) == after[..t * w2.K][u * w2.K..u * w2.K + w2.K];
        assert RowOf(before, u, w2.K) == before[..t * w2.K][u * w2.K..u * w2.K + w2.K];
      }
    }
  }

  method Activate(c: Call, w1: Weights, w2: Weights, first: array<real>, second: array<real>)
    requires GoodCall(c, w1, w2) && first != second
    requires c.Slots() * w1.N <= first.Length && c.Slots() * w2.K <= second.Length
    modifies second
    ensures ActivatedRows(c, w1, w2, first[..], second[..], c.Slots())
  {
    hide Weights.Valid, Routing, Matrix, ActivatedRow;
    var t := 0;
    while t < c.Slots()
      invariant 0 <= t <= c.Slots()
      invariant ActivatedRows(c, w1, w2, first[..], second[..], t)
    {
      RowFits(t, c.Slots(), w1.N);
      RowFits(t, c.Slots(), w2.K);
      ghost var before := second[..];
      WriteRow(second, t, w2.K, c.activation(RowOf(first[..], t, w1.N)));
      ActivateStep(c, w1, w2, first[..], before, second[..], t);
      t := t + 1;
    }
  }

  method WriteRow(buf: array<real>, t: nat, width: nat, row: seq<real>)
    requires |row| == width && 0 <= t * width && t * width + width <= buf.Length
    modifies buf
    ensures buf[t * width..t * width + width] == row
    ensures buf[..t * width] == old(buf[..t * width])
  {
    var base := t * width;
    forall j | 0 <= j < width {
      buf[base + j] := row[j];
    }
  }

  /** moe_kernel_quantize_input on the second cache: the rows W2 multiplies. */
  method QuantiseInput(c: Call, w1: Weights, w2: Weights, ghost first: seq<real>, second: array<real>)
    returns (rows: seq<seq<real>>)
    requires GoodCall(c, w1, w2) && HoldsFirst(c, w1, w2, first)
    requires ActivatedRows(c, w1, w2, first, second[..], c.Slots())
    ensures |rows| == c.Slots()
    ensures forall t :: 0 <= t < c.Slots() ==> rows[t] == Activated(c, w1, w2, t)
  {
    hide GoodCall, Activated, HoldsFirst, ActivatedRow;
    rows := [];
    while |rows| < c.Slots()
      invariant |rows| <= c.Slots()
      invariant forall t :: 0 <= t < |rows| ==> rows[t] == Activated(c, w1, w2, t)
    {
      var t := |rows|;
      RowFits(t, c.Slots(), w2.K);
      QuantisedRow(c, w1, w2, first, second[..], t);
      rows := rows + [c.quantise(RowOf(second[..], t, w2.K))];
    }
  }

  lemma QuantisedRow(c: Call, w1: Weights, w2: Weights, first: seq<real>, second: seq<real>, t: int)
    requires GoodCall(c, w1, w2) && HoldsFirst(c, w1, w2, first) && 0 <= t < c.Slots()
    requires ActivatedRows(c, w1, w2, first, second, c.Slots())
    ensures 0 <= t * w2.K && t * w2.K + w2.K <= |second|
    ensures c.quantise(RowOf(second, t, w2.K)) == Activated(c, w1, w2, t)
  {
    hide HoldsFirst, Weights.Valid, Routing, Matrix, PlainCell;
    assert ActivatedRow(c, w1, w2, first, second, t);
    FirstRow(c, w1, w2, first, t);
  }

  function SecondProblem(c: Call, rows: seq<seq<real>>, w2: Weights, table: Table): Problem {
    Problem(rows, w2.B, w2.S, w2.Z, w2.E, w2.N, w2.K, 1, c.routing, c.blockM, c.blockN, w2.GK, w2.GK, c.groupM, table)
  }

  lemma SecondMultiplies(c: Call, w1: Weights, w2: Weights, rows: seq<seq<real>>, table: Table)
    requires GoodCall(c, w1, w2) && |rows| == c.Slots() && Matrix(rows, w2.K)
    requires table.Aligned(c.blockM, c.routing, w2.E)
    ensures Multiplies(SecondProblem(c, rows, w2, table), rows, w2, 1, c.routing)
  {
    hide Shaped, Table.Covers, Table.Routes;
  }

  lemma SecondFromCells(c: Call, w1: Weights, w2: Weights, rows: seq<seq<real>>, p: Problem, buf: seq<real>)
    requires GoodCall(c, w1, w2) && |rows| == c.Slots() && Multiplies(p, rows, w2, 1, c.routing)
    requires forall t :: 0 <= t < c.Slots() ==> rows[t] == Activated(c, w1, w2, t)
    requires View(w2.N, 1).Fits(c.Slots(), w2.N, |buf|) && c.Slots() * w2.N <= |buf|
    requires forall t, k :: 0 <= t < c.Slots() && 0 <= k < w2.N ==>
               buf[View(w2.N, 1).Addr(t, k)] == p.Cell(t, k) * if c.weightOnInput then 1.0 else c.topkWeights[t]
    ensures HoldsSecond(c, w1, w2, buf)
  {
    hide Problem.Valid, Problem.Cell, View.Addr, Weights.Valid, PlainDot, Activated, Matrix;
    forall t, k | 0 <= t < c.Slots() && 0 <= k < w2.N ensures SecondAt(c, w1, w2, buf, t, k) {
      CellIsPlain(p, rows, w2, 1, c.routing, t, k);
    }
  }

  /** W2 on the stock kernel, writing the third cache over the first. */
  method SecondGemm(c: Call, w1: Weights, w2: Weights, rows: seq<seq<real>>, table: Table, out: array<real>)
    requires GoodCall(c, w1, w2) && |rows| == c.Slots() && c.Slots() * w2.N <= out.Length
    requires forall t :: 0 <= t < c.Slots() ==> rows[t] == Activated(c, w1, w2, t)
    requires table.Aligned(c.blockM, c.routing, w2.E)
    modifies out
    ensures HoldsSecond(c, w1, w2, out[..])
  {
    hide Weights.Valid, Problem.Valid, Problem.Cell, View.Addr, Activated, PlainDot, Table.Aligned;
    SecondMultiplies(c, w1, w2, rows, table);
    var p := SecondProblem(c, rows, w2, table);
    ContiguousFits(c.Slots(), w2.N, out.Length);
    StockGemm(p, View(w2.N, 1), if c.weightOnInput then None else Some(c.topkWeights), out);
    SecondFromCells(c, w1, w2, rows, p, out[..]);
  }

  ghost predicate HoldsOutput(c: Call, w1: Weights, w2: Weights, buf: seq<real>)
    requires GoodCall(c, w1, w2)
  {
    && |c.hidden| * w2.N <= |buf|
    && forall m, k :: 0 <= m < |c.hidden| && 0 <= k < w2.N ==> OutputAt(c, w1, w2, buf, m, k)
  }

  ghost predicate OutputAt(c: Call, w1: Weights, w2: Weights, buf: seq<real>, m: int, k: int)
    requires GoodCall(c, w1, w2) && 0 <= m < |c.hidden| && 0 <= k < w2.N
  {
    && 0 <= View(w2.N, 1).Addr(m, k) < |buf|
    && buf[View(w2.N, 1).Addr(m, k)] == Expected(c, w1, w2, m, k)
  }

  /** The sum of one output element over the token's choices. */
  method SumToken(c: Call, w1: Weights, w2: Weights, third: seq<real>, m: nat, k: nat) returns (sum: real)
    requires GoodCall(c, w1, w2) && HoldsSecond(c, w1, w2, third) && m < |c.hidden| && k < w2.N
    ensures sum == Expected(c, w1, w2, m, k)
  {
    hide GoodCall, SecondCell;
    sum := 0.0;
    for choice := 0 to c.topK
      invariant sum == SumChoices(c, w1, w2, m, k, choice)
    {
      RowMajorInRange(m, choice, |c.hidden|, c.topK);
      var slot := m * c.topK + choice;
      assert SecondAt(c, w1, w2, third, slot, k);
      sum := sum + third[View(w2.N, 1).Addr(slot, k)];
    }
  }

  /** moe_sum: every output element from the third cache. */
  method MoeSum(c: Call, w1: Weights, w2: Weights, third: array<real>, output: array<real>)
    requires GoodCall(c, w1, w2) && third != output && HoldsSecond(c, w1, w2, third[..])
    requires |c.hidden| * w2.N <= output.Length
    modifies output
    ensures HoldsOutput(c, w1, w2, output[..])
  {
    hide GoodCall, Expected, View.Addr, HoldsSecond;
    var v := View(w2.N, 1);
    ContiguousFits(|c.hidden|, w2.N, output.Length);
    for m := 0 to |c.hidden|
      invariant forall m', k :: 0 <= m' < m && 0 <= k < w2.N ==> OutputAt(c, w1, w2, output[..], m', k)
    {
      for k := 0 to w2.N
        invariant forall m', k' :: 0 <= m' < |c.hidden| && 0 <= k' < w2.N && (m' < m || (m' == m && k' < k)) ==>
                    OutputAt(c, w1, w2, output[..], m', k')
      {
        var sum := SumToken(c, w1, w2, third[..], m, k);
        ghost var before := output[..];
        output[v.Addr(m, k)] := sum;
        OutputStep(c, w1, w2, before, output[..], m, k);
      }
    }
  }

  lemma OutputStep(c: Call, w1: Weights, w2: Weights, before: seq<real>, after: seq<real>, m: nat, k: nat)
    requires GoodCall(c, w1, w2) && m < |c.hidden| && k < w2.N
    requires View(w2.N, 1).Fits(|c.hidden|, w2.N, |before|) && |before| == |after|
    requires after == before[View(w2.N, 1).Addr(m, k) := Expected(c, w1, w2, m, k)]
    requires forall m', k' :: 0 <= m' < |c.hidden| && 0 <= k' < w2.N && (m' < m || (m' == m && k' < k)) ==>
               OutputAt(c, w1, w2, before, m', k')
    ensures forall m', k' :: 0 <= m' < |c.hidden| && 0 <= k' < w2.N && (m' < m || (m' == m && k' < k + 1)) ==>
               OutputAt(c, w1, w2, after, m', k')
  {
    hide GoodCall, Expected, View.Addr;
    forall m', k' | 0 <= m' < |c.hidden| && 0 <= k' < w2.N && (m' < m || (m' == m && k' < k + 1))
      ensures OutputAt(c, w1, w2, after, m', k')
    {
      if m' != m || k' != k {
        assert OutputAt(c, w1, w2, before, m', k');
      }
    }
  }

  method LayerBuild(w1: Weights) returns (R: Tensor<real>)
    requires w1.Valid() && w1.N % 2 == 0
    ensures LayerCorrection(w1, R)
  {
    hide ReadZero;
    R := BuildCorrection(w1.Z, w1.S, w1.E, w1.N / 2, CDiv(w1.K, w1.GK));
  }

  /** A projection before its zero points, which a symmetric layer does not have. */
  datatype Packed = Packed(B: Tensor<nat>, S: Tensor<real>, E: nat, N: nat, K: nat, GK: nat) {
    function With(zeros: Tensor<nat>): Weights {
      Weights(B, S, zeros, E, N, K, GK)
    }
  }

  /** __init__: a layer without W1 zero points is refused (ValueError); any other gets its correction. */
  method NewExperts(packed: Packed, zeros: Option<Tensor<nat>>, w2: Weights, blockShape: Option<seq<nat>>,
                    smallTokenLimit: nat) returns (experts: HybridExperts?)
    requires zeros.Some? ==> packed.With(zeros.value).Valid() && packed.N % 2 == 0
    requires w2.Valid() && (blockShape.Some? && |blockShape.value| == 2 ==> packed.GK == blockShape.value[1])
    ensures experts == null <==> zeros.None?
    ensures experts != null ==>
              fresh(experts) && experts.Valid() && experts.w1 == packed.With(zeros.value) && experts.w2 == w2
              && experts.lastPath == "uninitialized"
  {
    hide Weights.Valid, LayerCorrection;
    if zeros.None? { return null; }
    experts := new HybridExperts(packed.With(zeros.value), w2, blockShape, smallTokenLimit);
  }

  // ------------------------------------------------------------- the class

  const STOCK_FALLBACK := "stock_full_fallback"
  const CUSTOM_SMALL := "custom_small_w1_stock_w2"

  /** The Experts object: the layer's packed weights, the correction built when it was constructed, and the
      path the last call took. */
  class HybridExperts {
    const w1: Weights
    const w2: Weights
    const blockShape: Option<seq<nat>>
    const smallTokenLimit: nat
    var correction: Tensor<real>
    var lastPath: string

    ghost predicate Valid()
      reads this
    {
      && w1.Valid() && w2.Valid()
      && (blockShape.Some? && |blockShape.value| == 2 ==> w1.GK == blockShape.value[1])
      && LayerCorrection(w1, correction)
    }

    /** The layer's group size is the second entry of its block shape. */
    constructor (w1: Weights, w2: Weights, blockShape: Option<seq<nat>>, smallTokenLimit: nat)
      requires w1.Valid() && w2.Valid() && w1.N % 2 == 0
      requires blockShape.Some? && |blockShape.value| == 2 ==> w1.GK == blockShape.value[1]
      ensures Valid() && lastPath == "uninitialized"
      ensures this.w1 == w1 && this.w2 == w2 && this.blockShape == blockShape && this.smallTokenLimit == smallTokenLimit
    {
      hide LayerCorrection, Weights.Valid;
      var R := LayerBuild(w1);
      this.w1, this.w2, this.blockShape, this.smallTokenLimit := w1, w2, blockShape, smallTokenLimit;
      correction, lastPath := R, "uninitialized";
    }

    predicate CustomEligible(c: Call) {
      && |c.hidden| <= smallTokenLimit
      && c.silu && c.halfFloat && c.contiguous && c.w1Bytes && c.w2Bytes
      && c.hiddenSize == 2048 && w1.N == 1536
      && c.topkDims == 2 && c.topK == 8
      && blockShape.Some? && |blockShape.value| == 2 && blockShape.value[0] == 0 && blockShape.value[1] == 128
    }

    /** apply, custom or stock: the first and the third cache are the same workspace, the output may be the
        other one, and the result is the pipeline with separate buffers. */
    method Apply(c: Call, workspace13: array<real>, workspace2: array<real>, output: array<real>)
      requires Valid() && GoodCall(c, w1, w2)
      requires workspace2 != workspace13 && workspace2 != output
      requires c.Slots() * w1.N <= workspace2.Length && c.Slots() * w2.N <= workspace2.Length
      requires c.Slots() * w2.K <= workspace13.Length && |c.hidden| * w2.N <= output.Length
      modifies this`lastPath, workspace13, workspace2, output
      ensures Valid() && GoodCall(c, w1, w2) && HoldsOutput(c, w1, w2, output[..])
      ensures lastPath == if CustomEligible(c) then CUSTOM_SMALL else STOCK_FALLBACK
      ensures lastPath == CUSTOM_SMALL <==>
                && |c.hidden| <= smallTokenLimit && c.silu && c.halfFloat && c.contiguous && c.w1Bytes && c.w2Bytes
                && c.hiddenSize == 2048 && w1.N == 1536 && c.topkDims == 2 && c.topK == 8
                && blockShape == Some([0, 128])
    {
      hide HoldsFirst, HoldsSecond, HoldsOutput, ActivatedRows, LayerCorrection, Weights.Valid, Activated;
      var table1, table2;
      assert CUSTOM_SMALL[0] != STOCK_FALLBACK[0];
      assert blockShape.Some? && |blockShape.value| == 2 ==> blockShape.value == [blockShape.value[0], blockShape.value[1]];
      if !CustomEligible(c) {
        lastPath := STOCK_FALLBACK;
        StockW1(c, w1, w2, workspace2);
        table2 := c.align(c.blockM);
      } else {
        table1 := c.align(16);
        SmallW1(c, w1, w2, correction, table1, workspace2);
        lastPath := CUSTOM_SMALL;
        table2 := if c.blockM == 16 then table1 else c.align(c.blockM);
      }
      Activate(c, w1, w2, workspace2, workspace13);
      var rows := QuantiseInput(c, w1, w2, workspace2[..], workspace13);
      SecondGemm(c, w1, w2, rows, table2, workspace2);
      MoeSum(c, w1, w2, workspace2, output);
    }
  }
}
