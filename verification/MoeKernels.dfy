/** The routed INT4 kernels: a program computes one tile in accumulators and stores it under a mask. Four
    forms of the accumulation are modelled; each is proved to produce the plain matrix product. */
module MoeKernels {
  import opened Arith
  import opened AwqLayout
  import opened MoeProblem

  /** A two-dimensional register tile. */
  type Tile = (int, int) -> real

  // ------------------------------------------------------- tile operations

  function LoadActivations(p: Problem, tok: seq<int>, k0: nat): Tile
    requires p.Valid()
  {
    (i, x) => if 0 <= i < |tok| && 0 <= tok[i] && 0 <= x then p.AVal(tok[i], k0 + x) else 0.0
  }

  function LoadCodes(p: Problem, e: int, n0: nat, k0: nat): Tile
    requires p.Valid() && 0 <= e < p.E
  {
    (x, j) => if 0 <= x && 0 <= j then p.QVal(e, n0 + j, k0 + x) as real else 0.0
  }

  /** The kernels' zero points and scales of one group, one value per tile column. */
  function LoadZeros(p: Problem, e: int, n0: nat, g: nat): int -> real
    requires p.Valid() && 0 <= e < p.E && g < p.Groups()
  {
    j => if 0 <= j then p.ZVal(e, n0 + j, g) as real else 0.0
  }

  function LoadScales(p: Problem, e: int, n0: nat, g: nat): int -> real
    requires p.Valid() && 0 <= e < p.E && g < p.Groups()
  {
    j => if 0 <= j then p.SVal(e, n0 + j, g) else 0.0
  }

  function DotSum(a: Tile, b: Tile, i: int, j: int, depth: nat): real {
    if depth == 0 then 0.0 else DotSum(a, b, i, j, depth - 1) + a(i, depth - 1) * b(depth - 1, j)
  }

  /** tl.dot(a, b, acc=acc) */
  function TileDot(a: Tile, b: Tile, depth: nat, acc: Tile): Tile {
    (i, j) => acc(i, j) + DotSum(a, b, i, j, depth)
  }

  /** tl.sum(a, axis=1) */
  function RowSum(a: Tile, i: int, depth: nat): real {
    if depth == 0 then 0.0 else RowSum(a, i, depth - 1) + a(i, depth - 1)
  }

  lemma {:induction false} DotIsQDot(p: Problem, tok: seq<int>, e: int, n0: nat, lo: nat, k0: nat,
                                     i: nat, j: nat, depth: nat)
    requires p.Valid() && 0 <= e < p.E && i < |tok| && 0 <= tok[i] && lo <= k0
    ensures p.QDot(e, tok[i], n0 + j, lo, k0)
              + DotSum(LoadActivations(p, tok, k0), LoadCodes(p, e, n0, k0), i, j, depth)
         == p.QDot(e, tok[i], n0 + j, lo, k0 + depth)
  {
    hide Problem.Valid, Problem.AVal, Problem.QVal;
    if depth > 0 {
      DotIsQDot(p, tok, e, n0, lo, k0, i, j, depth - 1);
    }
  }

  lemma {:induction false} RowSumIsASum(p: Problem, tok: seq<int>, lo: nat, k0: nat, i: nat, depth: nat)
    requires p.Valid() && i < |tok| && 0 <= tok[i] && lo <= k0
    ensures p.ASum(tok[i], lo, k0) + RowSum(LoadActivations(p, tok, k0), i, depth) == p.ASum(tok[i], lo, k0 + depth)
  {
    hide Problem.Valid, Problem.AVal;
    if depth > 0 {
      RowSumIsASum(p, tok, lo, k0, i, depth - 1);
    }
  }

  lemma StepWithin(sub: int, step: int, total: int)
    requires step > 0 && 0 <= sub < total && sub % step == 0 && total % step == 0
    ensures sub + step <= total && (sub + step) % step == 0
  {
    var q, blocks := sub / step, total / step;
    if q >= blocks {
      MulMonotone(blocks, q, step);
    }
    MulMonotone(q + 1, blocks, step);
    DivModUnique(sub + step, step, q + 1, 0);
  }

  // ------------------------------------------- one group of the inner loop

  /** The static inner loop of the algebraic kernels: the code dot product and the activation sum of one
      group, BK columns at a time. */
  method GroupDots(p: Problem, tok: seq<int>, e: int, n0: nat, start: nat) returns (qacc: Tile, asum: int -> real)
    requires p.Valid() && 0 <= e < p.E
    requires forall i :: 0 <= i < |tok| ==> 0 <= tok[i]
    ensures forall i, j :: 0 <= i < |tok| && 0 <= j ==> qacc(i, j) == p.QDot(e, tok[i], n0 + j, start, start + p.GK)
    ensures forall i :: 0 <= i < |tok| ==> asum(i) == p.ASum(tok[i], start, start + p.GK)
  {
    hide Problem.AVal, Problem.QVal, Problem.Tensors, Problem.Routed;
    qacc := (i, j) => 0.0;
    asum := i => 0.0;
    var sub := 0;
    while sub < p.GK
      invariant 0 <= sub <= p.GK && sub % p.BK == 0
      invariant forall i, j :: 0 <= i < |tok| && 0 <= j ==> qacc(i, j) == p.QDot(e, tok[i], n0 + j, start, start + sub)
      invariant forall i :: 0 <= i < |tok| ==> asum(i) == p.ASum(tok[i], start, start + sub)
    {
      StepWithin(sub, p.BK, p.GK);
      var kk := start + sub;
      var a := LoadActivations(p, tok, kk);
      var q := LoadCodes(p, e, n0, kk);
      var asum0 := asum;
      forall i, j | 0 <= i < |tok| && 0 <= j
        ensures qacc(i, j) + DotSum(a, q, i, j, p.BK) == p.QDot(e, tok[i], n0 + j, start, kk + p.BK)
      {
        DotIsQDot(p, tok, e, n0, start, kk, i, j, p.BK);
      }
      forall i | 0 <= i < |tok| ensures asum0(i) + RowSum(a, i, p.BK) == p.ASum(tok[i], start, kk + p.BK) {
        RowSumIsASum(p, tok, start, kk, i, p.BK);
      }
      qacc := TileDot(a, q, p.BK, qacc);
      asum := i => asum0(i) + RowSum(a, i, p.BK);
      sub := sub + p.BK;
    }
  }

  // ------------------------------------------------ the four accumulations

  ghost predicate LanesHold(p: Problem, tok: seq<int>, e: int, n0: nat, acc: Tile, hi: nat)
    requires p.Valid() && 0 <= e < p.E && hi <= p.Span()
  {
    forall i, j :: 0 <= i < |tok| && 0 <= tok[i] && 0 <= j ==> acc(i, j) == p.Product(e, tok[i], n0 + j, 0, hi)
  }

  /** _build_correction's tensor: zero point times scale. */
  ghost predicate IsCorrection(p: Problem, R: Tensor<real>)
    requires p.Valid()
  {
    && Shaped(R, p.E, p.N, p.Groups())
    && forall e, n, g :: 0 <= e < p.E && 0 <= n < p.N && 0 <= g < p.Groups() ==>
         R[e][n][g] == p.ZVal(e, n, g) as real * p.SVal(e, n, g)
  }

  lemma CorrectionColumns(p: Problem, R: Tensor<real>, e: int, n0: nat, g: nat)
    requires p.Valid() && IsCorrection(p, R) && 0 <= e < p.E && g < p.Groups()
    ensures forall j :: 0 <= j ==>
              LoadCorrection(p, R, e, n0, g)(j) == p.ZVal(e, n0 + j, g) as real * p.SVal(e, n0 + j, g)
  {
    hide Problem.Tensors, Problem.Routed;
  }

  function LoadCorrection(p: Problem, R: Tensor<real>, e: int, n0: nat, g: nat): int -> real
    requires p.Valid() && Shaped(R, p.E, p.N, p.Groups()) && 0 <= e < p.E && g < p.Groups()
  {
    j => if 0 <= j && n0 + j < p.N then R[e][n0 + j][g] else 0.0
  }

  /** acc += qacc * scale - asum * correction closes one group of the product. */
  lemma CloseGroup(p: Problem, tok: seq<int>, e: int, n0: nat, start: nat,
                   acc: Tile, qacc: Tile, asum: int -> real, scale: int -> real, correction: int -> real, acc': Tile)
    requires p.Valid() && 0 <= e < p.E && start < p.K && start % p.GK == 0
    requires 0 <= start / p.GK < p.Groups() && start + p.GK <= p.Span()
    requires LanesHold(p, tok, e, n0, acc, start)
    requires forall i, j :: 0 <= i < |tok| && 0 <= tok[i] && 0 <= j ==>
               qacc(i, j) == p.QDot(e, tok[i], n0 + j, start, start + p.GK)
    requires forall i :: 0 <= i < |tok| && 0 <= tok[i] ==> asum(i) == p.ASum(tok[i], start, start + p.GK)
    requires forall j :: 0 <= j ==> scale(j) == p.SVal(e, n0 + j, start / p.GK)
    requires forall j :: 0 <= j ==>
               correction(j) == p.ZVal(e, n0 + j, start / p.GK) as real * p.SVal(e, n0 + j, start / p.GK)
    requires forall i, j :: acc'(i, j) == acc(i, j) + (qacc(i, j) * scale(j) - asum(i) * correction(j))
    ensures LanesHold(p, tok, e, n0, acc', start + p.GK)
  {
    hide Problem.AVal, Problem.QVal, Problem.ZVal, Problem.SVal, Problem.Tensors, Problem.Routed;
    p.GroupIndex(start);
    forall i, j | 0 <= i < |tok| && 0 <= tok[i] && 0 <= j
      ensures acc'(i, j) == p.Product(e, tok[i], n0 + j, 0, start + p.GK)
    {
      p.GroupAlgebra(e, tok[i], n0 + j, start / p.GK, start + p.GK);
    }
  }

  lemma FinishTile(p: Problem, tok: seq<int>, e: int, n0: nat, acc: Tile, hi: nat)
    requires p.Valid() && 0 <= e < p.E && p.K <= hi <= p.Span()
    requires LanesHold(p, tok, e, n0, acc, hi)
    ensures LanesHold(p, tok, e, n0, acc, p.K)
  {
    hide Problem.Tensors, Problem.Routed, Problem.Product;
    forall i, j | 0 <= i < |tok| && 0 <= tok[i] && 0 <= j
      ensures acc(i, j) == p.Product(e, tok[i], n0 + j, 0, p.K)
    {
      p.ProductTail(e, tok[i], n0 + j, hi);
    }
  }

  lemma NextGroup(start: int, GK: int)
    requires GK > 0 && start % GK == 0
    ensures (start + GK) % GK == 0
  {
    DivModUnique(start + GK, GK, start / GK + 1, 0);
  }

  lemma EmptyTile(p: Problem, tok: seq<int>, e: int, n0: nat, acc: Tile)
    requires p.Valid() && 0 <= e < p.E
    requires forall i, j :: acc(i, j) == 0.0
    ensures LanesHold(p, tok, e, n0, acc, 0)
  {
  }

  /** The hybrid kernel: scale and correction loaded per group, one subtraction per group. */
  method CorrectionTile(p: Problem, R: Tensor<real>, tok: seq<int>, e: int, n0: nat) returns (acc: Tile)
    requires p.Valid() && 0 <= e < p.E && IsCorrection(p, R)
    requires forall i :: 0 <= i < |tok| ==> 0 <= tok[i]
    ensures p.K <= p.Span() && LanesHold(p, tok, e, n0, acc, p.K)
  {
    hide Problem.AVal, Problem.QVal, Problem.ZVal, Problem.SVal, Problem.Tensors, Problem.Routed, LanesHold, IsCorrection;
    p.SpanCovers();
    acc := (i, j) => 0.0;
    EmptyTile(p, tok, e, n0, acc);
    var start := 0;
    while start < p.K
      invariant 0 <= start <= p.Span() && start % p.GK == 0
      invariant LanesHold(p, tok, e, n0, acc, start)
    {
      p.GroupIndex(start);
      acc := CorrectionGroup(p, R, tok, e, n0, start, acc);
      NextGroup(start, p.GK);
      start := start + p.GK;
    }
    FinishTile(p, tok, e, n0, acc, start);
  }

  method CorrectionGroup(p: Problem, R: Tensor<real>, tok: seq<int>, e: int, n0: nat, start: nat, acc0: Tile)
    returns (acc: Tile)
    requires p.Valid() && 0 <= e < p.E && IsCorrection(p, R)
    requires start < p.K && start % p.GK == 0 && 0 <= start / p.GK < p.Groups() && start + p.GK <= p.Span()
    requires forall i :: 0 <= i < |tok| ==> 0 <= tok[i]
    requires LanesHold(p, tok, e, n0, acc0, start)
    ensures LanesHold(p, tok, e, n0, acc, start + p.GK)
  {
    hide Problem.ZVal, Problem.SVal, Problem.Tensors, Problem.Routed, LanesHold, LoadCorrection;
    var gi := start / p.GK;
    var scale := LoadScales(p, e, n0, gi);
    var correction := LoadCorrection(p, R, e, n0, gi);
    CorrectionColumns(p, R, e, n0, gi);
    var qacc, asum := GroupDots(p, tok, e, n0, start);
    acc := (i, j) => acc0(i, j) + (qacc(i, j) * scale(j) - asum(i) * correction(j));
    CloseGroup(p, tok, e, n0, start, acc0, qacc, asum, scale, correction, acc);
  }

  /** The algebraic kernel: zero points unpacked in the kernel, zero point times scale formed on the fly. */
  method AlgebraicTile(p: Problem, tok: seq<int>, e: int, n0: nat) returns (acc: Tile)
    requires p.Valid() && 0 <= e < p.E
    requires forall i :: 0 <= i < |tok| ==> 0 <= tok[i]
    ensures p.K <= p.Span() && LanesHold(p, tok, e, n0, acc, p.K)
  {
    hide Problem.AVal, Problem.QVal, Problem.ZVal, Problem.SVal, Problem.Tensors, Problem.Routed, LanesHold;
    p.SpanCovers();
    acc := (i, j) => 0.0;
    EmptyTile(p, tok, e, n0, acc);
    var start := 0;
    while start < p.K
      invariant 0 <= start <= p.Span() && start % p.GK == 0
      invariant LanesHold(p, tok, e, n0, acc, start)
    {
      p.GroupIndex(start);
      acc := AlgebraicGroup(p, tok, e, n0, start, acc);
      NextGroup(start, p.GK);
      start := start + p.GK;
    }
    FinishTile(p, tok, e, n0, acc, start);
  }

  method AlgebraicGroup(p: Problem, tok: seq<int>, e: int, n0: nat, start: nat, acc0: Tile) returns (acc: Tile)
    requires p.Valid() && 0 <= e < p.E
    requires start < p.K && start % p.GK == 0 && 0 <= start / p.GK < p.Groups() && start + p.GK <= p.Span()
    requires forall i :: 0 <= i < |tok| ==> 0 <= tok[i]
    requires LanesHold(p, tok, e, n0, acc0, start)
    ensures LanesHold(p, tok, e, n0, acc, start + p.GK)
  {
    hide Problem.ZVal, Problem.SVal, Problem.Tensors, Problem.Routed, LanesHold;
    var gi := start / p.GK;
    var scale := LoadScales(p, e, n0, gi);
    var zp := LoadZeros(p, e, n0, gi);
    var qacc, asum := GroupDots(p, tok, e, n0, start);
    acc := (i, j) => acc0(i, j) + (qacc(i, j) * scale(j) - asum(i) * (zp(j) * scale(j)));
    CloseGroup(p, tok, e, n0, start, acc0, qacc, asum, scale, j => zp(j) * scale(j), acc);
  }

  // ------------------------------------------------ dequantise in the loop

  /** (q - zp) * scale of one group, as the grouped kernel forms it before the dot product. */
  function Dequantise(codes: Tile, zp: int -> real, scale: int -> real): Tile {
    (x, j) => (codes(x, j) - zp(j)) * scale(j)
  }

  lemma {:induction false} DequantDot(p: Problem, tok: seq<int>, e: int, n0: nat, g: nat, k0: nat,
                                      i: nat, j: nat, depth: nat)
    requires p.Valid() && 0 <= e < p.E && i < |tok| && 0 <= tok[i] && g < p.Groups()
    requires 0 <= g * p.GK <= k0 && k0 + depth <= g * p.GK + p.GK <= p.Span()
    ensures p.Product(e, tok[i], n0 + j, 0, k0)
              + DotSum(LoadActivations(p, tok, k0),
                       Dequantise(LoadCodes(p, e, n0, k0), LoadZeros(p, e, n0, g), LoadScales(p, e, n0, g)),
                       i, j, depth)
         == p.Product(e, tok[i], n0 + j, 0, k0 + depth)
  {
    hide *;
    if depth > 0 {
      DequantDot(p, tok, e, n0, g, k0, i, j, depth - 1);
      DequantStep(p, tok, e, n0, g, k0, i, j, depth);
    } else {
      DequantNone(p, tok, e, n0, g, k0, i, j);
    }
  }

  lemma DequantNone(p: Problem, tok: seq<int>, e: int, n0: nat, g: nat, k0: nat, i: nat, j: nat)
    requires p.Valid() && 0 <= e < p.E && g < p.Groups()
    ensures DotSum(LoadActivations(p, tok, k0),
                   Dequantise(LoadCodes(p, e, n0, k0), LoadZeros(p, e, n0, g), LoadScales(p, e, n0, g)),
                   i, j, 0) == 0.0
  {
  }

  lemma DequantStep(p: Problem, tok: seq<int>, e: int, n0: nat, g: nat, k0: nat, i: nat, j: nat, depth: nat)
    requires p.Valid() && 0 <= e < p.E && i < |tok| && 0 <= tok[i] && g < p.Groups() && depth > 0
    requires 0 <= g * p.GK <= k0 && k0 + depth <= g * p.GK + p.GK <= p.Span()
    ensures var a, w := LoadActivations(p, tok, k0),
                        Dequantise(LoadCodes(p, e, n0, k0), LoadZeros(p, e, n0, g), LoadScales(p, e, n0, g));
            DotSum(a, w, i, j, depth) - DotSum(a, w, i, j, depth - 1)
              == p.Product(e, tok[i], n0 + j, 0, k0 + depth) - p.Product(e, tok[i], n0 + j, 0, k0 + depth - 1)
  {
    hide Problem.Tensors, Problem.Routed, Problem.AVal, Problem.QVal, Problem.ZVal, Problem.SVal;
    var k := k0 + depth - 1;
    DivModUnique(k, p.GK, g, k - g * p.GK);
    assert p.Product(e, tok[i], n0 + j, 0, k + 1) == p.Product(e, tok[i], n0 + j, 0, k) + p.Term(e, tok[i], n0 + j, k);
  }

  /** The grouped RDNA4 kernel: one scale and zero point per column and group, weights dequantised in the
      inner loop and accumulated directly. */
  method DequantTile(p: Problem, tok: seq<int>, e: int, n0: nat) returns (acc: Tile)
    requires p.Valid() && 0 <= e < p.E
    requires forall i :: 0 <= i < |tok| ==> 0 <= tok[i]
    ensures p.K <= p.Span() && LanesHold(p, tok, e, n0, acc, p.K)
  {
    hide Problem.AVal, Problem.QVal, Problem.ZVal, Problem.SVal, Problem.Tensors, Problem.Routed, LanesHold;
    p.SpanCovers();
    acc := (i, j) => 0.0;
    EmptyTile(p, tok, e, n0, acc);
    var start := 0;
    while start < p.K
      invariant 0 <= start <= p.Span() && start % p.GK == 0
      invariant LanesHold(p, tok, e, n0, acc, start)
    {
      p.GroupIndex(start);
      acc := DequantGroup(p, tok, e, n0, start / p.GK, acc);
      NextGroup(start, p.GK);
      start := start + p.GK;
    }
    FinishTile(p, tok, e, n0, acc, start);
  }

  method DequantGroup(p: Problem, tok: seq<int>, e: int, n0: nat, gi: nat, acc0: Tile) returns (acc: Tile)
    requires p.Valid() && 0 <= e < p.E && gi < p.Groups()
    requires 0 <= gi * p.GK && gi * p.GK + p.GK <= p.Span()
    requires forall i :: 0 <= i < |tok| ==> 0 <= tok[i]
    requires LanesHold(p, tok, e, n0, acc0, gi * p.GK)
    ensures LanesHold(p, tok, e, n0, acc, gi * p.GK + p.GK)
  {
    hide Problem.AVal, Problem.QVal, Problem.ZVal, Problem.SVal, Problem.Tensors, Problem.Routed;
    var scale := LoadScales(p, e, n0, gi);
    var zp := LoadZeros(p, e, n0, gi);
    var start := gi * p.GK;
    acc := acc0;
    var sub := 0;
    while sub < p.GK
      invariant 0 <= sub <= p.GK && sub % p.BK == 0
      invariant LanesHold(p, tok, e, n0, acc, start + sub)
    {
      StepWithin(sub, p.BK, p.GK);
      var kk := start + sub;
      var a := LoadActivations(p, tok, kk);
      var b := Dequantise(LoadCodes(p, e, n0, kk), zp, scale);
      forall i, j | 0 <= i < |tok| && 0 <= j
        ensures acc(i, j) + DotSum(a, b, i, j, p.BK) == p.Product(e, tok[i], n0 + j, 0, kk + p.BK)
      {
        DequantDot(p, tok, e, n0, gi, kk, i, j, p.BK);
      }
      acc := TileDot(a, b, p.BK, acc);
      sub := sub + p.BK;
    }
  }
}
