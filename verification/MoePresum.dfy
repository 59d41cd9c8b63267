/** The presummed kernel: a first grid fills one activation sum per row and scale group, and the routed
    kernel reads those sums instead of recomputing them in every tile. */
module MoePresum {
  import opened Arith
  import opened AwqLayout
  import opened MoeKernels
  import opened MoeProblem

  /** The sum of A[m][lo..hi]. */
  function RowPart(p: Problem, m: int, lo: int, hi: int): real
    requires p.Valid() && 0 <= m < |p.A| && 0 <= lo <= hi <= p.K
    decreases hi - lo
  {
    if hi == lo then 0.0 else RowPart(p, m, lo, hi - 1) + p.A[m][hi - 1]
  }

  /** tl.load(A + m * K + kk, mask=(m < M) & (kk < K), other=0.) */
  function LoadRow(p: Problem, m: int, k0: nat): Tile
    requires p.Valid() && 0 <= m
  {
    (i, x) => if 0 <= x && m < |p.A| && k0 + x < p.K then p.A[m][k0 + x] else 0.0
  }

  lemma {:induction false} RowSumIsRowPart(p: Problem, m: int, k0: nat, depth: nat)
    requires p.Valid() && 0 <= m < |p.A| && k0 + depth <= p.K
    ensures RowSum(LoadRow(p, m, k0), 0, depth) == RowPart(p, m, k0, k0 + depth)
  {
    hide Problem.Routed;
    if depth > 0 {
      RowSumIsRowPart(p, m, k0, depth - 1);
    }
  }

  /** The top_k slots of one token share its row, so they share its sums. */
  lemma {:induction false} ASumOfRow(p: Problem, t: int, lo: int, hi: int)
    requires p.Valid() && 0 <= t < p.NumValid() && 0 <= lo <= hi <= p.K
    ensures 0 <= t / p.topK < |p.A| && p.ASum(t, lo, hi) == RowPart(p, t / p.topK, lo, hi)
    decreases hi
  {
    hide Problem.Routed;
    QuotientInRange(t, p.topK, |p.A|);
    if hi > lo {
      ASumOfRow(p, t, lo, hi - 1);
    }
  }

  lemma {:induction false} ASumOfPadding(p: Problem, t: int, lo: int, hi: int)
    requires p.Valid() && p.NumValid() <= t && 0 <= lo <= hi
    ensures p.ASum(t, lo, hi) == 0.0
    decreases hi
  {
    hide Problem.Routed, Problem.Tensors;
    if hi > lo {
      ASumOfPadding(p, t, lo, hi - 1);
    }
  }

  /** What the prepass leaves: AS[m * G + g] is the sum of group g of row m. */
  ghost predicate GroupSums(p: Problem, sums: seq<real>)
    requires p.Valid() && p.K % p.GK == 0
  {
    var G := p.K / p.GK;
    && |sums| == |p.A| * G
    && forall m, g :: 0 <= m < |p.A| && 0 <= g < G ==> SumAt(p, sums, m, g)
  }

  ghost predicate SumAt(p: Problem, sums: seq<real>, m: int, g: int)
    requires p.Valid() && p.K % p.GK == 0
  {
    var G := p.K / p.GK;
    && 0 <= m < |p.A| && 0 <= g < G
    && 0 <= m * G + g < |sums|
    && 0 <= g * p.GK && g * p.GK + p.GK <= p.K
    && sums[m * G + g] == RowPart(p, m, g * p.GK, g * p.GK + p.GK)
  }

  lemma GroupEnds(g: int, K: nat, GK: nat)
    requires GK > 0 && K % GK == 0 && 0 <= g < K / GK
    ensures 0 <= g * GK && g * GK + GK <= K
  {
    MulMonotone(g + 1, K / GK, GK);
    assert K == K / GK * GK;
  }

  /** Programs of the prepass and (row, group) cells correspond one to one. */
  lemma CellOf(pid: int, m: int, g: int, rows: nat, G: nat)
    ensures 0 <= pid < rows * G ==>
              G > 0 && 0 <= pid / G < rows && 0 <= pid % G < G && pid / G * G + pid % G == pid
    ensures 0 <= m < rows && 0 <= g < G ==>
              0 <= m * G + g < rows * G && (m * G + g) / G == m && (m * G + g) % G == g
  {
    if 0 <= pid < rows * G {
      assert rows * 0 == 0;
      QuotientInRange(pid, G, rows);
    }
    if 0 <= m < rows && 0 <= g < G {
      RowMajorInRange(m, g, rows, G);
      DivModUnique(m * G + g, G, m, g);
    }
  }

  /** group_sum over its whole grid, in any program order: program pid fills the cell of row pid / G and group
      pid % G, no two programs fill the same one, and between them they fill every cell. */
  method FillGroupSums(p: Problem, order: seq<nat>, AS: array<real>)
    requires p.Valid() && p.K % p.GK == 0 && AS.Length == |p.A| * (p.K / p.GK)
    requires forall pid :: pid in order <==> 0 <= pid < AS.Length
    modifies AS
    ensures GroupSums(p, AS[..])
  {
    hide Problem.Routed, Problem.Tensors, RowPart, SumAt;
    var G := p.K / p.GK;
    for k := 0 to |order|
      invariant forall h :: 0 <= h < k ==> ProgramDone(p, AS[..], order[h])
    {
      var pid := order[k];
      assert pid in order;
      ghost var before := AS[..];
      GroupSum(p, pid, AS);
      forall h | 0 <= h < k ensures ProgramDone(p, AS[..], order[h]) {
        assert ProgramDone(p, before, order[h]);
        if order[h] != pid { ProgramKept(p, before, AS[..], order[h], pid); }
      }
    }
    forall m, g | 0 <= m < |p.A| && 0 <= g < G ensures SumAt(p, AS[..], m, g) {
      CellOf(0, m, g, |p.A|, G);
      var pid: nat := m * G + g;
      assert pid in order;
      var h :| 0 <= h < |order| && order[h] == pid;
      assert ProgramDone(p, AS[..], order[h]);
    }
  }

  ghost predicate ProgramDone(p: Problem, sums: seq<real>, pid: nat)
    requires p.Valid() && p.K % p.GK == 0
  {
    p.K / p.GK > 0 && SumAt(p, sums, pid / (p.K / p.GK), pid % (p.K / p.GK))
  }

  lemma ProgramKept(p: Problem, before: seq<real>, after: seq<real>, other: nat, pid: nat)
    requires p.Valid() && p.K % p.GK == 0 && ProgramDone(p, before, other)
    requires pid < |before| == |after| && other != pid && after == before[pid := after[pid]]
    ensures ProgramDone(p, after, other)
  {
    hide Problem.Routed, Problem.Tensors, RowPart;
    var G := p.K / p.GK;
    assert other / G * G + other % G == other;
  }

  /** One program of group_sum. */
  method GroupSum(p: Problem, pid: nat, AS: array<real>)
    requires p.Valid() && p.K % p.GK == 0 && AS.Length == |p.A| * (p.K / p.GK) && pid < AS.Length
    modifies AS
    ensures ProgramDone(p, AS[..], pid)
    ensures AS[..] == old(AS[..])[pid := AS[pid]]
  {
    hide Problem.Routed, Problem.Tensors, RowPart;
    var G := p.K / p.GK;
    CellOf(pid, 0, 0, |p.A|, G);
    var m, g := pid / G, pid % G;
    GroupEnds(g, p.K, p.GK);
    RowSumIsRowPart(p, m, g * p.GK, p.GK);
    AS[m * G + g] := RowSum(LoadRow(p, m, g * p.GK), 0, p.GK);
  }

  /** tl.load(AS + (tok // top_k) * ng + gi, mask=tok < num_valid, other=0.) */
  function LoadSums(p: Problem, sums: seq<real>, tok: seq<int>, gi: nat): int -> real
    requires p.Valid() && p.K % p.GK == 0 && GroupSums(p, sums) && gi < p.K / p.GK
  {
    i => if 0 <= i < |tok| && 0 <= tok[i] < p.NumValid() then
           QuotientInRange(tok[i], p.topK, |p.A|);
           assert SumAt(p, sums, tok[i] / p.topK, gi);
           sums[tok[i] / p.topK * (p.K / p.GK) + gi]
         else 0.0
  }

  lemma SumsAreASums(p: Problem, sums: seq<real>, tok: seq<int>, gi: nat, i: int)
    requires p.Valid() && p.K % p.GK == 0 && GroupSums(p, sums) && gi < p.K / p.GK
    requires 0 <= i < |tok| && 0 <= tok[i]
    ensures LoadSums(p, sums, tok, gi)(i) == p.ASum(tok[i], gi * p.GK, gi * p.GK + p.GK)
  {
    hide Problem.Routed, Problem.Tensors, RowPart, Problem.ASum;
    GroupEnds(gi, p.K, p.GK);
    if tok[i] < p.NumValid() {
      ASumOfRow(p, tok[i], gi * p.GK, gi * p.GK + p.GK);
      assert SumAt(p, sums, tok[i] / p.topK, gi);
    } else {
      ASumOfPadding(p, tok[i], gi * p.GK, gi * p.GK + p.GK);
    }
  }

  /** The routed kernel that reads the sums. */
  method PresumTile(p: Problem, sums: seq<real>, tok: seq<int>, e: int, n0: nat) returns (acc: Tile)
    requires p.Valid() && 0 <= e < p.E && p.K % p.GK == 0 && GroupSums(p, sums)
    requires forall i :: 0 <= i < |tok| ==> 0 <= tok[i]
    ensures p.K <= p.Span() && LanesHold(p, tok, e, n0, acc, p.K)
  {
    hide Problem.AVal, Problem.QVal, Problem.ZVal, Problem.SVal, Problem.Tensors, Problem.Routed, LanesHold, GroupSums;
    p.SpanCovers();
    acc := (i, j) => 0.0;
    EmptyTile(p, tok, e, n0, acc);
    var start := 0;
    while start < p.K
      invariant 0 <= start <= p.Span() && start % p.GK == 0
      invariant LanesHold(p, tok, e, n0, acc, start)
    {
      p.GroupIndex(start);
      acc := PresumGroup(p, sums, tok, e, n0, start, acc);
      NextGroup(start, p.GK);
      start := start + p.GK;
    }
    FinishTile(p, tok, e, n0, acc, start);
  }

  method PresumGroup(p: Problem, sums: seq<real>, tok: seq<int>, e: int, n0: nat, start: nat, acc0: Tile)
    returns (acc: Tile)
    requires p.Valid() && 0 <= e < p.E && p.K % p.GK == 0 && GroupSums(p, sums)
    requires start < p.K && start % p.GK == 0 && 0 <= start / p.GK < p.Groups() && start + p.GK <= p.Span()
    requires forall i :: 0 <= i < |tok| ==> 0 <= tok[i]
    requires LanesHold(p, tok, e, n0, acc0, start)
    ensures LanesHold(p, tok, e, n0, acc, start + p.GK)
  {
    hide Problem.ZVal, Problem.SVal, Problem.Tensors, Problem.Routed, LanesHold, GroupSums, LoadSums;
    var gi := start / p.GK;
    WholeGroup(start, p.K, p.GK);
    var scale := LoadScales(p, e, n0, gi);
    var zp := LoadZeros(p, e, n0, gi);
    var asum := LoadSums(p, sums, tok, gi);
    forall i | 0 <= i < |tok| && 0 <= tok[i] ensures asum(i) == p.ASum(tok[i], start, start + p.GK) {
      SumsAreASums(p, sums, tok, gi, i);
    }
    var qacc := CodeDots(p, tok, e, n0, start);
    acc := (i, j) => acc0(i, j) + (qacc(i, j) * scale(j) - asum(i) * (zp(j) * scale(j)));
    CloseGroup(p, tok, e, n0, start, acc0, qacc, asum, scale, j => zp(j) * scale(j), acc);
  }

  lemma WholeGroup(start: int, K: nat, GK: nat)
    requires GK > 0 && K % GK == 0 && 0 <= start < K && start % GK == 0
    ensures 0 <= start / GK < K / GK && start == start / GK * GK
  {
    assert K == K / GK * GK;
    QuotientInRange(start, GK, K / GK);
  }

  /** The inner loop without the activation sum. */
  method CodeDots(p: Problem, tok: seq<int>, e: int, n0: nat, start: nat) returns (qacc: Tile)
    requires p.Valid() && 0 <= e < p.E
    requires forall i :: 0 <= i < |tok| ==> 0 <= tok[i]
    ensures forall i, j :: 0 <= i < |tok| && 0 <= j ==> qacc(i, j) == p.QDot(e, tok[i], n0 + j, start, start + p.GK)
  {
    hide Problem.AVal, Problem.QVal, Problem.Tensors, Problem.Routed;
    qacc := (i, j) => 0.0;
    var sub := 0;
    while sub < p.GK
      invariant 0 <= sub <= p.GK && sub % p.BK == 0
      invariant forall i, j :: 0 <= i < |tok| && 0 <= j ==> qacc(i, j) == p.QDot(e, tok[i], n0 + j, start, start + sub)
    {
      StepWithin(sub, p.BK, p.GK);
      var kk := start + sub;
      var a := LoadActivations(p, tok, kk);
      var q := LoadCodes(p, e, n0, kk);
      forall i, j | 0 <= i < |tok| && 0 <= j
        ensures qacc(i, j) + DotSum(a, q, i, j, p.BK) == p.QDot(e, tok[i], n0 + j, start, kk + p.BK)
      {
        DotIsQDot(p, tok, e, n0, start, kk, i, j, p.BK);
      }
      qacc := TileDot(a, q, p.BK, qacc);
      sub := sub + p.BK;
    }
  }
}
