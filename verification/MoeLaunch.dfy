/** Launching a routed kernel: the grid of programs stores tiles into the flat output buffer. */
module MoeLaunch {
  import opened Arith
  import opened AwqLayout
  import opened MoeKernels
  import opened MoePresum
  import opened MoeProblem

  /** The four kernels, with the precomputed tensor two of them read. */
  datatype Form = Correction(R: Tensor<real>) | Dequant | Algebraic | Presum(sums: seq<real>)

  ghost predicate Ready(p: Problem, form: Form)
    requires p.Valid()
  {
    match form
    case Correction(R) => IsCorrection(p, R)
    case Presum(sums) => p.K % p.GK == 0 && GroupSums(p, sums)
    case _ => true
  }

  /** C + tok * stride_cm + n * stride_cn */
  datatype View = View(scm: nat, scn: nat) {
    function Addr(t: int, n: int): int {
      t * scm + n * scn
    }

    /** Distinct valid cells have distinct addresses inside the buffer. */
    ghost predicate Fits(slots: nat, N: nat, size: nat) {
      && (forall t, n :: 0 <= t < slots && 0 <= n < N ==> 0 <= Addr(t, n) < size)
      && (forall t, n, t', n' ::
            (0 <= t < slots && 0 <= n < N && 0 <= t' < slots && 0 <= n' < N && Addr(t, n) == Addr(t', n')) ==>
            (t == t' && n == n'))
    }

    ghost predicate IsCell(slots: nat, N: nat, x: int) {
      exists t, n :: 0 <= t < slots && 0 <= n < N && Addr(t, n) == x
    }
  }

  /** A contiguous (slots, N) view, as _resize_cache makes it. */
  lemma ContiguousFits(slots: nat, N: nat, size: nat)
    requires slots * N <= size
    ensures View(N, 1).Fits(slots, N, size)
  {
    var v := View(N, 1);
    forall t, n | 0 <= t < slots && 0 <= n < N ensures 0 <= v.Addr(t, n) < size {
      RowMajorInRange(t, n, slots, N);
    }
    forall t, n, t', n' | 0 <= t < slots && 0 <= n < N && 0 <= t' < slots && 0 <= n' < N
      && v.Addr(t, n) == v.Addr(t', n')
      ensures t == t' && n == n'
    {
      RowMajorUnique(t, n, t', n', N);
    }
  }

  /** A lane whose store is not masked off. */
  predicate Active(p: Problem, pid: int, i: int, j: int)
    requires p.Sizes() && p.table.Blocked(p.BM) && p.table.npost <= |p.table.sorted|
  {
    && 0 <= pid < p.Grid() && 0 <= i < p.BM && 0 <= j < p.BN
    && 0 <= p.TileM(pid) && p.TileM(pid) * p.BM < p.table.npost
    && 0 <= p.TileM(pid) * p.BM + i < p.table.npost
    && 0 <= Slot(p, pid, i) < p.NumValid() && 0 <= Column(p, pid, j) < p.N
  }

  function Slot(p: Problem, pid: nat, i: nat): int
    requires p.Sizes() && pid < p.Grid() && 0 <= p.TileM(pid) * p.BM + i < |p.table.sorted|
  {
    p.table.sorted[p.TileM(pid) * p.BM + i]
  }

  function Column(p: Problem, pid: nat, j: nat): int
    requires p.Sizes() && pid < p.Grid()
  {
    p.TileN(pid) * p.BN + j
  }

  /** Cells and active lanes correspond one to one: every valid cell has an active lane of its owner, and
      any active lane for it is that one. So each valid cell is stored exactly once over the grid. */
  lemma CellHasLane(p: Problem, t: int, n: int)
    requires p.Valid() && 0 <= t < p.NumValid() && 0 <= n < p.N
    ensures p.table.HasSlot(t)
    ensures Active(p, p.Owner(t, n), p.table.Position(t) % p.BM, n % p.BN)
    ensures Slot(p, p.Owner(t, n), p.table.Position(t) % p.BM) == t && Column(p, p.Owner(t, n), n % p.BN) == n
  {
    hide Problem.Tensors, Problem.Owner, Problem.TileM, Problem.TileN, Problem.Grid;
    p.OwnerHasLane(t, n);
    var pid := p.Owner(t, n);
    OwnersTile(p, t, n);
    p.TableInBounds(pid);
  }

  lemma OwnersTile(p: Problem, t: int, n: int)
    requires p.Sizes() && p.table.HasSlot(t) && 0 <= n < p.N && 0 <= p.Owner(t, n) < p.Grid()
    requires p.TileM(p.Owner(t, n)) * p.BM + p.table.Position(t) % p.BM == p.table.Position(t) < p.table.npost
    ensures p.TileM(p.Owner(t, n)) * p.BM < p.table.npost
  {
    hide Problem.Owner, Problem.TileM;
  }

  lemma LaneHasCell(p: Problem, pid: int, i: int, j: int)
    requires p.Valid() && Active(p, pid, i, j)
    ensures var t, n := Slot(p, pid, i), Column(p, pid, j);
            p.table.HasSlot(t) && p.Owner(t, n) == pid && p.table.Position(t) % p.BM == i && n % p.BN == j
  {
    hide Problem.Tensors, Problem.Owner, Problem.TileM, Problem.TileN, Problem.Grid;
    p.TableInBounds(pid);
    p.LaneIsOwners(pid, i, j);
    DivModUnique(p.TileM(pid) * p.BM + i, p.BM, p.TileM(pid), i);
  }

  // ------------------------------------------------------- one program

  /** What one program does to the buffer: its owner's cells get their value, everything else stays. */
  ghost predicate Stored(p: Problem, v: View, pid: int, before: seq<real>, after: seq<real>)
    requires p.Valid() && |before| == |after| && v.Fits(p.NumValid(), p.N, |before|)
  {
    && (forall t, n :: 0 <= t < p.NumValid() && 0 <= n < p.N ==> CellStored(p, v, pid, before, after, t, n))
    && (forall x :: 0 <= x < |before| && !v.IsCell(p.NumValid(), p.N, x) ==> after[x] == before[x])
  }

  ghost predicate CellStored(p: Problem, v: View, pid: int, before: seq<real>, after: seq<real>, t: int, n: int)
    requires p.Valid() && |before| == |after| && v.Fits(p.NumValid(), p.N, |before|)
    requires 0 <= t < p.NumValid() && 0 <= n < p.N
  {
    && p.table.HasSlot(t)
    && after[v.Addr(t, n)] == if p.Owner(t, n) == pid then p.Cell(t, n) else before[v.Addr(t, n)]
  }

  lemma LanesDistinct(p: Problem, v: View, size: nat, pid: int, i: int, j: int, i': int, j': int)
    requires p.Valid() && v.Fits(p.NumValid(), p.N, size) && Active(p, pid, i, j) && Active(p, pid, i', j')
    requires v.Addr(Slot(p, pid, i), Column(p, pid, j)) == v.Addr(Slot(p, pid, i'), Column(p, pid, j'))
    ensures i == i' && j == j'
  {
    hide Problem.Tensors, Problem.TileM, Problem.TileN, Problem.Grid, View.Addr;
    LaneHasCell(p, pid, i, j);
    LaneHasCell(p, pid, i', j');
  }

  /** tl.store(C + tok * scm + n * scn, value, mask=token_mask & n_mask): a parallel masked store. */
  method StoreTile(p: Problem, v: View, pid: nat, value: Tile, C: array<real>)
    requires p.Valid() && v.Fits(p.NumValid(), p.N, C.Length) && pid < p.Grid()
    requires 0 <= p.TileM(pid) && p.TileM(pid) * p.BM < p.table.npost
    requires 0 <= p.TileM(pid) * p.BM && p.TileM(pid) * p.BM + p.BM <= p.table.npost
    requires forall i, j :: Active(p, pid, i, j) ==> value(i, j) == p.Cell(Slot(p, pid, i), Column(p, pid, j))
    modifies C
    ensures Stored(p, v, pid, old(C[..]), C[..])
  {
    hide Problem.Tensors, Problem.TileM, Problem.TileN, Problem.Grid, Problem.Owner, Problem.Cell, View.Addr, Slot;
    ghost var before := C[..];
    forall i, j, i', j' | Active(p, pid, i, j) && Active(p, pid, i', j')
      && v.Addr(Slot(p, pid, i), Column(p, pid, j)) == v.Addr(Slot(p, pid, i'), Column(p, pid, j'))
      ensures i == i' && j == j'
    {
      LanesDistinct(p, v, C.Length, pid, i, j, i', j');
    }
    forall i, j | 0 <= i < p.BM && 0 <= j < p.BN && Active(p, pid, i, j) {
      C[v.Addr(Slot(p, pid, i), Column(p, pid, j))] := value(i, j);
    }
    forall t, n | 0 <= t < p.NumValid() && 0 <= n < p.N ensures CellStored(p, v, pid, before, C[..], t, n) {
      CellHasLane(p, t, n);
      if p.Owner(t, n) != pid {
        forall i, j | Active(p, pid, i, j) ensures v.Addr(Slot(p, pid, i), Column(p, pid, j)) != v.Addr(t, n) {
          LaneHasCell(p, pid, i, j);
        }
      }
    }
  }

  /** One program of any of the kernels. The unmasked loads of the two tables are in bounds; programs past
      the filled part return, and a block of another rank stores zeros. */
  method Program(p: Problem, form: Form, v: View, pid: nat, C: array<real>)
    requires p.Valid() && Ready(p, form) && v.Fits(p.NumValid(), p.N, C.Length) && pid < p.Grid()
    modifies C
    ensures Stored(p, v, pid, old(C[..]), C[..])
  {
    hide Problem.Tensors, Problem.Grid, Problem.Owner, Problem.Cell, View.Addr, Ready, LanesHold, Active;
    hide Problem.TileM, Problem.TileN, Slot, Column;
    if p.TileM(pid) * p.BM >= p.table.npost {
      SkippedProgram(p, v, pid, C[..]);
      return;
    }
    p.TableInBounds(pid);
    var value := TileOf(p, form, pid);
    StoreTile(p, v, pid, value, C);
  }

  /** What a program that is not skipped has in registers when it comes to its store. */
  method TileOf(p: Problem, form: Form, pid: nat) returns (value: Tile)
    requires p.Valid() && Ready(p, form) && pid < p.Grid() && p.TileM(pid) * p.BM < p.table.npost
    ensures forall i, j :: Active(p, pid, i, j) ==> value(i, j) == p.Cell(Slot(p, pid, i), Column(p, pid, j))
  {
    hide Problem.Tensors, Problem.Grid, Problem.Owner, Problem.Cell, Ready, LanesHold, Active;
    hide Problem.TileM, Problem.TileN, Slot, Column;
    var m := p.TileM(pid);
    var n := p.TileN(pid);
    p.TableInBounds(pid);
    var tok := p.table.sorted[m * p.BM..m * p.BM + p.BM];
    var e := p.table.experts[m];
    if e == -1 {
      LaneValuesZero(p, pid);
      value := (i, j) => 0.0;
      return;
    }
    var n0 := n * p.BN;
    assert n0 >= 0;
    value := ComputeTile(p, form, tok, e, n0);
    LaneValues(p, pid, tok, e, value);
  }

  method ComputeTile(p: Problem, form: Form, tok: seq<int>, e: int, n0: nat) returns (acc: Tile)
    requires p.Valid() && Ready(p, form) && 0 <= e < p.E
    requires forall i :: 0 <= i < |tok| ==> 0 <= tok[i]
    ensures p.K <= p.Span() && LanesHold(p, tok, e, n0, acc, p.K)
  {
    match form
    case Correction(R) => acc := CorrectionTile(p, R, tok, e, n0);
    case Dequant => acc := DequantTile(p, tok, e, n0);
    case Algebraic => acc := AlgebraicTile(p, tok, e, n0);
    case Presum(sums) => acc := PresumTile(p, sums, tok, e, n0);
  }

  lemma SkippedProgram(p: Problem, v: View, pid: nat, before: seq<real>)
    requires p.Valid() && v.Fits(p.NumValid(), p.N, |before|) && pid < p.Grid()
    requires p.TileM(pid) * p.BM >= p.table.npost
    ensures Stored(p, v, pid, before, before)
  {
    hide Problem.Tensors, Problem.TileM, Problem.TileN, Problem.Grid, Problem.Owner, Problem.Cell, View.Addr;
    forall t, n | 0 <= t < p.NumValid() && 0 <= n < p.N ensures CellStored(p, v, pid, before, before, t, n) {
      CellHasLane(p, t, n);
    }
  }

  /** In a block of another rank every valid slot was routed to -1, so its cells are zero. */
  lemma LaneValuesZero(p: Problem, pid: nat)
    requires p.Valid() && pid < p.Grid()
    requires 0 <= p.TileM(pid) < |p.table.experts| && p.table.experts[p.TileM(pid)] == -1
    ensures forall i, j :: Active(p, pid, i, j) ==> 0.0 == p.Cell(Slot(p, pid, i), Column(p, pid, j))
  {
    hide Problem.Tensors, Problem.TileM, Problem.TileN, Problem.Grid;
    forall i, j | Active(p, pid, i, j) ensures 0.0 == p.Cell(Slot(p, pid, i), Column(p, pid, j)) {
      p.BlockExpert(p.TileM(pid), i);
    }
  }

  lemma LaneValues(p: Problem, pid: nat, tok: seq<int>, e: int, acc: Tile)
    requires p.Valid() && pid < p.Grid() && 0 <= p.TileN(pid) * p.BN && p.K <= p.Span()
    requires 0 <= p.TileM(pid) < |p.table.experts| && p.table.experts[p.TileM(pid)] == e && 0 <= e < p.E
    requires 0 <= p.TileM(pid) * p.BM && p.TileM(pid) * p.BM + p.BM <= p.table.npost
    requires tok == p.table.sorted[p.TileM(pid) * p.BM..p.TileM(pid) * p.BM + p.BM]
    requires LanesHold(p, tok, e, p.TileN(pid) * p.BN, acc, p.K)
    ensures forall i, j :: Active(p, pid, i, j) ==> acc(i, j) == p.Cell(Slot(p, pid, i), Column(p, pid, j))
  {
    hide Problem.Tensors, Problem.TileM, Problem.TileN, Problem.Grid, Problem.Product;
    forall i, j | Active(p, pid, i, j) ensures acc(i, j) == p.Cell(Slot(p, pid, i), Column(p, pid, j)) {
      p.BlockExpert(p.TileM(pid), i);
      assert tok[i] == Slot(p, pid, i);
    }
  }

  // --------------------------------------------------------- the whole grid

  /** Every valid cell holds the plain product, and no other cell of the buffer changed. */
  ghost predicate Computed(p: Problem, v: View, before: seq<real>, after: seq<real>)
    requires p.Valid() && |before| == |after| && v.Fits(p.NumValid(), p.N, |before|)
  {
    && (forall t, n :: 0 <= t < p.NumValid() && 0 <= n < p.N ==> after[v.Addr(t, n)] == p.Cell(t, n))
    && (forall x :: 0 <= x < |before| && !v.IsCell(p.NumValid(), p.N, x) ==> after[x] == before[x])
  }

  ghost predicate Progress(p: Problem, v: View, done: set<int>, before: seq<real>, after: seq<real>)
    requires p.Valid() && |before| == |after| && v.Fits(p.NumValid(), p.N, |before|)
  {
    && (forall t, n :: 0 <= t < p.NumValid() && 0 <= n < p.N ==>
          CellDone(p, v, done, after, t, n))
    && (forall x :: 0 <= x < |before| && !v.IsCell(p.NumValid(), p.N, x) ==> after[x] == before[x])
  }

  ghost predicate CellDone(p: Problem, v: View, done: set<int>, after: seq<real>, t: int, n: int)
    requires p.Valid() && v.Fits(p.NumValid(), p.N, |after|)
    requires 0 <= t < p.NumValid() && 0 <= n < p.N
  {
    p.table.HasSlot(t) && (p.Owner(t, n) in done ==> after[v.Addr(t, n)] == p.Cell(t, n))
  }

  lemma ProgressStep(p: Problem, v: View, done: set<int>, pid: nat, start: seq<real>, before: seq<real>, after: seq<real>)
    requires p.Valid() && |start| == |before| == |after| && v.Fits(p.NumValid(), p.N, |before|)
    requires Progress(p, v, done, start, before) && Stored(p, v, pid, before, after)
    ensures Progress(p, v, done + {pid}, start, after)
  {
    hide Problem.Tensors, Problem.Routed, Problem.Owner, Problem.Cell, View.Addr;
    forall t, n | 0 <= t < p.NumValid() && 0 <= n < p.N
      ensures CellDone(p, v, done + {pid}, after, t, n)
    {
      assert CellDone(p, v, done, before, t, n);
      assert CellStored(p, v, pid, before, after, t, n);
    }
  }

  /** The grid of a launch, run one program after another in any order: the product in every valid cell,
      whichever kernel computes it. */
  method Launch(p: Problem, form: Form, v: View, order: seq<nat>, C: array<real>)
    requires p.Valid() && Ready(p, form) && v.Fits(p.NumValid(), p.N, C.Length)
    requires forall pid :: pid in order <==> 0 <= pid < p.Grid()
    modifies C
    ensures Computed(p, v, old(C[..]), C[..])
  {
    hide Problem.Tensors, Problem.Routed, Problem.Grid, Problem.Owner, Problem.Cell, View.Addr, View.Fits, Stored, Progress, Ready, Computed;
    ghost var start := C[..];
    ghost var done: set<int> := {};
    NothingDone(p, v, start);
    for k := 0 to |order|
      invariant Progress(p, v, done, start, C[..])
      invariant forall pid :: 0 <= pid < k ==> order[pid] in done
    {
      ghost var before := C[..];
      assert order[k] in order;
      Program(p, form, v, order[k], C);
      ProgressStep(p, v, done, order[k], start, before, C[..]);
      done := done + {order[k] as int};
    }
    forall pid | 0 <= pid < p.Grid() ensures pid in done {
      assert pid in order;
      var k :| 0 <= k < |order| && order[k] == pid;
    }
    AllDone(p, v, done, start, C[..]);
  }

  /** launch of the presummed kernel: the group_sum grid, then the routed grid that reads what it left. */
  method LaunchPresum(p: Problem, v: View, sumOrder: seq<nat>, order: seq<nat>, AS: array<real>, C: array<real>)
    requires p.Valid() && p.K % p.GK == 0 && AS.Length == |p.A| * (p.K / p.GK) && AS != C
    requires v.Fits(p.NumValid(), p.N, C.Length)
    requires forall pid :: pid in sumOrder <==> 0 <= pid < AS.Length
    requires forall pid :: pid in order <==> 0 <= pid < p.Grid()
    modifies AS, C
    ensures Computed(p, v, old(C[..]), C[..])
  {
    hide Problem.Tensors, Problem.Routed, Problem.Grid, View.Addr, View.Fits, GroupSums, Computed;
    FillGroupSums(p, sumOrder, AS);
    Launch(p, Presum(AS[..]), v, order, C);
  }

  lemma NothingDone(p: Problem, v: View, start: seq<real>)
    requires p.Valid() && v.Fits(p.NumValid(), p.N, |start|)
    ensures Progress(p, v, {}, start, start)
  {
    hide Problem.Tensors, Problem.Owner, View.Addr;
  }

  lemma AllDone(p: Problem, v: View, done: set<int>, start: seq<real>, after: seq<real>)
    requires p.Valid() && |start| == |after| && v.Fits(p.NumValid(), p.N, |start|)
    requires Progress(p, v, done, start, after)
    requires forall pid :: 0 <= pid < p.Grid() ==> pid in done
    ensures Computed(p, v, start, after)
  {
    hide Problem.Tensors, Problem.Routed, Problem.Owner, View.Addr, Problem.Grid, Problem.Cell;
    forall t, n | 0 <= t < p.NumValid() && 0 <= n < p.N ensures after[v.Addr(t, n)] == p.Cell(t, n) {
      assert CellDone(p, v, done, after, t, n);
      p.OwnerHasLane(t, n);
    }
  }

  // ------------------------------------------------- interleaved programs

  /** One lane of one program. */
  datatype Lane = Lane(pid: int, i: int, j: int)

  ghost predicate ActiveLane(p: Problem, l: Lane)
    requires p.Valid()
  {
    Active(p, l.pid, l.i, l.j)
  }

  ghost predicate ActiveLanes(p: Problem, lanes: seq<Lane>)
    requires p.Valid()
  {
    forall k :: 0 <= k < |lanes| ==> ActiveLane(p, lanes[k])
  }

  /** The cell a lane stores to. */
  ghost function LaneCell(p: Problem, l: Lane): (cell: (int, int))
    requires p.Valid() && ActiveLane(p, l)
    ensures 0 <= cell.0 < p.NumValid() && 0 <= cell.1 < p.N
  {
    (Slot(p, l.pid, l.i), Column(p, l.pid, l.j))
  }

  /** The lane that stores a valid cell. */
  ghost function CellLane(p: Problem, t: int, n: int): (l: Lane)
    requires p.Valid() && 0 <= t < p.NumValid() && 0 <= n < p.N
    ensures ActiveLane(p, l) && LaneCell(p, l) == (t, n)
  {
    CellHasLane(p, t, n);
    Lane(p.Owner(t, n), p.table.Position(t) % p.BM, n % p.BN)
  }

  /** No two active lanes share a cell. */
  lemma LaneOfCell(p: Problem, l: Lane)
    requires p.Valid() && ActiveLane(p, l)
    ensures CellLane(p, LaneCell(p, l).0, LaneCell(p, l).1) == l
  {
    hide Problem.Tensors, Problem.Routed, Problem.Sizes, Problem.TileM, Problem.TileN, Problem.Grid, Problem.Owner, Active, Slot, Column;
    LaneHasCell(p, l.pid, l.i, l.j);
  }

  /** One masked store of whatever value the lane holds. */
  ghost function LaneStore(p: Problem, v: View, values: Lane -> real, l: Lane, c: seq<real>): (c': seq<real>)
    requires p.Valid() && v.Fits(p.NumValid(), p.N, |c|) && ActiveLane(p, l)
    ensures |c'| == |c|
  {
    var cell := LaneCell(p, l);
    c[v.Addr(cell.0, cell.1) := values(l)]
  }

  ghost function RunLanes(p: Problem, v: View, values: Lane -> real, lanes: seq<Lane>, c: seq<real>): (c': seq<real>)
    requires p.Valid() && v.Fits(p.NumValid(), p.N, |c|) && ActiveLanes(p, lanes)
    ensures |c'| == |c|
  {
    if |lanes| == 0 then c
    else LaneStore(p, v, values, lanes[|lanes| - 1], RunLanes(p, v, values, lanes[..|lanes| - 1], c))
  }

  lemma LaneStoreAt(p: Problem, v: View, values: Lane -> real, l: Lane, c: seq<real>, t: int, n: int)
    requires p.Valid() && v.Fits(p.NumValid(), p.N, |c|) && ActiveLane(p, l)
    requires 0 <= t < p.NumValid() && 0 <= n < p.N
    ensures LaneStore(p, v, values, l, c)[v.Addr(t, n)]
         == if LaneCell(p, l) == (t, n) then values(l) else c[v.Addr(t, n)]
  {
    hide Problem.Valid, View.Addr, LaneCell, ActiveLane;
  }

  /** Whatever the lanes hold and in whatever order they store, a cell ends with the value of its one lane. */
  lemma {:induction false} CellHoldsItsLane(p: Problem, v: View, values: Lane -> real, lanes: seq<Lane>, c: seq<real>,
                                            t: int, n: int)
    requires p.Valid() && v.Fits(p.NumValid(), p.N, |c|) && ActiveLanes(p, lanes)
    requires 0 <= t < p.NumValid() && 0 <= n < p.N && CellLane(p, t, n) in lanes
    ensures RunLanes(p, v, values, lanes, c)[v.Addr(t, n)] == values(CellLane(p, t, n))
  {
    hide Problem.Valid, View.Addr, View.Fits, LaneCell, CellLane, ActiveLane, LaneStore;
    var last := lanes[|lanes| - 1];
    var rest := lanes[..|lanes| - 1];
    FitsAt(p, v, |c|, t, n);
    LaneStoreAt(p, v, values, last, RunLanes(p, v, values, rest, c), t, n);
    if LaneCell(p, last) == (t, n) {
      LaneOfCell(p, last);
    } else {
      assert CellLane(p, t, n) in rest;
      CellHoldsItsLane(p, v, values, rest, c, t, n);
    }
  }

  lemma FitsAt(p: Problem, v: View, size: nat, t: int, n: int)
    requires v.Fits(p.NumValid(), p.N, size) && 0 <= t < p.NumValid() && 0 <= n < p.N
    ensures 0 <= v.Addr(t, n) < size
  {
  }

  lemma {:induction false} RunLanesOther(p: Problem, v: View, values: Lane -> real, lanes: seq<Lane>, c: seq<real>, x: int)
    requires p.Valid() && v.Fits(p.NumValid(), p.N, |c|) && 0 <= x < |c| && !v.IsCell(p.NumValid(), p.N, x)
    requires ActiveLanes(p, lanes)
    ensures RunLanes(p, v, values, lanes, c)[x] == c[x]
  {
    hide Problem.Valid, View.Addr, ActiveLane, LaneCell;
    if |lanes| > 0 {
      RunLanesOther(p, v, values, lanes[..|lanes| - 1], c, x);
    }
  }

  ghost predicate AllLanes(p: Problem, lanes: seq<Lane>)
    requires p.Valid()
  {
    ActiveLanes(p, lanes) && forall l :: ActiveLane(p, l) ==> l in lanes
  }

  /** Any two interleavings of the stores of all programs leave the same buffer, whatever values are stored. */
  lemma AnyInterleaving(p: Problem, v: View, values: Lane -> real, lanes: seq<Lane>, others: seq<Lane>, c: seq<real>)
    requires p.Valid() && v.Fits(p.NumValid(), p.N, |c|) && AllLanes(p, lanes) && AllLanes(p, others)
    ensures RunLanes(p, v, values, lanes, c) == RunLanes(p, v, values, others, c)
  {
    hide Problem.Valid, View.Addr, ActiveLane, RunLanes, CellLane, LaneCell;
    var a, b := RunLanes(p, v, values, lanes, c), RunLanes(p, v, values, others, c);
    forall x | 0 <= x < |c| ensures a[x] == b[x] {
      if v.IsCell(p.NumValid(), p.N, x) {
        var t, n :| 0 <= t < p.NumValid() && 0 <= n < p.N && v.Addr(t, n) == x;
        CellHoldsItsLane(p, v, values, lanes, c, t, n);
        CellHoldsItsLane(p, v, values, others, c, t, n);
      } else {
        RunLanesOther(p, v, values, lanes, c, x);
        RunLanesOther(p, v, values, others, c, x);
      }
    }
  }

  /** The values each program computed are the products of its cells. */
  ghost predicate Values(p: Problem, values: Lane -> real)
    requires p.Valid()
  {
    forall l :: ActiveLane(p, l) ==> values(l) == p.Cell(LaneCell(p, l).0, LaneCell(p, l).1)
  }

  lemma RunLanesComputes(p: Problem, v: View, values: Lane -> real, lanes: seq<Lane>, c: seq<real>)
    requires p.Valid() && v.Fits(p.NumValid(), p.N, |c|) && AllLanes(p, lanes) && Values(p, values)
    ensures Computed(p, v, c, RunLanes(p, v, values, lanes, c))
  {
    hide Problem.Valid, View.Addr, View.Fits, ActiveLane, RunLanes, CellLane, LaneCell, Problem.Cell;
    var after := RunLanes(p, v, values, lanes, c);
    forall t, n | 0 <= t < p.NumValid() && 0 <= n < p.N
      ensures 0 <= v.Addr(t, n) < |c| && after[v.Addr(t, n)] == p.Cell(t, n)
    {
      FitsAt(p, v, |c|, t, n);
      CellHoldsItsLane(p, v, values, lanes, c, t, n);
    }
    forall x | 0 <= x < |c| && !v.IsCell(p.NumValid(), p.N, x) ensures after[x] == c[x] {
      RunLanesOther(p, v, values, lanes, c, x);
    }
  }

  /** All programs at once: each computes its tile from the inputs alone, and their stores then reach the
      buffer one lane at a time in any order. The kernels read nothing that any of them writes. */
  method LaunchInterleaved(p: Problem, form: Form, v: View, lanes: seq<Lane>, C: array<real>)
    requires p.Valid() && Ready(p, form) && v.Fits(p.NumValid(), p.N, C.Length) && AllLanes(p, lanes)
    modifies C
    ensures Computed(p, v, old(C[..]), C[..])
  {
    hide Problem.Tensors, Problem.Routed, Problem.TileM, Problem.TileN, Problem.Grid, Problem.Owner, Problem.Cell;
    hide View.Addr, View.Fits, Ready, Computed, AllLanes, Values, RunLanes, LaneStore, Active, Slot, Column;
    var tiles := AllTiles(p, form);
    var values := (l: Lane) => if 0 <= l.pid < |tiles| then tiles[l.pid](l.i, l.j) else 0.0;
    TilesAreValues(p, tiles, values);
    ghost var start := C[..];
    LanesActive(p, lanes);
    RunNone(p, v, values, start);
    for k := 0 to |lanes|
      invariant C[..] == RunLanes(p, v, values, lanes[..k], start)
    {
      var l := lanes[k];
      assert ActiveLane(p, l);
      StoredCell(p, l);
      var t, n := Slot(p, l.pid, l.i), Column(p, l.pid, l.j);
      FitsAt(p, v, C.Length, t, n);
      RunOneMore(p, v, values, lanes, start, k);
      ghost var before := C[..];
      C[v.Addr(t, n)] := values(l);
      assert C[..] == before[v.Addr(t, n) := values(l)];
    }
    assert lanes[..|lanes|] == lanes;
    RunLanesComputes(p, v, values, lanes, start);
  }

  lemma LanesActive(p: Problem, lanes: seq<Lane>)
    requires p.Valid() && AllLanes(p, lanes)
    ensures forall k :: 0 <= k < |lanes| ==> ActiveLane(p, lanes[k])
    ensures ActiveLanes(p, lanes)
  {
    hide ActiveLane;
  }

  lemma RunNone(p: Problem, v: View, values: Lane -> real, c: seq<real>)
    requires p.Valid() && v.Fits(p.NumValid(), p.N, |c|)
    ensures RunLanes(p, v, values, [], c) == c
  {
  }

  lemma RunOneMore(p: Problem, v: View, values: Lane -> real, lanes: seq<Lane>, c: seq<real>, k: nat)
    requires p.Valid() && v.Fits(p.NumValid(), p.N, |c|) && ActiveLanes(p, lanes) && k < |lanes|
    ensures 0 <= v.Addr(LaneCell(p, lanes[k]).0, LaneCell(p, lanes[k]).1) < |c|
    ensures RunLanes(p, v, values, lanes[..k + 1], c)
         == RunLanes(p, v, values, lanes[..k], c)[v.Addr(LaneCell(p, lanes[k]).0, LaneCell(p, lanes[k]).1) := values(lanes[k])]
  {
    hide Problem.Valid, View.Addr, LaneCell, ActiveLane;
    assert lanes[..k + 1][..k] == lanes[..k];
  }

  lemma StoredCell(p: Problem, l: Lane)
    requires p.Valid() && ActiveLane(p, l)
    ensures 0 <= l.pid < p.Grid() && 0 <= l.i && 0 <= l.j
    ensures 0 <= p.TileM(l.pid) * p.BM + l.i < |p.table.sorted|
    ensures LaneCell(p, l) == (Slot(p, l.pid, l.i), Column(p, l.pid, l.j))
  {
  }

  method AllTiles(p: Problem, form: Form) returns (tiles: seq<Tile>)
    requires p.Valid() && Ready(p, form)
    ensures |tiles| == p.Grid()
    ensures forall pid :: 0 <= pid < |tiles| ==> TileHolds(p, pid, tiles[pid])
  {
    hide Problem.Tensors, Problem.Routed, Problem.Grid, Problem.TileM, Problem.Cell, Ready, Active, TileHolds;
    tiles := [];
    while |tiles| < p.Grid()
      invariant |tiles| <= p.Grid()
      invariant forall pid :: 0 <= pid < |tiles| ==> TileHolds(p, pid, tiles[pid])
    {
      var pid := |tiles|;
      var value: Tile := (i, j) => 0.0;
      if p.TileM(pid) * p.BM < p.table.npost {
        value := TileOf(p, form, pid);
      }
      TileHeld(p, pid, value);
      tiles := tiles + [value];
    }
  }

  ghost predicate TileHolds(p: Problem, pid: int, value: Tile)
    requires p.Valid()
  {
    forall i, j :: Active(p, pid, i, j) ==> value(i, j) == p.Cell(Slot(p, pid, i), Column(p, pid, j))
  }

  lemma TileHeld(p: Problem, pid: nat, value: Tile)
    requires p.Valid() && pid < p.Grid()
    requires p.TileM(pid) * p.BM < p.table.npost ==>
               forall i, j :: Active(p, pid, i, j) ==> value(i, j) == p.Cell(Slot(p, pid, i), Column(p, pid, j))
    ensures TileHolds(p, pid, value)
  {
    hide Problem.Tensors, Problem.Routed, Problem.TileM, Problem.TileN, Problem.Grid, Problem.Cell, Slot, Column;
  }

  lemma TilesAreValues(p: Problem, tiles: seq<Tile>, values: Lane -> real)
    requires p.Valid() && |tiles| == p.Grid()
    requires forall pid :: 0 <= pid < |tiles| ==> TileHolds(p, pid, tiles[pid])
    requires forall l: Lane :: 0 <= l.pid < |tiles| ==> values(l) == tiles[l.pid](l.i, l.j)
    ensures Values(p, values)
  {
    hide Problem.Tensors, Problem.Routed, Problem.TileM, Problem.TileN, Problem.Cell;
    forall l | ActiveLane(p, l) ensures values(l) == p.Cell(LaneCell(p, l).0, LaneCell(p, l).1) {
      assert TileHolds(p, l.pid, tiles[l.pid]);
    }
  }
}
