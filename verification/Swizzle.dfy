/** The grouped program-id order of the tiled kernels: groups of G tile rows are walked column by column.
    With G = 1 it is the plain row-major order of the hybrid kernel. */
module Swizzle {
  import opened Arith

  function GroupRows(group: nat, numM: nat, G: nat): int {
    Min(numM - group * G, G)
  }

  /** The tile row of a program: its group's first row plus its place within a column of the group. */
  function PidM(pid: nat, numM: nat, numN: nat, G: nat): int
    requires numN > 0 && G > 0 && pid < numM * numN
  {
    GroupOf(pid, numM, numN, G);
    var inGroup := G * numN;
    var group := pid / inGroup;
    group * G + pid % inGroup % GroupRows(group, numM, G)
  }

  function PidN(pid: nat, numM: nat, numN: nat, G: nat): int
    requires numN > 0 && G > 0 && pid < numM * numN
  {
    GroupOf(pid, numM, numN, G);
    var inGroup := G * numN;
    pid % inGroup / GroupRows(pid / inGroup, numM, G)
  }

  /** The program that owns a tile. */
  function PidOf(m: nat, n: nat, numM: nat, numN: nat, G: nat): int
    requires G > 0
  {
    var group := m / G;
    group * (G * numN) + (n * GroupRows(group, numM, G) + m % G)
  }

  /** A program's group starts inside the grid, and its place in the group is inside the group's rows. */
  lemma GroupOf(pid: nat, numM: nat, numN: nat, G: nat)
    requires numN > 0 && G > 0 && pid < numM * numN
    ensures G * numN > 0
    ensures 0 < GroupRows(pid / (G * numN), numM, G)
    ensures 0 <= pid % (G * numN) < numN * GroupRows(pid / (G * numN), numM, G)
  {
    var inGroup := G * numN;
    MulAtLeast(G, numN);
    var group, r := pid / inGroup, pid % inGroup;
    assert pid == (group * G) * numN + r by { assert inGroup * group == (group * G) * numN; }
    if group * G >= numM {
      MulMonotone(numM, group * G, numN);
    }
    assert numN * (numM - group * G) == numM * numN - (group * G) * numN;
  }

  /** Every program's tile lies in the grid, and the tile leads back to the program. */
  lemma PidRoundTrip(pid: nat, numM: nat, numN: nat, G: nat)
    requires numN > 0 && G > 0 && pid < numM * numN
    ensures 0 <= PidM(pid, numM, numN, G) < numM && 0 <= PidN(pid, numM, numN, G) < numN
    ensures PidOf(PidM(pid, numM, numN, G), PidN(pid, numM, numN, G), numM, numN, G) == pid
  {
    hide PidOf;
    GroupOf(pid, numM, numN, G);
    var inGroup := G * numN;
    var group, r := pid / inGroup, pid % inGroup;
    var rows := GroupRows(group, numM, G);
    var x, n := r % rows, r / rows;
    QuotientInRange(r, rows, numN);
    assert PidM(pid, numM, numN, G) == group * G + x && PidN(pid, numM, numN, G) == n;
    PidOfParts(group, x, n, numM, numN, G);
    SplitTwice(pid, inGroup, rows);
  }

  lemma SplitTwice(pid: nat, size: int, rows: int)
    requires size > 0 && rows > 0
    ensures pid / size * size + (pid % size / rows * rows + pid % size % rows) == pid
  {
  }

  lemma PidOfParts(group: nat, x: nat, n: nat, numM: nat, numN: nat, G: nat)
    requires x < G
    ensures PidOf(group * G + x, n, numM, numN, G) == group * (G * numN) + (n * GroupRows(group, numM, G) + x)
  {
    hide GroupRows;
    DivModUnique(group * G + x, G, group, x);
  }

  /** A group's rows, and the place of a tile in its group. */
  lemma GroupBounds(m: nat, numM: nat, G: nat)
    requires G > 0 && m < numM
    ensures 0 <= m % G < GroupRows(m / G, numM, G) <= G
    ensures m == m / G * G + m % G && m / G * G + GroupRows(m / G, numM, G) <= numM
  {
    assert m == G * (m / G) + m % G;
  }

  /** The last program of a group is still in the grid. */
  lemma PlaceInGrid(group: nat, rows: nat, numM: nat, numN: nat, G: nat, r: nat)
    requires group * G + rows <= numM && rows <= G && r < numN * rows
    ensures r < G * numN && 0 <= group * (G * numN) + r < numM * numN
  {
    MulMonotone(rows, G, numN);
    MulMonotone(group * G + rows, numM, numN);
    assert (group * G + rows) * numN == group * (G * numN) + numN * rows;
    assert group * (G * numN) >= 0;
  }

  /** Every tile of the grid is some program's. */
  lemma TileRoundTrip(m: nat, n: nat, numM: nat, numN: nat, G: nat)
    requires G > 0 && m < numM && n < numN
    ensures 0 <= PidOf(m, n, numM, numN, G) < numM * numN
    ensures PidM(PidOf(m, n, numM, numN, G), numM, numN, G) == m
    ensures PidN(PidOf(m, n, numM, numN, G), numM, numN, G) == n
  {
    hide GroupRows;
    var group, x := m / G, m % G;
    var rows := GroupRows(group, numM, G);
    GroupBounds(m, numM, G);
    RowMajorInRange(n, x, numN, rows);
    PlaceInGrid(group, rows, numM, numN, G, n * rows + x);
    TileOfPlace(group, n, x, numM, numN, G);
  }

  /** The tile of a program given by its group, its column and its place in the column. */
  lemma TileOfPlace(group: nat, n: nat, x: nat, numM: nat, numN: nat, G: nat)
    requires G > 0 && numN > 0 && 0 <= x < GroupRows(group, numM, G)
    requires n * GroupRows(group, numM, G) + x < G * numN
    requires group * (G * numN) + (n * GroupRows(group, numM, G) + x) < numM * numN
    ensures var pid := group * (G * numN) + (n * GroupRows(group, numM, G) + x);
            0 <= pid && PidM(pid, numM, numN, G) == group * G + x && PidN(pid, numM, numN, G) == n
  {
    hide GroupRows;
    var inGroup, rows := G * numN, GroupRows(group, numM, G);
    var r := n * rows + x;
    assert n * rows >= 0 && group * inGroup >= 0;
    DivModUnique(group * inGroup + r, inGroup, group, r);
    DivModUnique(r, rows, n, x);
  }

  /** With one row per group the order is row-major, as the hybrid kernel computes it directly. */
  lemma UngroupedIsRowMajor(pid: nat, numM: nat, numN: nat)
    requires numN > 0 && pid < numM * numN
    ensures PidM(pid, numM, numN, 1) == pid / numN && PidN(pid, numM, numN, 1) == pid % numN
  {
    GroupOf(pid, numM, numN, 1);
  }
}
