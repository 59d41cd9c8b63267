/** rocminfo's agent list: a one-pass parser with a block of fields in progress, and the choice of the swept
    card's devices from what it found. A line is given by what the two regular expressions make of it. */
module HsaAgents {
  import opened Prelude
  import opened BitOps
  import opened Arith

  datatype Key = DeviceType | ComputeUnit | Bdfid

  datatype HsaLine = AgentStart | Field(key: Key, value: string) | Noise

  type Block = map<Key, string>

  datatype HsaAgent = HsaAgent(index: nat, cu: int, bus: nat, device: nat, fn: nat)

  // ------------------------------------------------- block by block

  /** The lines of a block: everything up to the next agent line. */
  function Head(lines: seq<HsaLine>): (head: seq<HsaLine>)
    ensures |head| <= |lines|
  {
    if |lines| == 0 || lines[0] == AgentStart then [] else [lines[0]] + Head(lines[1..])
  }

  /** The text cut at its agent lines; the first block is what precedes them. */
  function Blocks(lines: seq<HsaLine>): (blocks: seq<seq<HsaLine>>)
    ensures |blocks| > 0
  {
    if |lines| == 0 then [[]]
    else if lines[0] == AgentStart then [[]] + Blocks(lines[1..])
    else
      var rest := Blocks(lines[1..]);
      [[lines[0]] + rest[0]] + rest[1..]
  }

  /** The first value a block gives a key. */
  function FieldOf(block: seq<HsaLine>, key: Key): Option<string> {
    if |block| == 0 then None
    else if block[0].Field? && block[0].key == key then Some(block[0].value)
    else FieldOf(block[1..], key)
  }

  /** A block read alone: a GPU whose compute units and BDFID are numbers, or nothing. */
  function ReadBlock(parseInt: string -> Option<int>, block: seq<HsaLine>): Option<(int, int)> {
    if FieldOf(block, DeviceType) != Some("GPU") then None
    else
      var cu, bdfid := FieldOf(block, ComputeUnit), FieldOf(block, Bdfid);
      if cu.None? || bdfid.None? then None
      else
        var c, b := parseInt(cu.value), parseInt(bdfid.value);
        if c.None? || b.None? then None else Some((c.value, b.value))
  }

  function AgentAt(index: nat, cu: int, bdfid: int): HsaAgent {
    HsaAgent(index, cu, And(Shr(bdfid, 8), 0xFF), And(Shr(bdfid, 3), 0x1F), And(bdfid, 0x7))
  }

  /** The valid GPUs of the blocks, numbered from index. */
  function AgentsOf(parseInt: string -> Option<int>, blocks: seq<seq<HsaLine>>, index: nat): seq<HsaAgent> {
    if |blocks| == 0 then []
    else
      var r := ReadBlock(parseInt, blocks[0]);
      if r.None? then AgentsOf(parseInt, blocks[1..], index)
      else [AgentAt(index, r.value.0, r.value.1)] + AgentsOf(parseInt, blocks[1..], index + 1)
  }

  // ------------------------------------------------------- the one-pass loop

  /** The dict in progress holds exactly the first values of the lines read since the last agent line. */
  ghost predicate Collected(block: Block, lines: seq<HsaLine>) {
    forall k :: FieldOf(lines, k) == if k in block then Some(block[k]) else None
  }

  lemma {:induction false} FieldOfAppend(lines: seq<HsaLine>, l: HsaLine, key: Key)
    ensures FieldOf(lines + [l], key) ==
              if FieldOf(lines, key).Some? then FieldOf(lines, key)
              else if l.Field? && l.key == key then Some(l.value) else None
  {
    if |lines| == 0 {
      assert lines + [l] == [l];
    } else {
      assert (lines + [l])[1..] == lines[1..] + [l];
      FieldOfAppend(lines[1..], l, key);
    }
  }

  /** _flush: what the block in progress contributes. */
  function Flush(parseInt: string -> Option<int>, block: Block, index: nat): seq<HsaAgent> {
    if DeviceType !in block || block[DeviceType] != "GPU" then []
    else if ComputeUnit !in block || Bdfid !in block then []
    else
      var cu, bdfid := parseInt(block[ComputeUnit]), parseInt(block[Bdfid]);
      if cu.None? || bdfid.None? then [] else [AgentAt(index, cu.value, bdfid.value)]
  }

  lemma FlushReadsBlock(parseInt: string -> Option<int>, block: Block, lines: seq<HsaLine>, index: nat)
    requires Collected(block, lines)
    ensures Flush(parseInt, block, index) == AgentsOf(parseInt, [lines], index)
  {
    hide AgentAt;
    assert FieldOf(lines, DeviceType) == if DeviceType in block then Some(block[DeviceType]) else None;
    assert FieldOf(lines, ComputeUnit) == if ComputeUnit in block then Some(block[ComputeUnit]) else None;
    assert FieldOf(lines, Bdfid) == if Bdfid in block then Some(block[Bdfid]) else None;
    assert [lines][1..] == [];
  }

  /** What is left of the text when `lines` of the block in progress are already read. */
  function Remaining(read: seq<HsaLine>, rest: seq<HsaLine>): seq<seq<HsaLine>> {
    [read + Blocks(rest)[0]] + Blocks(rest)[1..]
  }

  lemma RemainingStep(read: seq<HsaLine>, rest: seq<HsaLine>)
    requires |rest| > 0
    ensures rest[0] == AgentStart ==> Remaining(read, rest) == [read] + Remaining([], rest[1..])
    ensures rest[0] != AgentStart ==> Remaining(read, rest) == Remaining(read + [rest[0]], rest[1..])
  {
    if rest[0] == AgentStart {
      assert read + [] == read;
      assert [] + Blocks(rest[1..])[0] == Blocks(rest[1..])[0];
    } else {
      assert read + ([rest[0]] + Blocks(rest[1..])[0]) == (read + [rest[0]]) + Blocks(rest[1..])[0];
    }
  }

  lemma RemainingStart(lines: seq<HsaLine>)
    ensures Remaining([], lines[0..]) == Blocks(lines) && Collected(map[], [])
  {
    assert lines[0..] == lines;
    assert [] + Blocks(lines)[0] == Blocks(lines)[0];
    assert [Blocks(lines)[0]] + Blocks(lines)[1..] == Blocks(lines);
  }

  lemma RemainingEnd(read: seq<HsaLine>)
    ensures Remaining(read, []) == [read]
  {
    assert read + [] == read;
  }

  /** parse_hsa_agents. */
  method ParseHsaAgents(parseInt: string -> Option<int>, lines: seq<HsaLine>) returns (agents: seq<HsaAgent>)
    ensures agents == AgentsOf(parseInt, Blocks(lines), 0)
  {
    hide AgentsOf, Blocks, Flush, Remaining, FieldOf;
    agents := [];
    var block: Block := map[];
    ghost var read: seq<HsaLine> := [];
    RemainingStart(lines);
    for i := 0 to |lines|
      invariant Collected(block, read)
      invariant agents + AgentsOf(parseInt, Remaining(read, lines[i..]), |agents|) == AgentsOf(parseInt, Blocks(lines), 0)
    {
      var line := lines[i];
      RemainingStep(read, lines[i..]);
      assert lines[i..][1..] == lines[i + 1..];
      if line == AgentStart {
        AgentsOfCons(parseInt, read, Remaining([], lines[i + 1..]), |agents|);
        FlushReadsBlock(parseInt, block, read, |agents|);
        agents := agents + Flush(parseInt, block, |agents|);
        RemainingStart([]);
        block, read := map[], [];
      } else {
        CollectLine(block, read, line);
        if line.Field? && line.key !in block {
          block := block[line.key := line.value];
        }
        read := read + [line];
      }
    }
    FlushReadsBlock(parseInt, block, read, |agents|);
    assert lines[|lines|..] == [];
    RemainingEnd(read);
    agents := agents + Flush(parseInt, block, |agents|);
  }

  lemma CollectLine(block: Block, read: seq<HsaLine>, line: HsaLine)
    requires Collected(block, read)
    ensures Collected(if line.Field? && line.key !in block then block[line.key := line.value] else block, read + [line])
  {
    forall k
      ensures FieldOf(read + [line], k) ==
                var b := if line.Field? && line.key !in block then block[line.key := line.value] else block;
                if k in b then Some(b[k]) else None
    {
      FieldOfAppend(read, line, k);
    }
  }

  lemma AgentsOfCons(parseInt: string -> Option<int>, first: seq<HsaLine>, rest: seq<seq<HsaLine>>, index: nat)
    ensures var a := AgentsOf(parseInt, [first], index);
            AgentsOf(parseInt, [first] + rest, index) == a + AgentsOf(parseInt, rest, index + |a|)
  {
    hide ReadBlock, AgentAt;
    assert ([first] + rest)[1..] == rest;
    assert [first][1..] == [];
  }

  // ------------------------------------------------------------- theorems

  predicate Consecutive(agents: seq<HsaAgent>, index: nat) {
    forall i :: 0 <= i < |agents| ==> agents[i].index == index + i
  }

  /** Indices are consecutive from the start, whatever blocks were skipped. */
  lemma {:induction false} IndicesConsecutive(parseInt: string -> Option<int>, blocks: seq<seq<HsaLine>>, index: nat)
    ensures Consecutive(AgentsOf(parseInt, blocks, index), index)
    decreases |blocks|
  {
    hide ReadBlock, And, Shr;
    if |blocks| > 0 {
      var r := ReadBlock(parseInt, blocks[0]);
      if r.None? {
        IndicesConsecutive(parseInt, blocks[1..], index);
      } else {
        IndicesConsecutive(parseInt, blocks[1..], index + 1);
      }
    }
  }

  lemma LowBits(b: int)
    ensures b / 256 % 256 * 256 + b / 8 % 32 * 8 + b % 8 == b % 0x1_0000
  {
    var q, r := b / 0x1_0000, b % 0x1_0000;
    assert b == 0x1_0000 * q + r;
    var high, middle, low := r / 256, r % 256 / 8, r % 8;
    assert r == 256 * high + 8 * middle + low && 0 <= high < 256 && 0 <= middle < 32;
    DivModUnique(b, 256, 256 * q + high, 8 * middle + low);
    DivModUnique(256 * q + high, 256, q, high);
    DivModUnique(b, 8, 8192 * q + 32 * high + middle, low);
    DivModUnique(8192 * q + 32 * high + middle, 32, 256 * q + high, middle);
  }

  lemma MaskedFields(b: int)
    ensures And(Shr(b, 8), 0xFF) == b / 256 % 256
    ensures And(Shr(b, 3), 0x1F) == b / 8 % 32
    ensures And(b, 0x7) == b % 8
  {
    hide And, Shr;
    assert Pow2(3) == 8;
    assert Pow2(5) == 32;
    assert Pow2(8) == 256;
    AndLowBits(Shr(b, 8), 8);
    AndLowBits(Shr(b, 3), 5);
    AndLowBits(b, 3);
    ShrDivides(b, 8);
    ShrDivides(b, 3);
  }

  /** Bus, device and function are the low 16 bits of BDFID. */
  lemma BdfRebuilds(index: nat, cu: int, bdfid: int)
    ensures var a := AgentAt(index, cu, bdfid);
            a.bus * 256 + a.device * 8 + a.fn == bdfid % 0x1_0000 && a.bus < 256 && a.device < 32 && a.fn < 8
  {
    hide And, Shr;
    MaskedFields(bdfid);
    LowBits(bdfid);
  }

  // --------------------------------------------------------- printed and read

  /** One agent as rocminfo prints it: its BDFID before its compute units. */
  datatype Printed = Printed(kind: string, bdfid: int, cu: int)

  function Print(show: int -> string, devices: seq<Printed>): seq<HsaLine> {
    if |devices| == 0 then []
    else
      var d := devices[0];
      [AgentStart, Field(DeviceType, d.kind), Noise, Field(Bdfid, show(d.bdfid)), Field(ComputeUnit, show(d.cu))]
      + Print(show, devices[1..])
  }

  function Gpus(devices: seq<Printed>): seq<Printed> {
    if |devices| == 0 then []
    else (if devices[0].kind == "GPU" then [devices[0]] else []) + Gpus(devices[1..])
  }

  ghost predicate Shows(parseInt: string -> Option<int>, show: int -> string) {
    forall n :: parseInt(show(n)) == Some(n)
  }

  /** Agent i is GPU i of the printed ones: its own CU count, and its own address. */
  predicate IsPrinted(agents: seq<HsaAgent>, gpus: seq<Printed>, index: nat) {
    && |agents| == |gpus|
    && forall i :: 0 <= i < |agents| ==>
         && agents[i].index == index + i && agents[i].cu == gpus[i].cu
         && agents[i].bus * 256 + agents[i].device * 8 + agents[i].fn == gpus[i].bdfid % 0x1_0000
         && agents[i].device < 32 && agents[i].fn < 8
  }

  /** Parsing what is printed for a list of agents gives back its GPUs, in order and numbered from zero, each
      with its own compute units and address. */
  lemma PrintedIsRead(parseInt: string -> Option<int>, show: int -> string, devices: seq<Printed>)
    requires Shows(parseInt, show)
    ensures IsPrinted(AgentsOf(parseInt, Blocks(Print(show, devices)), 0), Gpus(devices), 0)
  {
    hide AgentsOf, Blocks, Print, IsPrinted;
    BlocksOfPrint(show, devices);
    AgentsOfCons(parseInt, [], PrintedBlocks(show, devices), 0);
    NothingRead(parseInt);
    PrintedBlocksRead(parseInt, show, devices, 0);
    assert [] + AgentsOf(parseInt, PrintedBlocks(show, devices), 0) == AgentsOf(parseInt, PrintedBlocks(show, devices), 0);
  }

  lemma NothingRead(parseInt: string -> Option<int>)
    ensures AgentsOf(parseInt, [[]], 0) == []
  {
  }

  function PrintedBlock(show: int -> string, d: Printed): seq<HsaLine> {
    [Field(DeviceType, d.kind), Noise, Field(Bdfid, show(d.bdfid)), Field(ComputeUnit, show(d.cu))]
  }

  function PrintedBlocks(show: int -> string, devices: seq<Printed>): seq<seq<HsaLine>> {
    if |devices| == 0 then [] else [PrintedBlock(show, devices[0])] + PrintedBlocks(show, devices[1..])
  }

  /** Lines without an agent line stay in the block in progress. */
  lemma {:induction false} BlocksOfPrefix(prefix: seq<HsaLine>, rest: seq<HsaLine>)
    requires forall i :: 0 <= i < |prefix| ==> prefix[i] != AgentStart
    ensures Blocks(prefix + rest) == [prefix + Blocks(rest)[0]] + Blocks(rest)[1..]
  {
    var all := prefix + rest;
    if |prefix| == 0 {
      assert all == rest;
      assert [] + Blocks(rest)[0] == Blocks(rest)[0];
    } else {
      BlocksOfPrefix(prefix[1..], rest);
      assert all[1..] == prefix[1..] + rest;
      assert [prefix[0]] + (prefix[1..] + Blocks(rest)[0]) == prefix + Blocks(rest)[0];
    }
  }

  lemma {:induction false} BlocksOfPrint(show: int -> string, devices: seq<Printed>)
    ensures Blocks(Print(show, devices)) == [[]] + PrintedBlocks(show, devices)
  {
    hide Blocks;
    if |devices| == 0 {
      BlocksOfNothing();
    } else {
      var block := PrintedBlock(show, devices[0]);
      var rest := Print(show, devices[1..]);
      assert Print(show, devices) == [AgentStart] + (block + rest);
      BlocksOfStart(block + rest);
      BlocksOfPrefix(block, rest);
      BlocksOfPrint(show, devices[1..]);
      assert block + [] == block;
    }
  }

  lemma BlocksOfNothing()
    ensures Blocks([]) == [[]]
  {
  }

  lemma BlocksOfStart(lines: seq<HsaLine>)
    ensures Blocks([AgentStart] + lines) == [[]] + Blocks(lines)
  {
    assert ([AgentStart] + lines)[1..] == lines;
  }

  lemma {:induction false} PrintedBlocksRead(parseInt: string -> Option<int>, show: int -> string, devices: seq<Printed>, index: nat)
    requires Shows(parseInt, show)
    ensures IsPrinted(AgentsOf(parseInt, PrintedBlocks(show, devices), index), Gpus(devices), index)
    decreases |devices|
  {
    hide ReadBlock, AgentAt, PrintedBlock;
    if |devices| > 0 {
      var d := devices[0];
      BlockRead(parseInt, show, d);
      assert PrintedBlocks(show, devices)[1..] == PrintedBlocks(show, devices[1..]);
      if d.kind == "GPU" {
        BdfRebuilds(index, d.cu, d.bdfid);
        AgentAtFields(index, d.cu, d.bdfid);
        PrintedBlocksRead(parseInt, show, devices[1..], index + 1);
      } else {
        PrintedBlocksRead(parseInt, show, devices[1..], index);
      }
    }
  }

  lemma AgentAtFields(index: nat, cu: int, bdfid: int)
    ensures AgentAt(index, cu, bdfid).index == index && AgentAt(index, cu, bdfid).cu == cu
  {
  }

  lemma BlockRead(parseInt: string -> Option<int>, show: int -> string, d: Printed)
    requires Shows(parseInt, show)
    ensures ReadBlock(parseInt, PrintedBlock(show, d)) == if d.kind == "GPU" then Some((d.cu, d.bdfid)) else None
  {
    var b0 := PrintedBlock(show, d);
    var b1, b2, b3 := b0[1..], b0[2..], b0[3..];
    assert b1[1..] == b2 && b2[1..] == b3;
    assert FieldOf(b0, DeviceType) == Some(d.kind);
    assert FieldOf(b0, Bdfid) == FieldOf(b1, Bdfid) == FieldOf(b2, Bdfid) == Some(show(d.bdfid));
    assert FieldOf(b3, ComputeUnit) == Some(show(d.cu));
    assert FieldOf(b0, ComputeUnit) == FieldOf(b1, ComputeUnit) == FieldOf(b2, ComputeUnit) == FieldOf(b3, ComputeUnit);
  }

  // ------------------------------------------------- the swept card's devices

  datatype SweepError = NoGpuOnBus | MidTransition | WrongCount(found: nat)

  function FirstCu(agents: seq<HsaAgent>, bus: nat): Option<int> {
    if |agents| == 0 then None
    else if agents[0].bus == bus then Some(agents[0].cu)
    else FirstCu(agents[1..], bus)
  }

  predicate Unanimous(agents: seq<HsaAgent>, bus: nat, cu: int) {
    forall j :: 0 <= j < |agents| && agents[j].bus == bus ==> agents[j].cu == cu
  }

  /** partition_cu_on_bus: the one CU count every device on the bus reports. */
  function PartitionCuOnBus(agents: seq<HsaAgent>, bus: nat): Result<int, SweepError> {
    var first := FirstCu(agents, bus);
    if first.None? then Err(NoGpuOnBus)
    else if Unanimous(agents, bus, first.value) then Ok(first.value)
    else Err(MidTransition)
  }

  /** select_partition_devices: the indices of the devices on the bus with the partition's CU count, if they
      are as many as the mode implies. */
  function Selected(agents: seq<HsaAgent>, bus: nat, cu: int): seq<nat> {
    if |agents| == 0 then []
    else (if agents[0].bus == bus && agents[0].cu == cu then [agents[0].index] else []) + Selected(agents[1..], bus, cu)
  }

  function SelectPartitionDevices(agents: seq<HsaAgent>, partitions: nat, cu: int, bus: nat): Result<seq<nat>, SweepError> {
    var found := Selected(agents, bus, cu);
    if |found| != partitions then Err(WrongCount(|found|)) else Ok(found)
  }

  lemma {:induction false} FirstCuIsOne(agents: seq<HsaAgent>, bus: nat)
    ensures FirstCu(agents, bus).None? <==> forall j :: 0 <= j < |agents| ==> agents[j].bus != bus
    ensures FirstCu(agents, bus).Some? ==>
              exists j :: 0 <= j < |agents| && agents[j].bus == bus && agents[j].cu == FirstCu(agents, bus).value
  {
    if |agents| > 0 {
      FirstCuIsOne(agents[1..], bus);
      if agents[0].bus != bus {
        assert forall j :: 0 < j < |agents| ==> agents[j] == agents[1..][j - 1];
        if FirstCu(agents[1..], bus).Some? {
          var j :| 0 <= j < |agents[1..]| && agents[1..][j].bus == bus && agents[1..][j].cu == FirstCu(agents[1..], bus).value;
          assert agents[j + 1].bus == bus;
        }
      }
    }
  }

  predicate Ascending(d: seq<nat>) {
    forall i, j :: 0 <= i < j < |d| ==> d[i] < d[j]
  }

  predicate OnCard(agents: seq<HsaAgent>, bus: nat, cu: int, i: int) {
    0 <= i < |agents| && agents[i].bus == bus && agents[i].cu == cu
  }

  lemma {:induction false} SelectedExactly(agents: seq<HsaAgent>, bus: nat, cu: int, from: nat)
    requires Consecutive(agents, from)
    ensures var d := Selected(agents, bus, cu);
            && (forall i :: OnCard(agents, bus, cu, i) ==> from + i in d)
            && (forall k :: 0 <= k < |d| ==> OnCard(agents, bus, cu, d[k] - from))
            && Ascending(d)
  {
    if |agents| > 0 {
      var tail := agents[1..];
      SelectedExactly(tail, bus, cu, from + 1);
      var d := Selected(tail, bus, cu);
      forall i | OnCard(agents, bus, cu, i) ensures from + i in Selected(agents, bus, cu) {
        if i > 0 {
          assert OnCard(tail, bus, cu, i - 1);
          assert from + i in d;
        }
      }
      forall k | 0 <= k < |d| ensures d[k] > from && OnCard(agents, bus, cu, d[k] - from) {
        assert OnCard(tail, bus, cu, d[k] - (from + 1));
      }
    }
  }

  /** With the CU count the devices on the bus agree on, the selection is every device on the bus, ascending,
      and it succeeds exactly when they are as many as the mode implies. */
  lemma SelectionIsWholeBus(parseInt: string -> Option<int>, blocks: seq<seq<HsaLine>>, bus: nat, partitions: nat)
    requires PartitionCuOnBus(AgentsOf(parseInt, blocks, 0), bus).Ok?
    ensures var agents := AgentsOf(parseInt, blocks, 0);
            var r := SelectPartitionDevices(agents, partitions, PartitionCuOnBus(agents, bus).value, bus);
            var onBus := set i: nat | i < |agents| && agents[i].bus == bus;
            && (r.Ok? <==> |onBus| == partitions)
            && (r.Ok? ==> |r.value| == partitions
                          && (forall i: nat :: i in r.value <==> i in onBus)
                          && Ascending(r.value))
  {
    hide AgentsOf, PartitionCuOnBus;
    IndicesConsecutive(parseInt, blocks, 0);
    SelectionOfConsecutive(AgentsOf(parseInt, blocks, 0), bus, partitions);
  }

  lemma SelectionOfConsecutive(agents: seq<HsaAgent>, bus: nat, partitions: nat)
    requires Consecutive(agents, 0) && PartitionCuOnBus(agents, bus).Ok?
    ensures var r := SelectPartitionDevices(agents, partitions, PartitionCuOnBus(agents, bus).value, bus);
            var onBus := set i: nat | i < |agents| && agents[i].bus == bus;
            && (r.Ok? <==> |onBus| == partitions)
            && (r.Ok? ==> |r.value| == partitions
                          && (forall i: nat :: i in r.value <==> i in onBus)
                          && Ascending(r.value))
  {
    hide PartitionCuOnBus;
    CuOnBusExactly(agents, bus);
    var cu := PartitionCuOnBus(agents, bus).value;
    SelectedExactly(agents, bus, cu, 0);
    var d := Selected(agents, bus, cu);
    var onBus := set i: nat | i < |agents| && agents[i].bus == bus;
    forall x: nat ensures x in onBus <==> x in d {
      if x in onBus {
        assert OnCard(agents, bus, cu, x);
        assert 0 + x in d;
      }
      if x in d {
        var k :| 0 <= k < |d| && d[k] == x;
        assert OnCard(agents, bus, cu, d[k] - 0);
      }
    }
    SizeOfAscending(d, onBus);
  }

  lemma {:induction false} SizeOfAscending(d: seq<nat>, s: set<nat>)
    requires Ascending(d)
    requires forall x: nat :: x in s <==> x in d
    ensures |d| == |s|
  {
    if |d| > 0 {
      var m := |d| - 1;
      assert d == d[..m] + [d[m]];
      forall x: nat ensures x in s - {d[m]} <==> x in d[..m] {
        if x in d[..m] {
          var k :| 0 <= k < m && d[k] == x;
          assert d[k] < d[m];
        }
      }
      SizeOfAscending(d[..m], s - {d[m]});
    } else {
      assert forall x: nat :: x !in s;
      assert s == {};
    }
  }

  /** partition_cu_on_bus answers exactly when there is a device on the bus and all of them agree. */
  lemma CuOnBusExactly(agents: seq<HsaAgent>, bus: nat)
    ensures PartitionCuOnBus(agents, bus).Ok? <==>
              exists i :: 0 <= i < |agents| && agents[i].bus == bus && Unanimous(agents, bus, agents[i].cu)
    ensures PartitionCuOnBus(agents, bus).Ok? ==> Unanimous(agents, bus, PartitionCuOnBus(agents, bus).value)
    ensures PartitionCuOnBus(agents, bus) == Err(NoGpuOnBus) <==> forall j :: 0 <= j < |agents| ==> agents[j].bus != bus
  {
    hide FirstCu;
    FirstCuIsOne(agents, bus);
  }
}
