/** The compute-partition sweep: set, verify, measure, and always restore. Every query, set and benchmark may
    succeed, fail in a way the script models, or fail otherwise, and a signal may arrive at any time. What was
    asked of the card and how it answered is a ghost history; the predicates on it do not know the code. */
module ModeSweep {
  import opened Prelude
  import opened HsaAgents

  // ---------------------------------------------------------- mode names

  function Upper(s: string): (u: string)
    ensures |u| == |s|
  {
    seq(|s|, i requires 0 <= i < |s| => if 'a' <= s[i] <= 'z' then s[i] - 'a' + 'A' else s[i])
  }

  predicate IsSpace(c: char) {
    c == ' ' || '\t' <= c <= '\r'
  }

  function StripLeft(s: string): string {
    if |s| > 0 && IsSpace(s[0]) then StripLeft(s[1..]) else s
  }

  function StripRight(s: string): string {
    if |s| > 0 && IsSpace(s[|s| - 1]) then StripRight(s[..|s| - 1]) else s
  }

  function StripStars(s: string): string {
    if |s| > 0 && s[|s| - 1] == '*' then StripStars(s[..|s| - 1]) else s
  }

  /** current_modes: how a mode the card prints is read. */
  function Reported(raw: string): string {
    StripStars(Upper(StripRight(StripLeft(raw))))
  }

  /** MODE_PARTITION_COUNTS */
  function PartitionCount(mode: string): nat {
    if mode == "SPX" then 1 else if mode == "DPX" then 2 else if mode == "QPX" then 4 else if mode == "CPX" then 8 else 0
  }

  /** parse_mode, with the check that the name is a known mode. */
  function Canonical(raw: string): (mode: Option<string>)
    ensures mode.Some? ==> PartitionCount(mode.value) > 0
  {
    var name := Upper(StripRight(StripLeft(raw)));
    if PartitionCount(name) > 0 then Some(name) else None
  }

  // ------------------------------------------------------------ history

  /** Modelled: SweepError or PartitionError. Unmodelled: any other exception. */
  datatype Problem = Modelled | Unmodelled

  datatype SetAttempt = Accepted | Busy | Refused | Raises(problem: Problem)

  /** How one partition's benchmark process ended. */
  datatype RunOutcome = NoLaunch | OverBudget | Exited(code: int, report: bool)

  datatype Event =
    | ReadAs(mode: string)
    | ReadFailed(problem: Problem)
    | Tried(mode: string, attempt: SetAttempt)       // one amd-smi set
    | Agents(agents: seq<HsaAgent>)                  // rocminfo, parsed: numbered from zero
    | Raised(problem: Problem)                       // enumeration or fan-out raised
    | Fanned(outcomes: seq<RunOutcome>)              // one benchmark per selected device, all waited for
    | Signal                                         // SIGINT or SIGTERM arrived
    | Report(written: bool)

  predicate IsRead(e: Event) { e.ReadAs? || e.ReadFailed? }

  predicate Odd(e: Event) {
    || e == ReadFailed(Unmodelled) || e == Raised(Unmodelled)
    || (e.Tried? && e.attempt == Raises(Unmodelled))
  }

  predicate AnyOdd(t: seq<Event>) { exists i :: 0 <= i < |t| && Odd(t[i]) }

  /** The last mode a query answered. */
  function LastRead(t: seq<Event>): Option<string> {
    if |t| == 0 then None
    else if t[|t| - 1].ReadAs? then Some(t[|t| - 1].mode)
    else LastRead(t[..|t| - 1])
  }

  /** Attempts to set mode c: again while the card is busy; an accepted one is followed by a read-back. */
  predicate SetTail(t: seq<Event>, c: string) {
    && |t| >= 1 && t[0].Tried? && t[0].mode == c
    && match t[0].attempt
       case Busy => |t| == 1 || SetTail(t[1..], c)
       case Accepted => |t| == 2 && IsRead(t[1])
       case _ => |t| == 1
  }

  /** What set_mode asks of the card: nothing for an unknown mode; a query; and unless that failed or answered
      the mode, attempts to set it. */
  predicate SetTrace(t: seq<Event>, mode: string) {
    match Canonical(mode)
    case None => t == []
    case Some(c) =>
      && |t| >= 1 && IsRead(t[0])
      && if t[0].ReadAs? && t[0].mode != c then SetTail(t[1..], c) else |t| == 1
  }

  predicate SetOk(t: seq<Event>, mode: string) {
    Canonical(mode).Some? && |t| > 0 && t[|t| - 1] == ReadAs(Canonical(mode).value)
  }

  /** What the restore asks of the card: a query, and unless that answered the entry mode, a set. */
  predicate RestoreTrace(t: seq<Event>, entry: string) {
    && |t| >= 1 && IsRead(t[0])
    && if t[0] == ReadAs(entry) then |t| == 1 else SetTrace(t[1..], entry)
  }

  predicate RestoreOk(t: seq<Event>, entry: string) {
    |t| > 0 && if t[0] == ReadAs(entry) then true else SetOk(t[1..], entry)
  }

  // ------------------------------------------------------------- results

  datatype PartitionRun = PartitionRun(index: nat, device: nat, returncode: Option<int>, error: string, measured: bool) {
    predicate Ok() {
      returncode == Some(0) && error == "" && measured
    }
  }

  const INTERRUPTED := "interrupted before this mode ran"
  const FAILED := "failed"
  const UNEXPECTED := "unexpected error"
  const WILL_NOT_FIT := "will not fit"

  datatype ModeResult = ModeResult(mode: string, runs: seq<PartitionRun>, skipped: string, error: string) {
    /** All or nothing: a mode counts only when every one of its partitions reported. */
    predicate Measured() {
      |runs| > 0 && forall i :: 0 <= i < |runs| ==> runs[i].Ok()
    }
  }

  /** A process is over its budget, exits, or never starts; only a clean exit with a report is no error. */
  function RunRecord(index: nat, device: nat, o: RunOutcome): (r: PartitionRun)
    ensures r.Ok() <==> o == Exited(0, true)
  {
    match o
    case NoLaunch => PartitionRun(index, device, None, "could not launch", false)
    case OverBudget => PartitionRun(index, device, Some(-1), "exceeded the budget", false)
    case Exited(code, report) =>
      PartitionRun(index, device, Some(code),
                   if code != 0 then "exited" else if !report then "no benchmark_report.json" else "",
                   code == 0 && report)
  }

  /** The events of one mode: a signal seen when its turn came, those of set_mode, and those after it. */
  datatype Part = Part(signalled: bool, setting: seq<Event>, rest: seq<Event>) {
    function All(): seq<Event> { (if signalled then [Signal] else []) + setting + rest }
  }

  /** The card being swept, what fits on its partitions, and Python's int(). */
  datatype Plan = Plan(bus: nat, fits: string -> bool, parseInt: string -> Option<int>)

  /** What the enumerated devices mean for a mode: a refusal, a mode that will not fit, or devices. */
  datatype Choice = NoChoice | TooSmall | Devices(devices: seq<nat>)

  function Choose(plan: Plan, mode: string, agents: seq<HsaAgent>): Choice {
    var cu := PartitionCuOnBus(agents, plan.bus);
    if cu.Err? || cu.value <= 0 then NoChoice
    else if !plan.fits(mode) then TooSmall
    else
      var devices := SelectPartitionDevices(agents, PartitionCount(mode), cu.value, plan.bus);
      if devices.Err? then NoChoice else Devices(devices.value)
  }

  /** The events after a mode was set: the devices are enumerated, and when they are the mode's partitions, a
      benchmark runs on each. */
  predicate RestTrace(plan: Plan, mode: string, t: seq<Event>) {
    && |t| >= 1
    && match t[0]
       case Raised(_) => |t| == 1
       case Agents(agents) =>
         Consecutive(agents, 0) &&
         var choice := Choose(plan, mode, agents);
         if choice.Devices? then
           |t| == 2 && (t[1].Raised? || (t[1].Fanned? && |t[1].outcomes| == |choice.devices|))
         else |t| == 1
       case _ => false
  }

  predicate ModeTrace(plan: Plan, mode: string, p: Part) {
    SetTrace(p.setting, mode) && if SetOk(p.setting, mode) then RestTrace(plan, mode, p.rest) else p.rest == []
  }

  /** Every partition of the mode ran its benchmark to a report, on a card that had read back the mode and
      showed exactly its partitions. */
  predicate AllReported(plan: Plan, mode: string, p: Part) {
    SetOk(p.setting, mode) && Reports(plan, mode, p.rest)
  }

  predicate Fans(plan: Plan, mode: string, t: seq<Event>) {
    && |t| == 2 && t[0].Agents? && t[1].Fanned? && Choose(plan, mode, t[0].agents).Devices?
    && |t[1].outcomes| == |Choose(plan, mode, t[0].agents).devices| == PartitionCount(mode) > 0
  }

  predicate Reports(plan: Plan, mode: string, t: seq<Event>) {
    Fans(plan, mode, t) && forall i :: 0 <= i < |t[1].outcomes| ==> t[1].outcomes[i] == Exited(0, true)
  }

  /** The devices on a bus are n, and all report one positive CU count. */
  predicate Shape(agents: seq<HsaAgent>, bus: nat, n: nat) {
    && |set i: nat | i < |agents| && agents[i].bus == bus| == n > 0
    && (forall i :: 0 <= i < |agents| && agents[i].bus == bus ==> agents[i].cu > 0)
    && (forall i, j :: 0 <= i < |agents| && 0 <= j < |agents| && agents[i].bus == agents[j].bus == bus ==>
          agents[i].cu == agents[j].cu)
  }

  /** The runs are one for each device on the bus, in ascending order of its index, and no other device. */
  predicate OnePerDevice(agents: seq<HsaAgent>, bus: nat, runs: seq<PartitionRun>) {
    && (forall k :: 0 <= k < |runs| ==>
          runs[k].index == k && runs[k].device < |agents| && agents[runs[k].device].bus == bus)
    && (forall k, h :: 0 <= k < h < |runs| ==> runs[k].device < runs[h].device)
    && (forall i :: 0 <= i < |agents| && agents[i].bus == bus ==> exists k :: 0 <= k < |runs| && runs[k].device == i)
  }

  /** What a mode with runs measured: exactly the swept card's own devices, as many as the mode implies and all
      alike, in the enumeration the card answered. */
  predicate MeasuredCard(bus: nat, mode: string, t: seq<Event>, runs: seq<PartitionRun>) {
    |runs| > 0 ==>
      && |t| == 2 && t[0].Agents? && t[1].Fanned? && |t[1].outcomes| == |runs| == PartitionCount(mode)
      && Shape(t[0].agents, bus, |runs|) && OnePerDevice(t[0].agents, bus, runs)
      && forall k :: 0 <= k < |runs| ==> (runs[k].Ok() <==> t[1].outcomes[k] == Exited(0, true))
  }

  /** A card that shows the mode's partitions, of a size the streams fit, does get its benchmark. */
  predicate Benchmarked(plan: Plan, mode: string, t: seq<Event>) {
    |t| > 0 && t[0].Agents? && Shape(t[0].agents, plan.bus, PartitionCount(mode)) && plan.fits(mode) ==> |t| == 2
  }

  lemma ChooseMeans(plan: Plan, mode: string, agents: seq<HsaAgent>)
    requires Consecutive(agents, 0) && PartitionCount(mode) > 0
    ensures var choice := Choose(plan, mode, agents);
            && (choice.Devices? <==> Shape(agents, plan.bus, PartitionCount(mode)) && plan.fits(mode))
            && (choice.Devices? ==>
                  && |choice.devices| == PartitionCount(mode) && Ascending(choice.devices)
                  && forall i: nat :: i in choice.devices <==> i < |agents| && agents[i].bus == plan.bus)
  {
    hide PartitionCount, PartitionCuOnBus, Selected;
    var cu := PartitionCuOnBus(agents, plan.bus);
    CuOnBusExactly(agents, plan.bus);
    if cu.Ok? {
      SelectionOfConsecutive(agents, plan.bus, PartitionCount(mode));
      SelectedExactly(agents, plan.bus, cu.value, 0);
    }
    ShapeMeans(agents, plan.bus, PartitionCount(mode));
  }

  lemma ShapeMeans(agents: seq<HsaAgent>, bus: nat, n: nat)
    ensures Shape(agents, bus, n) <==>
      && |set i: nat | i < |agents| && agents[i].bus == bus| == n > 0
      && PartitionCuOnBus(agents, bus).Ok? && PartitionCuOnBus(agents, bus).value > 0
  {
    hide PartitionCuOnBus;
    CuOnBusExactly(agents, bus);
    var onBus := set i: nat | i < |agents| && agents[i].bus == bus;
    if |onBus| > 0 {
      assert onBus != {};
      var i :| i in onBus;
      if Shape(agents, bus, n) { assert Unanimous(agents, bus, agents[i].cu); }
    }
  }

  lemma RunsAreOnePerDevice(plan: Plan, mode: string, t: seq<Event>, runs: seq<PartitionRun>)
    requires PartitionCount(mode) > 0 && RestTrace(plan, mode, t) && Recorded(plan, mode, t, runs)
    ensures MeasuredCard(plan.bus, mode, t, runs) && Benchmarked(plan, mode, t)
  {
    hide Choose, Shape, PartitionCount;
    if t[0].Agents? {
      var agents := t[0].agents;
      ChooseMeans(plan, mode, agents);
      if Fans(plan, mode, t) {
        var d := Choose(plan, mode, agents).devices;
        forall k | 0 <= k < |runs| ensures runs[k].index == k && runs[k].device == d[k] && d[k] in d {}
        forall i | 0 <= i < |agents| && agents[i].bus == plan.bus ensures exists k :: 0 <= k < |runs| && runs[k].device == i {
          var x: nat := i;
          assert x in d;
          var k :| 0 <= k < |d| && d[k] == x;
          assert runs[k].device == i;
        }
      }
    }
  }

  /** The records kept: one for each selected device, saying how its process ended. */
  predicate Recorded(plan: Plan, mode: string, t: seq<Event>, runs: seq<PartitionRun>) {
    if Fans(plan, mode, t) then
      && |runs| == PartitionCount(mode)
      && forall i :: 0 <= i < |runs| ==>
           runs[i] == RunRecord(i, Choose(plan, mode, t[0].agents).devices[i], t[1].outcomes[i])
    else runs == []
  }

  // ------------------------------------------------------------- the card

  class Card {
    ghost var history: seq<Event>

    constructor ()
      ensures history == []
    {
      history := [];
    }

    ghost method Note(e: Event)
      modifies this
      ensures history == old(history) + [e]
    {
      history := history + [e];
    }

    method ReadMode() returns (r: Result<string, Problem>, ghost e: Event)
      modifies this
      ensures history == old(history) + [e]
      ensures e == if r.Ok? then ReadAs(r.value) else ReadFailed(r.error)
      ensures r.Ok? ==> ReportedName(r.value)
    {
      var answer: Result<string, Problem> := *;
      match answer {
        case Err(problem) => r := Err(problem);
        case Ok(raw) =>
          var mode := Reported(raw);
          if mode == "" || mode == "N/A" {
            r := Err(Modelled);
          } else {
            ReportedIsReported(raw);
            r := Ok(mode);
          }
      }
      e := if r.Ok? then ReadAs(r.value) else ReadFailed(r.error);
      Note(e);
    }

    /** set_mode: nothing to do if the card answers the mode already; otherwise set it, retrying while the card
        is busy, and trust only the read-back. */
    method SetMode(mode: string) returns (r: Result<string, Problem>, ghost t: seq<Event>)
      modifies this
      ensures history == old(history) + t && SetTrace(t, mode)
      ensures r.Ok? <==> SetOk(t, mode)
      ensures r.Ok? ==> Canonical(mode) == Some(r.value)
      ensures r == Err(Unmodelled) <==> AnyOdd(t)
    {
      hide Canonical;
      t := [];
      var canonical := Canonical(mode);
      if canonical.None? { return Err(Modelled), t; }
      ghost var e;
      r, e := ReadMode();
      t := [e];
      if r.Err? || r.value == canonical.value {
        assert t[0] == e;
        return;
      }
      ghost var rest;
      r, rest := TrySet(canonical.value);
      t := t + rest;
      assert t[1..] == rest;
      assert AnyOdd(t) <==> AnyOdd(rest) by {
        if AnyOdd(rest) { var i :| 0 <= i < |rest| && Odd(rest[i]); assert Odd(t[i + 1]); }
      }
    }

    /** The loop of set_mode and its read-back. */
    method TrySet(c: string) returns (r: Result<string, Problem>, ghost t: seq<Event>)
      modifies this
      ensures history == old(history) + t && SetTail(t, c)
      ensures r.Ok? <==> t[|t| - 1] == ReadAs(c)
      ensures r.Ok? ==> r.value == c
      ensures r == Err(Unmodelled) <==> AnyOdd(t)
    {
      var polls: nat, attempt: SetAttempt := *, *;
      ghost var waits: seq<Event> := [];
      while attempt == Busy && polls > 0
        invariant history == old(history) + waits
        invariant forall i :: 0 <= i < |waits| ==> waits[i] == Tried(c, Busy)
        decreases polls
      {
        Note(Tried(c, Busy));
        waits := waits + [Tried(c, Busy)];
        polls, attempt := polls - 1, *;
      }
      Note(Tried(c, attempt));
      ghost var last := [Tried(c, attempt)];
      match attempt {
        case Raises(problem) => r := Err(problem);
        case Busy => r := Err(Modelled);
        case Refused => r := Err(Modelled);
        case Accepted =>
          ghost var e;
          r, e := ReadMode();
          last := last + [e];
          if r.Ok? && r.value != c { r := Err(Modelled); }
      }
      t := waits + last;
      WaitsThenLast(waits, last, c);
      WaitsNotOdd(waits, last, c);
    }

    /** _restore_entry_mode: true if the card could not be put back. An unreadable mode is no reason to skip
        the set. */
    method RestoreEntryMode(entry: string) returns (failed: bool, ghost t: seq<Event>)
      modifies this
      ensures history == old(history) + t && RestoreTrace(t, entry)
      ensures failed <==> !RestoreOk(t, entry)
    {
      hide SetTrace, SetOk;
      var current;
      ghost var e;
      current, e := ReadMode();
      t := [e];
      if current.Ok? && current.value == entry { return false, t; }
      var r;
      ghost var rest;
      r, rest := SetMode(entry);
      t := t + rest;
      assert t[1..] == rest;
      failed := r.Err?;
    }

    /** run_mode: a benchmark on every device at once, and a record for each. */
    method RunMode(devices: seq<nat>) returns (r: Result<seq<PartitionRun>, Problem>, ghost e: Event)
      modifies this
      ensures history == old(history) + [e]
      ensures if r.Err? then e == Raised(r.error)
              else e.Fanned? && |e.outcomes| == |r.value| == |devices|
                   && forall i :: 0 <= i < |devices| ==> r.value[i] == RunRecord(i, devices[i], e.outcomes[i])
    {
      hide RunRecord;
      var problem: Option<Problem> := *;
      if problem.Some? {
        r := Err(problem.value);
        e := Raised(problem.value);
      } else {
        var runs: seq<PartitionRun>, outcomes: seq<RunOutcome> := [], [];
        for i := 0 to |devices|
          invariant |runs| == |outcomes| == i
          invariant forall j :: 0 <= j < i ==> runs[j] == RunRecord(j, devices[j], outcomes[j])
        {
          var o: RunOutcome := *;
          outcomes := outcomes + [o];
          runs := runs + [RunRecord(i, devices[i], o)];
        }
        r := Ok(runs);
        e := Fanned(outcomes);
      }
      Note(e);
    }

    /** read_hsa_agents: rocminfo fails in some way, or its lines are parsed. */
    method ReadHsaAgents(parseInt: string -> Option<int>) returns (r: Result<seq<HsaAgent>, Problem>)
      ensures r.Ok? ==> Consecutive(r.value, 0)
    {
      var printed: Result<seq<HsaLine>, Problem> := *;
      match printed
      case Err(problem) => return Err(problem);
      case Ok(lines) =>
        var agents := ParseHsaAgents(parseInt, lines);
        IndicesConsecutive(parseInt, Blocks(lines), 0);
        return Ok(agents);
    }

    /** One mode of the sweep, inside its try block. */
    method TryMode(plan: Plan, mode: string) returns (result: ModeResult, unexpected: bool, ghost p: Part)
      requires Canonical(mode) == Some(mode)
      modifies this
      ensures history == old(history) + p.All() && !p.signalled && ModeTrace(plan, mode, p)
      ensures unexpected <==> AnyOdd(p.All())
      ensures result.mode == mode && result.skipped != INTERRUPTED
      ensures result.error == UNEXPECTED <==> unexpected
      ensures result.Measured() <==> AllReported(plan, mode, p)
      ensures Recorded(plan, mode, p.rest, result.runs)
      ensures MeasuredCard(plan.bus, mode, p.rest, result.runs) && Benchmarked(plan, mode, p.rest)
      ensures |result.runs| > 0 ==> result.error == "" && result.skipped == ""
    {
      hide Canonical, SetTrace, Choose, RestTrace;
      result, unexpected := ModeResult(mode, [], "", ""), false;
      var set_;
      ghost var t;
      set_, t := SetMode(mode);
      p := Part(false, t, []);
      assert p.All() == t;
      if set_.Err? {
        unexpected := set_.error == Unmodelled;
        result := result.(error := if unexpected then UNEXPECTED else FAILED);
        return;
      }
      ghost var rest;
      result, unexpected, rest := MeasureMode(plan, mode);
      p := Part(false, t, rest);
      assert p.All() == t + rest;
      OddParts(t, rest);
    }

    /** What follows a successful set_mode in the try block. */
    method MeasureMode(plan: Plan, mode: string) returns (result: ModeResult, unexpected: bool, ghost t: seq<Event>)
      requires Canonical(mode) == Some(mode)
      modifies this
      ensures history == old(history) + t && RestTrace(plan, mode, t)
      ensures unexpected <==> AnyOdd(t)
      ensures result.mode == mode && result.skipped != INTERRUPTED
      ensures result.error == UNEXPECTED <==> unexpected
      ensures result.Measured() <==> Reports(plan, mode, t)
      ensures Recorded(plan, mode, t, result.runs)
      ensures MeasuredCard(plan.bus, mode, t, result.runs) && Benchmarked(plan, mode, t)
      ensures |result.runs| > 0 ==> result.error == "" && result.skipped == ""
    {
      hide RestTrace, Reports, Recorded, PartitionCount, MeasuredCard, Benchmarked, Canonical;
      result, unexpected, t := MeasureSteps(plan, mode);
      assert PartitionCount(Canonical(mode).value) > 0;
      RunsAreOnePerDevice(plan, mode, t, result.runs);
    }

    method MeasureSteps(plan: Plan, mode: string) returns (result: ModeResult, unexpected: bool, ghost t: seq<Event>)
      requires Canonical(mode) == Some(mode)
      modifies this
      ensures history == old(history) + t && RestTrace(plan, mode, t)
      ensures unexpected <==> AnyOdd(t)
      ensures result.mode == mode && result.skipped != INTERRUPTED
      ensures result.error == UNEXPECTED <==> unexpected
      ensures result.Measured() <==> Reports(plan, mode, t)
      ensures Recorded(plan, mode, t, result.runs)
      ensures |result.runs| > 0 ==> result.error == "" && result.skipped == ""
    {
      hide RunRecord, Canonical, PartitionCount, PartitionCuOnBus, Selected;
      result, unexpected := ModeResult(mode, [], "", ""), false;
      var listed := ReadHsaAgents(plan.parseInt);
      ghost var e := match listed case Ok(agents) => Agents(agents) case Err(problem) => Raised(problem);
      Note(e);
      t := [e];
      assert t[0] == e;
      if listed.Err? {
        unexpected := listed.error == Unmodelled;
        result := result.(error := if unexpected then UNEXPECTED else FAILED);
        return;
      }
      var choice := Choose(plan, mode, listed.value);
      match choice
      case NoChoice => result := result.(error := FAILED);
      case TooSmall => result := result.(skipped := WILL_NOT_FIT);
      case Devices(devices) =>
        ChoiceCount(plan, mode, listed.value);
        var r;
        ghost var f;
        r, f := RunMode(devices);
        t := t + [f];
        assert t[0] == e && t[1] == f;
        if r.Err? {
          unexpected := r.error == Unmodelled;
          result := result.(error := if unexpected then UNEXPECTED else FAILED);
          return;
        }
        result := result.(runs := r.value);
        assert forall i :: 0 <= i < |devices| ==>
            (result.runs[i].Ok() <==> f.outcomes[i] == Exited(0, true)) by { RunsOk(devices, f.outcomes, result.runs); }
    }
  }

  lemma RunsOk(devices: seq<nat>, outcomes: seq<RunOutcome>, runs: seq<PartitionRun>)
    requires |devices| == |outcomes| == |runs|
    requires forall i :: 0 <= i < |devices| ==> runs[i] == RunRecord(i, devices[i], outcomes[i])
    ensures forall i :: 0 <= i < |runs| ==> (runs[i].Ok() <==> outcomes[i] == Exited(0, true))
  {
  }

  lemma ChoiceCount(plan: Plan, mode: string, agents: seq<HsaAgent>)
    requires Canonical(mode) == Some(mode)
    ensures PartitionCount(mode) > 0
    ensures Choose(plan, mode, agents).Devices? ==> |Choose(plan, mode, agents).devices| == PartitionCount(mode)
  {
  }

  lemma OddParts(a: seq<Event>, b: seq<Event>)
    ensures AnyOdd(a + b) <==> AnyOdd(a) || AnyOdd(b)
  {
    var t := a + b;
    if AnyOdd(a) { var i :| 0 <= i < |a| && Odd(a[i]); assert Odd(t[i]); }
    if AnyOdd(b) { var i :| 0 <= i < |b| && Odd(b[i]); assert Odd(t[|a| + i]); }
  }

  lemma WaitsNotOdd(waits: seq<Event>, last: seq<Event>, c: string)
    requires forall i :: 0 <= i < |waits| ==> waits[i] == Tried(c, Busy)
    ensures AnyOdd(waits + last) <==> AnyOdd(last)
  {
    hide AnyOdd;
    OddParts(waits, last);
    assert !AnyOdd(waits) by { NoneOddIn(waits); }
  }

  lemma NoneOddIn(t: seq<Event>)
    requires forall i :: 0 <= i < |t| ==> !Odd(t[i])
    ensures !AnyOdd(t)
  {
  }

  lemma {:induction false} WaitsThenLast(waits: seq<Event>, last: seq<Event>, c: string)
    requires forall i :: 0 <= i < |waits| ==> waits[i] == Tried(c, Busy)
    requires SetTail(last, c)
    ensures SetTail(waits + last, c)
  {
    if |waits| > 0 {
      WaitsThenLast(waits[1..], last, c);
      var t := waits + last;
      assert t[0] == Tried(c, Busy);
      assert t[1..] == waits[1..] + last;
    } else {
      assert waits + last == last;
    }
  }

  // -------------------------------------------------------- mode names, proved

  /** As current_modes returns it: no lower-case letter, and not led by white space. */
  predicate ReportedName(s: string) {
    |s| > 0 && !IsSpace(s[0]) && Upper(s) == s
  }

  lemma {:induction false} StripLeftFirst(s: string)
    ensures |StripLeft(s)| > 0 ==> !IsSpace(StripLeft(s)[0])
  {
    if |s| > 0 && IsSpace(s[0]) { StripLeftFirst(s[1..]); }
  }

  lemma {:induction false} StripRightPrefix(s: string)
    ensures |StripRight(s)| <= |s| && StripRight(s) == s[..|StripRight(s)|]
  {
    if |s| > 0 && IsSpace(s[|s| - 1]) { StripRightPrefix(s[..|s| - 1]); }
  }

  lemma {:induction false} StripStarsPrefix(s: string)
    ensures |StripStars(s)| <= |s| && StripStars(s) == s[..|StripStars(s)|]
  {
    if |s| > 0 && s[|s| - 1] == '*' { StripStarsPrefix(s[..|s| - 1]); }
  }

  lemma UpperTwice(s: string)
    ensures Upper(Upper(s)) == Upper(s)
    ensures forall i :: 0 <= i < |s| ==> (IsSpace(Upper(s)[i]) <==> IsSpace(s[i]))
  {
  }

  lemma ReportedIsReported(raw: string)
    requires Reported(raw) != ""
    ensures ReportedName(Reported(raw))
  {
    var left := StripLeft(raw);
    var name := StripRight(left);
    StripLeftFirst(raw);
    StripRightPrefix(left);
    UpperTwice(name);
    StripStarsPrefix(Upper(name));
    var r := Reported(raw);
    assert r == Upper(name)[..|r|];
    assert r[0] == Upper(name)[0] && name[0] == left[0];
    assert Upper(r) == r by {
      assert forall i :: 0 <= i < |r| ==> Upper(r)[i] == Upper(Upper(name))[i];
    }
  }

  lemma UpperOfPrefix(s: string, n: nat)
    requires n <= |s| && Upper(s) == s
    ensures Upper(s[..n]) == s[..n]
  {
    assert forall i :: 0 <= i < n ==> Upper(s[..n])[i] == Upper(s)[i];
  }

  /** A reported name parses to itself exactly when it is a known mode; with trailing white space it parses to
      the name without it. */
  lemma CanonicalOfReported(s: string)
    requires ReportedName(s)
    ensures Canonical(s) == if PartitionCount(StripRight(s)) > 0 then Some(StripRight(s)) else None
    ensures !IsSpace(s[|s| - 1]) ==> StripRight(s) == s
    ensures IsSpace(s[|s| - 1]) ==> StripRight(s) != s
  {
    hide PartitionCount;
    StripRightPrefix(s);
    assert StripLeft(s) == s;
    UpperOfPrefix(s, |StripRight(s)|);
    if IsSpace(s[|s| - 1]) { StripRightPrefix(s[..|s| - 1]); }
  }

  // ------------------------------------------------------------ the sweep

  function Flat(parts: seq<Part>): seq<Event> {
    if |parts| == 0 then [] else Flat(parts[..|parts| - 1]) + parts[|parts| - 1].All()
  }

  predicate SomeReported(plan: Plan, modes: seq<string>, parts: seq<Part>) {
    exists i :: 0 <= i < |modes| && i < |parts| && AllReported(plan, modes[i], parts[i])
  }

  /** One result per mode reached, in order. A mode that was tried has its own events; after a signal the
      remaining modes ask nothing of the card; and only an exception nobody modelled stops the sweep early. */
  ghost predicate Swept(plan: Plan, modes: seq<string>, parts: seq<Part>, results: seq<ModeResult>) {
    && |parts| == |results| <= |modes|
    && (forall i :: 0 <= i < |parts| ==> Reached(plan, modes[i], parts[i], results[i]))
    && (forall i :: 0 <= i < |parts| ==> (results[i].skipped == INTERRUPTED <==> SignalledBy(parts, i)))
    && (forall i :: 0 <= i < |parts| - 1 ==> !AnyOdd(parts[i].All()))
    && (|parts| < |modes| ==> |parts| > 0 && AnyOdd(parts[|parts| - 1].All()))
  }

  predicate SignalledBy(parts: seq<Part>, i: nat) {
    exists j :: 0 <= j <= i && j < |parts| && parts[j].signalled
  }

  predicate Reached(plan: Plan, mode: string, p: Part, r: ModeResult) {
    && r.mode == mode
    && (r.Measured() <==> AllReported(plan, mode, p))
    && if r.skipped == INTERRUPTED then p.setting == p.rest == [] && r == ModeResult(mode, [], INTERRUPTED, "")
       else
         && ModeTrace(plan, mode, p) && Recorded(plan, mode, p.rest, r.runs)
         && MeasuredCard(plan.bus, mode, p.rest, r.runs) && Benchmarked(plan, mode, p.rest)
         && (r.error == UNEXPECTED <==> AnyOdd(p.All()))
  }

  predicate Resolved(modes: seq<string>) {
    forall i :: 0 <= i < |modes| ==> Canonical(modes[i]) == Some(modes[i])
  }

  /** A started sweep, from the signal handlers on: the loop, the restore in its finally clause, the report and
      the exit code. */
  method Sweep(card: Card, plan: Plan, entry: string, modes: seq<string>)
    returns (code: int, results: seq<ModeResult>, ghost parts: seq<Part>, ghost tail: seq<Event>, ghost written: bool)
    requires Resolved(modes)
    modifies card
    ensures card.history == old(card.history) + Flat(parts) + tail + [Report(written)]
    ensures Swept(plan, modes, parts, results) && RestoreTrace(tail, entry)
    ensures code == 3 <==> !RestoreOk(tail, entry)
    ensures code == 4 <==> RestoreOk(tail, entry) && (AnyOdd(Flat(parts)) || !written)
    ensures code == 0 <==>
              RestoreOk(tail, entry) && !AnyOdd(Flat(parts)) && written && SomeReported(plan, modes, parts)
    ensures code == 0 || code == 1 || code == 3 || code == 4
  {
    hide RestoreTrace, RestoreOk, AllReported, Reached, SomeReported, AnyOdd;
    var stopped, restoreFailed, reportFailed;
    results, stopped, parts := SweepModes(card, plan, modes);
    ghost var swept := card.history;
    restoreFailed, tail := card.RestoreEntryMode(entry);
    reportFailed := *;
    written := !reportFailed;
    card.Note(Report(written));
    assert card.history == old(card.history) + Flat(parts) + tail + [Report(written)];
    AnyMeasuredMeans(plan, modes, parts, results);
    if restoreFailed { code := 3; }
    else if stopped || reportFailed { code := 4; }
    else if AnyMeasured(results) { code := 0; }
    else { code := 1; }
  }

  predicate AnyMeasured(results: seq<ModeResult>) {
    exists i :: 0 <= i < |results| && results[i].Measured()
  }

  lemma AnyMeasuredMeans(plan: Plan, modes: seq<string>, parts: seq<Part>, results: seq<ModeResult>)
    requires Swept(plan, modes, parts, results)
    ensures AnyMeasured(results) <==> SomeReported(plan, modes, parts)
  {
    hide AllReported, ModeTrace, Recorded, AnyOdd;
    assert forall i :: 0 <= i < |parts| ==> Reached(plan, modes[i], parts[i], results[i]);
  }

  /** The loop over the modes. */
  method SweepModes(card: Card, plan: Plan, modes: seq<string>)
    returns (results: seq<ModeResult>, stopped: bool, ghost parts: seq<Part>)
    requires Resolved(modes)
    modifies card
    ensures card.history == old(card.history) + Flat(parts)
    ensures Swept(plan, modes, parts, results)
    ensures stopped <==> AnyOdd(Flat(parts))
  {
    hide SoFar, Reached, AnyOdd, Canonical, Flat;
    results, stopped, parts := [], false, [];
    var interrupted := false;
    NothingSoFar(plan, modes);
    while |results| < |modes| && !stopped
      invariant |parts| == |results| <= |modes|
      invariant card.history == old(card.history) + Flat(parts)
      invariant SoFar(plan, modes, parts, results, interrupted, stopped)
      decreases |modes| - |results|
    {
      var signalled: bool := *;
      ghost var before := interrupted;
      if signalled { card.Note(Signal); }
      interrupted := interrupted || signalled;
      var mode := modes[|results|];
      var result;
      ghost var p;
      if interrupted {
        result, p := ModeResult(mode, [], INTERRUPTED, ""), Part(signalled, [], []);
        InterruptedReached(plan, mode, p);
      } else {
        result, stopped, p := card.TryMode(plan, mode);
        TriedReached(plan, mode, p, result);
      }
      FlatAppend(parts, p);
      SoFarStep(plan, modes, parts, results, p, result, before, stopped);
      results := results + [result];
      parts := parts + [p];
    }
    SoFarIsSwept(plan, modes, parts, results, interrupted, stopped);
  }

  ghost predicate SoFar(plan: Plan, modes: seq<string>, parts: seq<Part>, results: seq<ModeResult>,
                        interrupted: bool, stopped: bool) {
    && |parts| == |results| <= |modes|
    && (forall i :: 0 <= i < |parts| ==> Reached(plan, modes[i], parts[i], results[i]))
    && SignalsSoFar(parts, results, interrupted)
    && OddSoFar(parts, stopped)
  }

  ghost predicate SignalsSoFar(parts: seq<Part>, results: seq<ModeResult>, interrupted: bool)
    requires |parts| == |results|
  {
    && (forall i :: 0 <= i < |parts| ==> (results[i].skipped == INTERRUPTED <==> SignalledBy(parts, i)))
    && (interrupted <==> Earlier(parts))
  }

  ghost predicate OddSoFar(parts: seq<Part>, stopped: bool) {
    && (forall i :: 0 <= i < |parts| - 1 ==> !AnyOdd(parts[i].All()))
    && (stopped <==> |parts| > 0 && AnyOdd(parts[|parts| - 1].All()))
    && (stopped <==> AnyOdd(Flat(parts)))
  }

  lemma NothingSoFar(plan: Plan, modes: seq<string>)
    ensures Flat([]) == [] && SoFar(plan, modes, [], [], false, false)
  {
  }

  lemma SoFarIsSwept(plan: Plan, modes: seq<string>, parts: seq<Part>, results: seq<ModeResult>,
                     interrupted: bool, stopped: bool)
    requires SoFar(plan, modes, parts, results, interrupted, stopped) && (|parts| == |modes| || stopped)
    ensures Swept(plan, modes, parts, results) && (stopped <==> AnyOdd(Flat(parts)))
  {
    hide Reached, AnyOdd, SignalledBy;
  }

  lemma SoFarStep(plan: Plan, modes: seq<string>, parts: seq<Part>, results: seq<ModeResult>, p: Part, r: ModeResult,
                  before: bool, stopped: bool)
    requires |parts| < |modes| && SoFar(plan, modes, parts, results, before, false)
    requires Reached(plan, modes[|parts|], p, r) && (r.skipped == INTERRUPTED <==> before || p.signalled)
    requires stopped <==> AnyOdd(p.All())
    ensures SoFar(plan, modes, parts + [p], results + [r], before || p.signalled, stopped)
  {
    hide Reached, AnyOdd, Flat, SignalsSoFar;
    FlatAppend(parts, p);
    SignalsStep(parts, results, p, r, before);
  }

  lemma SignalsStep(parts: seq<Part>, results: seq<ModeResult>, p: Part, r: ModeResult, before: bool)
    requires |parts| == |results| && SignalsSoFar(parts, results, before)
    requires r.skipped == INTERRUPTED <==> before || p.signalled
    ensures SignalsSoFar(parts + [p], results + [r], before || p.signalled)
  {
    var grown := parts + [p];
    forall i | 0 <= i < |parts| ensures SignalledBy(grown, i) <==> SignalledBy(parts, i) {
      if SignalledBy(grown, i) { var j :| 0 <= j <= i && grown[j].signalled; assert parts[j].signalled; }
      if SignalledBy(parts, i) { var j :| 0 <= j <= i && j < |parts| && parts[j].signalled; assert grown[j].signalled; }
    }
    EarlierGrows(parts, p);
  }

  lemma EarlierGrows(parts: seq<Part>, p: Part)
    ensures Earlier(parts + [p]) <==> Earlier(parts) || p.signalled
    ensures SignalledBy(parts + [p], |parts|) <==> Earlier(parts + [p])
  {
    var grown := parts + [p];
    if Earlier(grown) {
      var j :| 0 <= j < |grown| && grown[j].signalled;
      assert j < |parts| ==> parts[j].signalled;
    }
    if Earlier(parts) {
      var j :| 0 <= j < |parts| && parts[j].signalled;
      assert grown[j].signalled;
    }
    assert p.signalled ==> grown[|parts|].signalled;
  }

  predicate Earlier(parts: seq<Part>) {
    exists j :: 0 <= j < |parts| && parts[j].signalled
  }

  lemma InterruptedReached(plan: Plan, mode: string, p: Part)
    requires p.setting == p.rest == []
    ensures Reached(plan, mode, p, ModeResult(mode, [], INTERRUPTED, "")) && !AnyOdd(p.All())
    ensures p.All() == if p.signalled then [Signal] else []
  {
  }

  lemma TriedReached(plan: Plan, mode: string, p: Part, r: ModeResult)
    requires ModeTrace(plan, mode, p) && r.mode == mode && r.skipped != INTERRUPTED
    requires Recorded(plan, mode, p.rest, r.runs) && (r.error == UNEXPECTED <==> AnyOdd(p.All()))
    requires MeasuredCard(plan.bus, mode, p.rest, r.runs) && Benchmarked(plan, mode, p.rest)
    requires r.Measured() <==> AllReported(plan, mode, p)
    ensures Reached(plan, mode, p, r)
  {
  }

  lemma FlatAppend(parts: seq<Part>, p: Part)
    ensures Flat(parts + [p]) == Flat(parts) + p.All()
    ensures AnyOdd(Flat(parts + [p])) <==> AnyOdd(Flat(parts)) || AnyOdd(p.All())
  {
    assert (parts + [p])[..|parts|] == parts;
    OddParts(Flat(parts), p.All());
  }

  // ---------------------------------------------------------- the last read

  lemma {:induction false} LastReadAfter(before: seq<Event>, t: seq<Event>)
    ensures LastRead(before + t) == if LastRead(t).Some? then LastRead(t) else LastRead(before)
  {
    if |t| > 0 {
      assert (before + t)[..|before + t| - 1] == before + t[..|t| - 1];
      LastReadAfter(before, t[..|t| - 1]);
    } else {
      assert before + t == before;
    }
  }

  /** The two names are one mode: equal, or spellings of the same known mode. */
  predicate SameMode(a: string, b: string) {
    a == b || (Canonical(a).Some? && Canonical(a) == Canonical(b))
  }

  lemma CanonicalTwice(raw: string)
    ensures Canonical(raw).Some? ==> Canonical(Canonical(raw).value) == Canonical(raw)
  {
    assert StripRight("SPX") == "SPX" && StripRight("DPX") == "DPX" && StripRight("QPX") == "QPX" && StripRight("CPX") == "CPX";
    assert Upper("SPX") == "SPX" && Upper("DPX") == "DPX" && Upper("QPX") == "QPX" && Upper("CPX") == "CPX";
  }

  /** A restore that succeeded last read the entry mode, or the known mode the entry mode spells. */
  lemma RestoreReads(t: seq<Event>, entry: string)
    requires RestoreTrace(t, entry) && RestoreOk(t, entry)
    ensures LastRead(t) == Some(entry) || (LastRead(t).Some? && LastRead(t) == Canonical(entry))
    ensures SameMode(LastRead(t).value, entry)
  {
    CanonicalTwice(entry);
  }

  /** Every exit but 3 leaves the entry mode as the last one the card answered. */
  method SweepRestores(card: Card, plan: Plan, entry: string, modes: seq<string>) returns (code: int)
    requires Resolved(modes)
    modifies card
    ensures code != 3 ==> LastRead(card.history).Some? && SameMode(LastRead(card.history).value, entry)
    ensures code != 3 && ReportedName(entry) && !IsSpace(entry[|entry| - 1]) ==> LastRead(card.history) == Some(entry)
  {
    hide Canonical, Swept, RestoreTrace, RestoreOk, AnyOdd, SomeReported, StripRight;
    var results;
    ghost var parts, tail, written;
    code, results, parts, tail, written := Sweep(card, plan, entry, modes);
    if code != 3 {
      RestoreReads(tail, entry);
      LastReadAfter(old(card.history) + Flat(parts), tail);
      LastReadAfter(old(card.history) + Flat(parts) + tail, [Report(written)]);
      if ReportedName(entry) && !IsSpace(entry[|entry| - 1]) { CanonicalOfReported(entry); }
    }
  }

  /** A successful restore always ends by reading the entry mode to the letter if and only if the entry mode is
      not a known mode's name followed by white space. */
  lemma RestoreReadsExactly(entry: string)
    requires ReportedName(entry)
    ensures (forall t :: RestoreTrace(t, entry) && RestoreOk(t, entry) ==> LastRead(t) == Some(entry))
            <==> !(IsSpace(entry[|entry| - 1]) && PartitionCount(StripRight(entry)) > 0)
  {
    hide StripRight, Canonical, RestoreTrace, RestoreOk, LastRead;
    CanonicalOfReported(entry);
    forall t | RestoreTrace(t, entry) && RestoreOk(t, entry)
      ensures LastRead(t) == Some(entry) || (LastRead(t).Some? && LastRead(t) == Canonical(entry))
    {
      RestoreReads(t, entry);
    }
    if Canonical(entry).Some? && Canonical(entry).value != entry {
      OtherSpelling(entry, Canonical(entry).value);
    }
  }

  lemma OtherSpelling(entry: string, c: string)
    requires Canonical(entry) == Some(c)
    ensures var t := [ReadFailed(Modelled), ReadAs(c)];
            RestoreTrace(t, entry) && RestoreOk(t, entry) && LastRead(t) == Some(c)
  {
    hide Canonical;
    var t := [ReadFailed(Modelled), ReadAs(c)];
    assert t[1..] == [ReadAs(c)];
  }

  /** Where the entry mode is a known name, a restore succeeded exactly when the last thing asked was answered
      with it; where it is none, exactly when the first was. */
  lemma RestoreOkExactly(t: seq<Event>, entry: string)
    requires RestoreTrace(t, entry)
    ensures Canonical(entry) == Some(entry) ==> (RestoreOk(t, entry) <==> t[|t| - 1] == ReadAs(entry))
    ensures Canonical(entry) == None ==> (RestoreOk(t, entry) <==> t[0] == ReadAs(entry))
  {
    hide Canonical;
    if t[0] != ReadAs(entry) && Canonical(entry) == Some(entry) {
      assert |t[1..]| > 0 && t[|t| - 1] == t[1..][|t[1..]| - 1];
    }
  }

  /** A mode counts as measured exactly when its events after the set are one enumeration and one fan-out in
      which every process exited 0 with a report. */
  lemma AllReportedMeans(plan: Plan, mode: string, p: Part)
    requires Canonical(mode) == Some(mode) && ModeTrace(plan, mode, p)
    ensures AllReported(plan, mode, p) <==>
      && |p.rest| == 2 && p.rest[1].Fanned?
      && forall i :: 0 <= i < |p.rest[1].outcomes| ==> p.rest[1].outcomes[i] == Exited(0, true)
    ensures AllReported(plan, mode, p) ==>
      && p.setting[|p.setting| - 1] == ReadAs(mode) && p.rest[0].Agents?
      && Shape(p.rest[0].agents, plan.bus, |p.rest[1].outcomes|)
  {
    hide Canonical, PartitionCount, Choose, Shape, SetTrace;
    assert PartitionCount(Canonical(mode).value) > 0;
    if |p.rest| == 2 { ChooseMeans(plan, mode, p.rest[0].agents); }
  }

  /** What counts as unexpected: an exception nobody modelled, from a query, a set, or the steps between. */
  lemma OddMeans(t: seq<Event>)
    ensures AnyOdd(t) <==>
      ReadFailed(Unmodelled) in t || Raised(Unmodelled) in t || exists c :: Tried(c, Raises(Unmodelled)) in t
  {
    if AnyOdd(t) {
      var i :| 0 <= i < |t| && Odd(t[i]);
      assert t[i] in t;
      if t[i].Tried? { assert t[i] == Tried(t[i].mode, Raises(Unmodelled)); }
    }
    if ReadFailed(Unmodelled) in t || Raised(Unmodelled) in t || exists c :: Tried(c, Raises(Unmodelled)) in t {
      var e :| e in t && (e == ReadFailed(Unmodelled) || e == Raised(Unmodelled) || (e.Tried? && e.attempt == Raises(Unmodelled)));
      var i :| 0 <= i < |t| && t[i] == e;
      assert Odd(t[i]);
    }
  }

  /** The known modes and their partitions, in any spelling. */
  lemma KnownModes(raw: string)
    ensures Canonical(raw).Some? ==> Canonical(raw).value in {"SPX", "DPX", "QPX", "CPX"}
    ensures PartitionCount("SPX") == 1 && PartitionCount("DPX") == 2 && PartitionCount("QPX") == 4 && PartitionCount("CPX") == 8
    ensures Canonical("SPX") == Canonical(" spx") == Some("SPX") && Canonical("DPX") == Canonical("dpx ") == Some("DPX")
    ensures Canonical("QPX") == Canonical("qpx") == Some("QPX") && Canonical("CPX") == Canonical("Cpx") == Some("CPX")
  {
    hide PartitionCount;
    FourNames(raw);
    CanonicalOfThree("SPX", "SPX");
    CanonicalOfThree("DPX", "DPX");
    CanonicalOfThree("QPX", "QPX");
    CanonicalOfThree("CPX", "CPX");
    CanonicalOfThree("qpx", "QPX");
    CanonicalOfThree("Cpx", "CPX");
    assert " spx"[1..] == "spx" && StripLeft(" spx") == StripLeft("spx") == "spx";
    assert Upper("spx") == "SPX" && StripRight("spx") == "spx";
    assert "dpx "[..3] == "dpx" && StripLeft("dpx ") == "dpx " && StripRight("dpx ") == StripRight("dpx") == "dpx";
    assert Upper("dpx") == "DPX";
  }

  lemma CanonicalOfThree(raw: string, name: string)
    requires |raw| == 3 && !IsSpace(raw[0]) && !IsSpace(raw[2]) && Upper(raw) == name && PartitionCount(name) > 0
    ensures Canonical(raw) == Some(name)
  {
    assert StripLeft(raw) == raw && StripRight(raw) == raw;
  }

  lemma FourNames(raw: string)
    ensures Canonical(raw).Some? ==> Canonical(raw).value in {"SPX", "DPX", "QPX", "CPX"}
    ensures PartitionCount("SPX") == 1 && PartitionCount("DPX") == 2 && PartitionCount("QPX") == 4 && PartitionCount("CPX") == 8
  {
    hide StripLeft, StripRight, Upper;
    assert "SPX"[0] == 'S' && "DPX"[0] == 'D' && "QPX"[0] == 'Q' && "CPX"[0] == 'C';
  }

  /** Such a name is what a card that prints "SPX *" is read as. */
  lemma TrailingSpaceIsReported()
    ensures Reported("SPX *") == "SPX " && Canonical("SPX ") == Some("SPX")
  {
    assert StripLeft("SPX *") == "SPX *" && StripRight("SPX *") == "SPX *";
    assert Upper("SPX *") == "SPX *";
    assert StripStars("SPX *") == "SPX " by {
      assert "SPX *"[..4] == "SPX ";
    }
    assert StripLeft("SPX ") == "SPX ";
    assert "SPX "[..3] == "SPX";
    assert StripRight("SPX ") == StripRight("SPX") == "SPX";
    assert Upper("SPX") == "SPX";
  }
}
