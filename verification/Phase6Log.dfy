/** The event history of the Phase 6 promotion controller, and what the history must look like. Nothing here
    knows the controller's code: the predicates speak of events only. */
module Phase6Log {

  datatype UnitName = Stock | S3

  datatype Backend = StockBackend | S3Backend | UnknownBackend

  /** The persisted routing state. */
  datatype Route = Route(desired: Backend, active: Backend, validated: bool, guardFailures: int, reason: string)

  /** Why a fallback to stock begins. */
  datatype Cause = PromotionFailed | Requested | UnitNotActive | Unready(threshold: int)

  datatype Event =
    | Acquire                                  // the lock was taken: a transaction begins
    | AskedStop(unit: UnitName)                // systemctl stop was issued
    | SawNotActive(unit: UnitName)             // is-active answered something other than "active"
    | SawVramClean
    | SawPortFree
    | Started(unit: UnitName)                  // systemctl start was issued
    | Verified(unit: UnitName)                 // unit active and the model served
    | GuardStopped                             // timer and guard service were told to stop
    | SawTimerActive
    | GuardBegan(onS3: bool, threshold: int)   // what the state file told the guard
    | GuardReading(ready: bool)
    | Saved(route: Route)                      // the state file was replaced
    | FallbackBegan(cause: Cause)
    | Ended                                    // the lock was released by the command itself

  function Other(unit: UnitName): UnitName {
    if unit == Stock then S3 else Stock
  }

  /** What the current transaction has shown so far, and what the saves add up to. stage counts the steps of
      a proper shutdown of a unit, in order: stop asked, seen not active, VRAM clean, port free. */
  datatype Summary = Summary(
    stockStage: nat, s3Stage: nat, stockVerified: bool, s3Verified: bool, timerSeen: bool, guardStopped: bool,
    s3Idle: bool, reading: int, committed: bool, run: nat, duty: Duty)
  {
    function Stage(unit: UnitName): nat {
      if unit == Stock then stockStage else s3Stage
    }
  }

  /** What the current transaction owes. guarding: it is the guard's, and the state file named S3. due: there S3
      was seen not active, or an unready reading that reached the guard's threshold was saved, and no fallback
      has begun. open: a promotion is recorded as in progress, and neither S3 was saved
      nor a fallback begun since. started: stock was started since the fallback began. */
  datatype Duty = Duty(guarding: bool, threshold: int, due: bool, open: bool, fallback: bool, started: bool)

  const NONE := Duty(false, 0, false, false, false, false)
  const START := Summary(0, 0, false, false, false, false, false, 0, false, 0, NONE)

  function StageStep(stage: nat, unit: UnitName, e: Event): nat {
    match e
    case Acquire => 0
    case Started(_) => 0
    case AskedStop(u) => if u == unit then 1 else stage
    case SawNotActive(u) => if u == unit && stage == 1 then 2 else stage
    case SawVramClean => if stage == 2 then 3 else stage
    case SawPortFree => if stage == 3 then 4 else stage
    case _ => stage
  }

  function DutyStep(d: Duty, reading: int, run: nat, e: Event): Duty {
    match e
    case Acquire => NONE
    case GuardBegan(onS3, threshold) => d.(guarding := d.guarding || onS3, threshold := threshold)
    case SawNotActive(S3) => d.(due := d.due || (d.guarding && !d.fallback))
    case FallbackBegan(_) => d.(due := false, open := false, fallback := true, started := false)
    case Started(Stock) => d.(started := true)
    case Saved(route) =>
      if route.active == S3Backend then d.(due := d.due || (reading == -1 && run + 1 >= d.threshold), open := false)
      else d.(open := d.open || route.desired == S3Backend)
    case _ => d
  }

  function Advance(s: Summary, e: Event): Summary {
    var t := s.(stockStage := StageStep(s.stockStage, Stock, e), s3Stage := StageStep(s.s3Stage, S3, e),
                duty := DutyStep(s.duty, s.reading, s.run, e));
    match e
    case Acquire => t.(stockVerified := false, s3Verified := false, timerSeen := false, guardStopped := false, s3Idle := false, reading := 0)
    case Started(Stock) => t.(stockVerified := false)
    case Started(S3) => t.(s3Verified := false, timerSeen := false, s3Idle := false)
    case SawNotActive(S3) => t.(s3Idle := true)
    case Verified(Stock) => t.(stockVerified := true)
    case Verified(S3) => t.(s3Verified := true, s3Idle := false)
    case GuardStopped => t.(guardStopped := true)
    case SawTimerActive => t.(timerSeen := s.s3Verified, guardStopped := false)
    case GuardReading(ready) => t.(reading := if ready then 1 else -1)
    case Saved(route) =>
      var keeps := route.active == S3Backend;
      t.(committed := keeps && (s.committed || s.timerSeen),
         run := if keeps && s.reading == -1 then s.run + 1 else 0)
    case _ => t
  }

  /** Fold of the whole history. */
  function Summarise(log: seq<Event>): Summary {
    if |log| == 0 then START else Advance(Summarise(log[..|log| - 1]), log[|log| - 1])
  }

  /** A unit is started only after the other one was properly shut down in this transaction, and S3 only while
      the state file does not name it; the file names S3 only on top of a verified promotion, and validated
      stock only when S3 was seen not active, the guard told to stop, and stock passed a probe in this
      transaction, after being started by the fallback if there was one. A fallback begins for a failed
      promotion, a unit seen not active, or a recorded run of unready readings that reached the threshold, and
      no command ends while it owes one. */
  predicate GoodEvent(s: Summary, e: Event) {
    match e
    case Started(u) => s.Stage(Other(u)) == 4 && (u == S3 ==> !s.committed)
    case Saved(route) =>
      && (route.active == S3Backend ==> s.committed || s.timerSeen)
      && (route.active == StockBackend && route.validated ==>
            s.stockVerified && s.guardStopped && s.s3Idle && (s.duty.fallback ==> s.duty.started))
    case GuardBegan(_, _) => !s.duty.fallback
    case FallbackBegan(cause) => Founded(s, cause)
    case Ended => !s.duty.due && !s.duty.open
    case _ => true
  }

  predicate Founded(s: Summary, cause: Cause) {
    match cause
    case PromotionFailed => s.duty.open
    case Requested => true
    case UnitNotActive => s.s3Idle
    case Unready(threshold) => s.duty.due && s.reading == -1 && s.run >= threshold && s.duty.threshold == threshold
  }

  predicate GoodLog(log: seq<Event>) {
    |log| > 0 ==> GoodLog(log[..|log| - 1]) && GoodEvent(Summarise(log[..|log| - 1]), log[|log| - 1])
  }

  lemma SummariseAppend(log: seq<Event>, e: Event)
    ensures Summarise(log + [e]) == Advance(Summarise(log), e)
    ensures GoodLog(log + [e]) <==> GoodLog(log) && GoodEvent(Summarise(log), e)
  {
    assert (log + [e])[..|log|] == log;
  }

  lemma {:induction false} GoodAt(log: seq<Event>, i: nat)
    requires GoodLog(log) && i < |log|
    ensures GoodEvent(Summarise(log[..i]), log[i])
  {
    hide Advance, GoodEvent;
    var m := |log| - 1;
    if i < m {
      GoodAt(log[..m], i);
      assert log[..m][..i] == log[..i];
    }
  }

  // -------------------------------------------- what the summary means

  /** No transaction began and nothing was started strictly after position a. */
  predicate Quiet(log: seq<Event>, a: nat) {
    forall k :: a < k < |log| ==> log[k] != Acquire && !log[k].Started?
  }

  predicate ShutDown(log: seq<Event>, unit: UnitName, a: nat, b: nat, c: nat, d: nat) {
    && a < b < c < d < |log| && Quiet(log, a)
    && log[a] == AskedStop(unit) && log[b] == SawNotActive(unit) && log[c] == SawVramClean && log[d] == SawPortFree
  }

  predicate Shown(log: seq<Event>, unit: UnitName, stage: nat, a: nat, b: nat, c: nat, d: nat) {
    && (stage >= 1 ==> a < |log| && log[a] == AskedStop(unit) && Quiet(log, a))
    && (stage >= 2 ==> a < b < |log| && log[b] == SawNotActive(unit))
    && (stage >= 3 ==> b < c < |log| && log[c] == SawVramClean)
    && (stage >= 4 ==> c < d < |log| && log[d] == SawPortFree)
  }

  function StageOf(log: seq<Event>, unit: UnitName): nat {
    if |log| == 0 then 0 else StageStep(StageOf(log[..|log| - 1], unit), unit, log[|log| - 1])
  }

  lemma AdvanceStage(s: Summary, unit: UnitName, e: Event)
    ensures Advance(s, e).Stage(unit) == StageStep(s.Stage(unit), unit, e)
  {
    hide StageStep;
  }

  lemma {:induction false} StageOfSummary(log: seq<Event>, unit: UnitName)
    ensures Summarise(log).Stage(unit) == StageOf(log, unit)
  {
    hide StageStep, Advance;
    if |log| > 0 {
      AdvanceStage(Summarise(log[..|log| - 1]), unit, log[|log| - 1]);
      StageOfSummary(log[..|log| - 1], unit);
    }
  }

  lemma {:induction false} StageWitness(log: seq<Event>, unit: UnitName) returns (a: nat, b: nat, c: nat, d: nat)
    ensures StageOf(log, unit) <= 4 && Shown(log, unit, StageOf(log, unit), a, b, c, d)
  {
    a, b, c, d := 0, 0, 0, 0;
    if |log| > 0 {
      var m, e := |log| - 1, log[|log| - 1];
      a, b, c, d := StageWitness(log[..m], unit);
      var stage := StageOf(log[..m], unit);
      hide StageOf;
      if e == AskedStop(unit) {
        a := m;
      } else if e == SawNotActive(unit) && stage == 1 {
        b := m;
      } else if e == SawVramClean && stage == 2 {
        c := m;
      } else if e == SawPortFree && stage == 3 {
        d := m;
      }
    }
  }

  /** In a good history every start of a unit comes after the other was asked to stop, then seen not active,
      then VRAM seen clean, then the port seen free, all since the lock was taken and the last start. */
  lemma StartsFollowShutdown(log: seq<Event>, i: nat)
    requires GoodLog(log) && i < |log| && log[i].Started?
    ensures exists a, b, c, d :: ShutDown(log[..i], Other(log[i].unit), a, b, c, d)
  {
    hide Summarise, Quiet;
    GoodAt(log, i);
    StageOfSummary(log[..i], Other(log[i].unit));
    var a, b, c, d := StageWitness(log[..i], Other(log[i].unit));
    assert ShutDown(log[..i], Other(log[i].unit), a, b, c, d);
  }

  /** A save at i put S3 in the file after S3 was verified and then the timer seen active in one transaction,
      no later save took it out, and S3 was not started again since it was verified. */
  predicate Promotion(log: seq<Event>, v: nat, t: nat, i: nat) {
    && v < t < i < |log|
    && log[v] == Verified(S3) && log[t] == SawTimerActive
    && (forall k :: v < k < i ==> log[k] != Acquire)
    && (forall k :: v < k < |log| ==> log[k] != Started(S3))
    && (forall k :: i <= k < |log| && log[k].Saved? ==> log[k].route.active == S3Backend)
    && log[i].Saved?
  }

  predicate VerifiedSince(log: seq<Event>, v: nat) {
    v < |log| && log[v] == Verified(S3) && forall k :: v < k < |log| ==> log[k] != Acquire && log[k] != Started(S3)
  }

  predicate TimerSince(log: seq<Event>, v: nat, t: nat) {
    VerifiedSince(log, v) && v < t < |log| && log[t] == SawTimerActive
  }

  lemma {:induction false} VerifyWitness(log: seq<Event>) returns (v: nat)
    ensures Summarise(log).s3Verified ==> VerifiedSince(log, v)
  {
    v := 0;
    if |log| > 0 {
      var m := |log| - 1;
      v := VerifyWitness(log[..m]);
      if log[m] == Verified(S3) { v := m; }
    }
  }

  lemma {:induction false} TimerWitness(log: seq<Event>) returns (v: nat, t: nat)
    ensures Summarise(log).timerSeen ==> TimerSince(log, v, t)
  {
    hide StageStep, VerifiedSince, Advance;
    v, t := 0, 0;
    if |log| > 0 {
      var m := |log| - 1;
      TimerStep(Summarise(log[..m]), log[m]);
      v, t := TimerWitness(log[..m]);
      if log[m] == SawTimerActive {
        v := VerifyWitness(log[..m]);
        t := m;
      }
      if Summarise(log).timerSeen { SinceStep(log, v); }
    }
  }

  lemma TimerStep(s: Summary, e: Event)
    ensures Advance(s, e).timerSeen <==>
      if e == SawTimerActive then s.s3Verified else s.timerSeen && e != Acquire && e != Started(S3)
  {
    hide StageStep;
  }

  lemma SinceStep(log: seq<Event>, v: nat)
    requires |log| > 0 && VerifiedSince(log[..|log| - 1], v) && log[|log| - 1] != Acquire && log[|log| - 1] != Started(S3)
    ensures VerifiedSince(log, v)
  {
    var before := log[..|log| - 1];
    forall k | v < k < |log| ensures log[k] != Acquire && log[k] != Started(S3) {
      if k < |before| { assert before[k] == log[k]; }
    }
  }

  predicate StockSince(log: seq<Event>, v: nat) {
    v < |log| && log[v] == Verified(Stock) && forall k :: v < k < |log| ==> log[k] != Acquire && log[k] != Started(Stock)
  }

  predicate GuardQuiet(log: seq<Event>, g: nat) {
    g < |log| && log[g] == GuardStopped && forall k :: g < k < |log| ==> log[k] != Acquire && log[k] != SawTimerActive
  }

  /** In this transaction stock passed a probe after its last start, and the guard was told to stop. */
  predicate ProbedAndQuiet(log: seq<Event>, v: nat, g: nat) {
    StockSince(log, v) && GuardQuiet(log, g)
  }

  lemma {:induction false} StockWitness(log: seq<Event>) returns (v: nat)
    ensures Summarise(log).stockVerified ==> StockSince(log, v)
  {
    hide StageStep;
    v := 0;
    if |log| > 0 {
      var m := |log| - 1;
      v := StockWitness(log[..m]);
      if log[m] == Verified(Stock) { v := m; }
    }
  }

  lemma {:induction false} GuardWitness(log: seq<Event>) returns (g: nat)
    ensures Summarise(log).guardStopped ==> GuardQuiet(log, g)
  {
    hide StageStep;
    g := 0;
    if |log| > 0 {
      var m := |log| - 1;
      g := GuardWitness(log[..m]);
      if log[m] == GuardStopped { g := m; }
    }
  }

  /** The state file is made to name validated stock only after stock passed a probe since its last start and
      with the guard told to stop, both in the same transaction. */
  lemma StockMeansProbed(log: seq<Event>, i: nat)
    requires GoodLog(log) && i < |log| && log[i].Saved?
    requires log[i].route.active == StockBackend && log[i].route.validated
    ensures exists v, g :: ProbedAndQuiet(log[..i], v, g)
  {
    hide Summarise;
    GoodAt(log, i);
    var v := StockWitness(log[..i]);
    var g := GuardWitness(log[..i]);
    assert ProbedAndQuiet(log[..i], v, g);
  }

  lemma CommittedStep(log: seq<Event>)
    requires |log| > 0 && Summarise(log).committed
    ensures var s, e := Summarise(log[..|log| - 1]), log[|log| - 1];
      && (e.Saved? ==> e.route.active == S3Backend && (s.committed || s.timerSeen))
      && (!e.Saved? ==> s.committed)
      && (GoodLog(log) && s.committed ==> e != Started(S3))
  {
    hide StageStep, DutyStep, Founded;
  }

  lemma CommitNow(log: seq<Event>, v: nat, t: nat)
    requires |log| > 0 && log[|log| - 1].Saved? && !Summarise(log[..|log| - 1]).committed
    requires Summarise(log[..|log| - 1]).timerSeen ==> TimerSince(log[..|log| - 1], v, t)
    ensures Summarise(log).committed ==> Promotion(log, v, t, |log| - 1)
  {
    hide Summarise;
    if Summarise(log).committed {
      CommittedStep(log);
      PromotionNow(log, v, t);
    }
  }

  lemma PromotionNow(log: seq<Event>, v: nat, t: nat)
    requires |log| > 0 && log[|log| - 1].Saved? && log[|log| - 1].route.active == S3Backend
    requires TimerSince(log[..|log| - 1], v, t)
    ensures Promotion(log, v, t, |log| - 1)
  {
    var before := log[..|log| - 1];
    forall k | v < k < |log| - 1 ensures log[k] != Acquire && log[k] != Started(S3) {
      assert before[k] == log[k];
    }
  }

  lemma CommitKept(log: seq<Event>, v: nat, t: nat, i: nat)
    requires GoodLog(log) && |log| > 0 && (log[|log| - 1].Saved? ==> Summarise(log[..|log| - 1]).committed)
    requires Summarise(log[..|log| - 1]).committed ==> Promotion(log[..|log| - 1], v, t, i)
    ensures Summarise(log).committed ==> Promotion(log, v, t, i)
  {
    hide Summarise, GoodLog;
    if Summarise(log).committed {
      CommittedStep(log);
      PromotionKept(log, v, t, i);
    }
  }

  lemma PromotionKept(log: seq<Event>, v: nat, t: nat, i: nat)
    requires |log| > 0 && log[|log| - 1] != Started(S3)
    requires log[|log| - 1].Saved? ==> log[|log| - 1].route.active == S3Backend
    requires Promotion(log[..|log| - 1], v, t, i)
    ensures Promotion(log, v, t, i)
  {
    var before := log[..|log| - 1];
    forall k | v < k < |log| ensures log[k] != Started(S3) && (k < i ==> log[k] != Acquire) {
      if k < |before| { assert before[k] == log[k]; }
    }
    forall k | i <= k < |log| && log[k].Saved? ensures log[k].route.active == S3Backend {
      if k < |before| { assert before[k] == log[k]; }
    }
  }

  lemma {:induction false} CommitWitness(log: seq<Event>) returns (v: nat, t: nat, i: nat)
    requires GoodLog(log)
    ensures Summarise(log).committed ==> Promotion(log, v, t, i)
  {
    hide Advance, GoodEvent, Promotion;
    v, t, i := 0, 0, 0;
    if |log| > 0 {
      var m := |log| - 1;
      v, t, i := CommitWitness(log[..m]);
      if log[m].Saved? && !Summarise(log[..m]).committed {
        v, t := TimerWitness(log[..m]);
        i := m;
        CommitNow(log, v, t);
      } else {
        CommitKept(log, v, t, i);
      }
    }
  }

  /** The state file names S3 only on top of a promotion that has not been undone since. */
  lemma CommittedMeansPromoted(log: seq<Event>)
    requires GoodLog(log) && Summarise(log).committed
    ensures exists v, t, i :: Promotion(log, v, t, i)
  {
    var v, t, i := CommitWitness(log);
  }

  /** The guard readings recorded since the state file last stopped naming S3 or was committed. */
  function Recorded(log: seq<Event>): seq<bool> {
    if |log| == 0 then []
    else
      var before, e := log[..|log| - 1], log[|log| - 1];
      if !e.Saved? then Recorded(before)
      else if e.route.active != S3Backend || LastReading(before) == 0 then []
      else Recorded(before) + [LastReading(before) == 1]
  }

  /** The reading of the current transaction: 1 ready, -1 not ready, 0 none. */
  function LastReading(log: seq<Event>): int {
    if |log| == 0 then 0
    else match log[|log| - 1]
      case Acquire => 0
      case GuardReading(ready) => if ready then 1 else -1
      case _ => LastReading(log[..|log| - 1])
  }

  function TrailingUnready(readings: seq<bool>): nat {
    if |readings| == 0 || readings[|readings| - 1] then 0 else 1 + TrailingUnready(readings[..|readings| - 1])
  }

  lemma AdvanceReading(s: Summary, e: Event)
    ensures Advance(s, e).reading == match e
      case Acquire => 0
      case GuardReading(ready) => if ready then 1 else -1
      case _ => s.reading
  {
    hide StageStep;
  }

  lemma {:induction false} ReadingOfSummary(log: seq<Event>)
    ensures Summarise(log).reading == LastReading(log) && -1 <= LastReading(log) <= 1
  {
    hide StageStep, Advance;
    if |log| > 0 {
      ReadingOfSummary(log[..|log| - 1]);
      AdvanceReading(Summarise(log[..|log| - 1]), log[|log| - 1]);
    }
  }

  lemma TrailingAppend(r: seq<bool>, ready: bool)
    ensures TrailingUnready([]) == 0
    ensures TrailingUnready(r + [ready]) == if ready then 0 else 1 + TrailingUnready(r)
  {
    assert (r + [ready])[..|r|] == r;
  }

  lemma AdvanceRun(s: Summary, e: Event)
    ensures Advance(s, e).run == if !e.Saved? then s.run
                                 else if e.route.active == S3Backend && s.reading == -1 then s.run + 1 else 0
  {
    hide StageStep;
  }

  /** The summary's run is the number of unready readings at the end of the recorded ones. */
  lemma {:induction false} RunCountsReadings(log: seq<Event>)
    ensures Summarise(log).run == TrailingUnready(Recorded(log))
  {
    hide Advance, LastReading, TrailingUnready;
    TrailingAppend([], true);
    if |log| > 0 {
      AdvanceRun(Summarise(log[..|log| - 1]), log[|log| - 1]);
      var before := log[..|log| - 1];
      RunCountsReadings(before);
      ReadingOfSummary(before);
      TrailingAppend(Recorded(before), LastReading(before) == 1);
    }
  }

  // ---------------------------------------------------- what a command owes

  /** The threshold the guard of the current transaction was given. */
  function LastThreshold(log: seq<Event>): int {
    if |log| == 0 then 0
    else match log[|log| - 1]
      case Acquire => 0
      case GuardBegan(_, threshold) => threshold
      case _ => LastThreshold(log[..|log| - 1])
  }

  lemma AdvanceDuty(s: Summary, e: Event)
    ensures Advance(s, e).duty == DutyStep(s.duty, s.reading, s.run, e)
  {
    hide StageStep, DutyStep;
  }

  lemma {:induction false} ThresholdOfSummary(log: seq<Event>)
    ensures Summarise(log).duty.threshold == LastThreshold(log)
  {
    hide Advance;
    if |log| > 0 {
      AdvanceDuty(Summarise(log[..|log| - 1]), log[|log| - 1]);
      ThresholdOfSummary(log[..|log| - 1]);
    }
  }

  predicate Within(log: seq<Event>, j: nat) {
    forall k :: j < k < |log| ==> log[k] != Acquire
  }

  /** The save at j recorded an unready reading with which the run reached the threshold. */
  predicate ReachedAt(log: seq<Event>, j: nat) {
    && j < |log| && log[j].Saved? && log[j].route.active == S3Backend
    && LastReading(log[..j]) == -1 && LastThreshold(log[..j]) <= TrailingUnready(Recorded(log[..j + 1]))
  }

  /** The save at j recorded a promotion in progress. */
  predicate OpenedAt(log: seq<Event>, j: nat) {
    j < |log| && log[j].Saved? && log[j].route.active != S3Backend && log[j].route.desired == S3Backend
  }

  predicate FallbackAfter(log: seq<Event>, j: nat) {
    exists k :: j < k < |log| && log[k].FallbackBegan?
  }

  predicate CommitAfter(log: seq<Event>, j: nat) {
    exists k :: j < k < |log| && log[k].Saved? && log[k].route.active == S3Backend
  }

  lemma DueAt(log: seq<Event>, j: nat)
    requires ReachedAt(log, j)
    ensures Summarise(log[..j + 1]).duty.due
  {
    hide Advance, Recorded, TrailingUnready, LastReading, LastThreshold;
    assert log[..j + 1][..j] == log[..j];
    AdvanceDuty(Summarise(log[..j]), log[j]);
    AdvanceRun(Summarise(log[..j]), log[j]);
    RunCountsReadings(log[..j + 1]);
    ReadingOfSummary(log[..j]);
    ThresholdOfSummary(log[..j]);
  }

  lemma {:induction false} DueStays(log: seq<Event>, j: nat)
    requires ReachedAt(log, j) && Within(log, j)
    ensures Summarise(log).duty.due || FallbackAfter(log, j)
    decreases |log|
  {
    hide Advance, Recorded, TrailingUnready, LastReading, LastThreshold;
    var m := |log| - 1;
    if j == m {
      assert log[..j + 1] == log;
      DueAt(log, j);
    } else {
      assert log[..m][..j] == log[..j] && log[..m][..j + 1] == log[..j + 1];
      DueStays(log[..m], j);
      AdvanceDuty(Summarise(log[..m]), log[m]);
      if FallbackAfter(log[..m], j) {
        var k :| j < k < m && log[..m][k].FallbackBegan?;
        assert log[k].FallbackBegan?;
      }
    }
  }

  lemma {:induction false} OpenStays(log: seq<Event>, j: nat)
    requires OpenedAt(log, j) && Within(log, j)
    ensures Summarise(log).duty.open || FallbackAfter(log, j) || CommitAfter(log, j)
    decreases |log|
  {
    hide Advance;
    var m := |log| - 1;
    AdvanceDuty(Summarise(log[..m]), log[m]);
    if j < m {
      OpenStays(log[..m], j);
      if FallbackAfter(log[..m], j) {
        var k :| j < k < m && log[..m][k].FallbackBegan?;
        assert log[k].FallbackBegan?;
      } else if CommitAfter(log[..m], j) {
        var k :| j < k < m && log[..m][k].Saved? && log[..m][k].route.active == S3Backend;
        assert log[k].Saved?;
      }
    }
  }

  /** A command that ended without being killed began the fallback its saved readings asked for. */
  lemma ReachedMeansFallback(log: seq<Event>, j: nat, i: nat)
    requires GoodLog(log) && j < i < |log| && log[i] == Ended && ReachedAt(log[..i], j) && Within(log[..i], j)
    ensures FallbackAfter(log[..i], j)
  {
    hide Summarise, FallbackAfter, ReachedAt, Within;
    GoodAt(log, i);
    DueStays(log[..i], j);
  }

  /** Since the guard read at g that the state file names S3. */
  predicate GuardedSince(log: seq<Event>, g: nat) {
    g < |log| && log[g].GuardBegan? && log[g].onS3 && Within(log, g)
  }

  /** A transaction marked as the guard's did read, since the lock was taken, that the state file names S3. */
  lemma {:induction false} GuardingWitness(log: seq<Event>) returns (g: nat)
    ensures Summarise(log).duty.guarding ==> GuardedSince(log, g)
  {
    hide Advance;
    g := 0;
    if |log| > 0 {
      var m := |log| - 1;
      AdvanceDuty(Summarise(log[..m]), log[m]);
      g := GuardingWitness(log[..m]);
      if log[m].GuardBegan? && log[m].onS3 { g := m; }
    }
  }

  lemma {:induction false} GuardingStays(log: seq<Event>, g: nat)
    requires GoodLog(log) && GuardedSince(log, g)
    ensures Summarise(log).duty.guarding && (Summarise(log).duty.fallback ==> FallbackAfter(log, g))
    decreases |log|
  {
    hide Advance;
    var m := |log| - 1;
    AdvanceDuty(Summarise(log[..m]), log[m]);
    if g < m {
      GuardingStays(log[..m], g);
      FallbackAppend(log, g);
    }
  }

  lemma FallbackAppend(log: seq<Event>, g: nat)
    requires |log| > 0
    ensures FallbackAfter(log[..|log| - 1], g) ==> FallbackAfter(log, g)
    ensures g < |log| - 1 && log[|log| - 1].FallbackBegan? ==> FallbackAfter(log, g)
  {
    var m := |log| - 1;
    if FallbackAfter(log[..m], g) {
      var k :| g < k < m && log[..m][k].FallbackBegan?;
      assert log[k].FallbackBegan?;
    }
  }

  lemma {:induction false} InactiveStays(log: seq<Event>, g: nat, j: nat)
    requires GoodLog(log) && GuardedSince(log, g) && g < j < |log| && log[j] == SawNotActive(S3)
    ensures Summarise(log).duty.due || FallbackAfter(log, g)
    decreases |log|
  {
    hide Advance, GoodEvent;
    var m := |log| - 1;
    AdvanceDuty(Summarise(log[..m]), log[m]);
    FallbackAppend(log, g);
    if j < m {
      InactiveStays(log[..m], g, j);
    } else {
      GuardingStays(log[..m], g);
    }
  }

  /** Once the guard has read that the state file names S3 and then seen S3 not active, its command does not end,
      unless killed, before a fallback began. */
  lemma InactiveMeansFallback(log: seq<Event>, g: nat, j: nat, i: nat)
    requires GoodLog(log) && g < j < i < |log| && log[i] == Ended
    requires GuardedSince(log[..i], g) && log[j] == SawNotActive(S3)
    ensures FallbackAfter(log[..i], g)
  {
    hide Summarise, FallbackAfter, GuardedSince;
    GoodAt(log, i);
    GoodPrefix(log, i);
    InactiveStays(log[..i], g, j);
  }

  lemma {:induction false} GoodPrefix(log: seq<Event>, i: nat)
    requires GoodLog(log) && i <= |log|
    ensures GoodLog(log[..i])
    decreases |log|
  {
    hide Summarise, GoodEvent;
    if i < |log| {
      assert log[..|log| - 1][..i] == log[..i];
      GoodPrefix(log[..|log| - 1], i);
    } else {
      assert log[..i] == log;
    }
  }

  /** A promotion recorded as in progress either commits S3 or begins a fallback before its command ends. */
  lemma OpenedMeansClosed(log: seq<Event>, j: nat, i: nat)
    requires GoodLog(log) && j < i < |log| && log[i] == Ended && OpenedAt(log[..i], j) && Within(log[..i], j)
    ensures FallbackAfter(log[..i], j) || CommitAfter(log[..i], j)
  {
    hide Summarise, FallbackAfter, CommitAfter, OpenedAt, Within;
    GoodAt(log, i);
    OpenStays(log[..i], j);
  }

  /** A fallback for unreadiness begins only in a transaction whose reading was not ready, with the run of
      recorded unready readings at the threshold or above. */
  lemma FallbackMeansReached(log: seq<Event>, i: nat)
    requires GoodLog(log) && i < |log| && log[i].FallbackBegan? && log[i].cause.Unready?
    ensures LastReading(log[..i]) == -1 && LastThreshold(log[..i]) == log[i].cause.threshold
    ensures TrailingUnready(Recorded(log[..i])) >= log[i].cause.threshold
  {
    hide Summarise, LastReading, LastThreshold, TrailingUnready, Recorded;
    GoodAt(log, i);
    RunCountsReadings(log[..i]);
    ReadingOfSummary(log[..i]);
    ThresholdOfSummary(log[..i]);
  }

  predicate IdleSince(log: seq<Event>, a: nat) {
    && a < |log| && log[a] == SawNotActive(S3)
    && forall k :: a < k < |log| ==> log[k] != Acquire && log[k] != Started(S3)
  }

  lemma {:induction false} IdleWitness(log: seq<Event>) returns (a: nat)
    ensures Summarise(log).s3Idle ==> IdleSince(log, a)
  {
    hide StageStep, DutyStep;
    a := 0;
    if |log| > 0 {
      var m := |log| - 1;
      a := IdleWitness(log[..m]);
      if log[m] == SawNotActive(S3) { a := m; }
    }
  }

  /** Validated stock is saved, and a fallback for an inactive unit begun, only after S3 was seen not active in
      the same transaction. */
  lemma IdleMeansSeen(log: seq<Event>, i: nat)
    requires GoodLog(log) && i < |log|
    requires log[i] == FallbackBegan(UnitNotActive)
             || (log[i].Saved? && log[i].route.active == StockBackend && log[i].route.validated)
    ensures exists a :: IdleSince(log[..i], a)
  {
    hide Summarise, IdleSince;
    GoodAt(log, i);
    var a := IdleWitness(log[..i]);
  }
}
