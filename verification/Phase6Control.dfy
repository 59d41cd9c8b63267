/** The Phase 6 promotion controller: promote, rollback, reconcile and guard as locked transactions over two
    services, a state file and a guard timer.

    Every command it runs may succeed, fail, time out, or never return because the controller is killed
    there; Killed is passed up past every handler, so a contract that holds for it holds at that step. What
    happens is appended to a history (Phase6Log).

    Environment: only this controller starts the units, and a unit that answers "not active" after a stop
    request is down and stays down until its next start. Without a stop request an answer proves nothing. */
module Phase6Control {
  import opened Phase6Log

  /** mayRun: running, or still able to come up from an earlier start. */
  datatype Unit = Unit(up: bool, mayRun: bool, stopAsked: bool)

  datatype StateFile = Missing | Unreadable | WrongSchema | Holds(route: Route)

  /** How a step ends: normally, with a RuntimeError, with any other exception, with the controller killed,
      or, for a whole command, because another one holds the lock. */
  datatype Outcome = Done | RuntimeFails | OtherFails | Killed | LockBusy

  /** What guard_once reports, and why it fell back. */
  datatype GuardAction = Noop | Healthy | Degraded(failures: int) | FellBack(cause: Cause) | Unfinished

  /** guard_once's decision on a state, a service state and a readiness probe. */
  function Decision(route: Route, active: bool, ready: bool, threshold: int): GuardAction {
    if route.active != S3Backend then Noop
    else if !active then FellBack(UnitNotActive)
    else if ready then Healthy
    else if route.guardFailures + 1 >= threshold then FellBack(Unready(threshold))
    else Degraded(route.guardFailures + 1)
  }

  function FallbackReason(cause: Cause): string {
    if cause == Requested then "manual_rollback" else "automatic_fallback"
  }

  predicate Failed(o: Outcome) {
    o == RuntimeFails || o == OtherFails
  }

  function DefaultRoute(reason: string): Route {
    Route(StockBackend, StockBackend, false, 0, reason)
  }

  /** load_state: anything that is not a state of this schema reads as the stock default. */
  function LoadState(file: StateFile): Route {
    match file
    case Missing => DefaultRoute("stock_default")
    case Unreadable => DefaultRoute("state_unreadable_fail_closed")
    case WrongSchema => DefaultRoute("state_schema_mismatch_fail_closed")
    case Holds(route) => route
  }

  class Controller {
    var stock: Unit
    var s3: Unit
    var locked: bool
    var file: StateFile
    ghost var log: seq<Event>

    /** The units can never both run, the history is good, and a file that names S3 stands on a promotion
        that was not undone and counts the current run of unready readings. */
    ghost predicate Inv()
      reads this
    {
      && (stock.up ==> stock.mayRun) && (s3.up ==> s3.mayRun)
      && !(stock.mayRun && s3.mayRun)
      && GoodLog(log)
      && (file.Holds? && file.route.active == S3Backend ==>
            Sum().committed && file.route.guardFailures == Sum().run)
    }

    ghost function Sum(): Summary
      reads this
    {
      Summarise(log)
    }

    ghost predicate MayRun(unit: UnitName)
      reads this
    {
      if unit == Stock then stock.mayRun else s3.mayRun
    }

    ghost predicate StopAsked(unit: UnitName)
      reads this
    {
      if unit == Stock then stock.stopAsked else s3.stopAsked
    }

    /** Nothing the controller relies on moved: the lock and the file, and no unit became able to run. */
    twostate predicate Steady()
      reads this
    {
      && locked == old(locked) && file == old(file)
      && (stock.mayRun ==> old(stock.mayRun)) && (s3.mayRun ==> old(s3.mayRun))
      && (old(stock.stopAsked) ==> stock.stopAsked) && (old(s3.stopAsked) ==> s3.stopAsked)
    }

    constructor ()
      ensures Inv() && !locked && log == []
    {
      stock, s3, locked, file, log := Unit(true, true, false), Unit(false, false, false), false, Missing, [];
    }

    // ------------------------------------------------------- environment

    /** Between any two steps a unit may go down, or up as long as nothing rules that out. */
    method Drift()
      requires Inv()
      modifies this`stock, this`s3
      ensures Inv() && Steady()
    {
      var stockUp: bool, s3Up: bool := *, *;
      stock := stock.(up := stockUp && stock.mayRun);
      s3 := s3.(up := s3Up && s3.mayRun);
    }

    ghost method Emit(e: Event)
      requires Inv() && GoodEvent(Sum(), e) && !e.Saved?
      requires file.Holds? && file.route.active == S3Backend ==> Advance(Sum(), e).committed && Advance(Sum(), e).run == Sum().run
      modifies this`log
      ensures Inv() && log == old(log) + [e] && Sum() == Advance(old(Sum()), e)
    {
      SummariseAppend(log, e);
      log := log + [e];
    }

    method Ends(check: bool) returns (o: Outcome)
      ensures o != LockBusy && (!check ==> o != RuntimeFails)
    {
      o := *;
      if o == LockBusy || (!check && o == RuntimeFails) { o := Done; }
    }

    // ---------------------------------------------------------- commands

    /** systemctl is-active. */
    method ServiceState(unit: UnitName) returns (o: Outcome, active: bool)
      requires Inv()
      modifies this
      ensures Inv() && Steady() && o != RuntimeFails && o != LockBusy
      ensures Sum() == if o == Done && !active then Advance(old(Sum()), SawNotActive(unit)) else old(Sum())
      ensures o == Done && !active && old(StopAsked(unit)) ==> !MayRun(unit)
    {
      hide GoodLog, Summarise;
      Drift();
      o := Ends(false);
      active := *;
      if o == Done && !active {
        Emit(SawNotActive(unit));
        if unit == Stock && stock.stopAsked {
          stock := Unit(false, false, true);
        } else if unit == S3 && s3.stopAsked {
          s3 := Unit(false, false, true);
        }
      }
    }

    static lemma AskingIsGood(s: Summary, unit: UnitName)
      ensures GoodEvent(s, AskedStop(unit))
      ensures Advance(s, AskedStop(unit)).committed == s.committed && Advance(s, AskedStop(unit)).run == s.run
    {
    }

    method MarkAsked(unit: UnitName)
      requires Inv()
      modifies this`stock, this`s3
      ensures Inv() && Steady() && StopAsked(unit) && Sum() == old(Sum())
    {
      if unit == Stock { stock := stock.(stopAsked := true); } else { s3 := s3.(stopAsked := true); }
    }

    method StopUnit(unit: UnitName, check: bool) returns (o: Outcome)
      requires Inv()
      modifies this
      ensures Inv() && Steady() && o != LockBusy && (!check ==> o != RuntimeFails)
      ensures o == Done || o == RuntimeFails ==> StopAsked(unit) && Sum() == Advance(old(Sum()), AskedStop(unit))
      ensures Sum() == old(Sum()) || Sum() == Advance(old(Sum()), AskedStop(unit))
    {
      hide GoodLog, Summarise, Advance, GoodEvent;
      Drift();
      o := Ends(check);
      AskingIsGood(Sum(), unit);
      var issued: bool := *;
      if o == Done || o == RuntimeFails || issued {
        MarkAsked(unit);
        Emit(AskedStop(unit));
      }
    }

    /** The one command that can bring a unit up: only after the other was properly shut down. */
    method StartUnit(unit: UnitName) returns (o: Outcome)
      requires Inv() && !MayRun(Other(unit)) && Sum().Stage(Other(unit)) == 4 && (unit == S3 ==> !Sum().committed)
      modifies this
      ensures Inv() && locked == old(locked) && file == old(file) && o != LockBusy
      ensures Sum() == Advance(old(Sum()), Started(unit))
    {
      hide GoodLog, Summarise;
      Emit(Started(unit));
      if unit == Stock { stock := Unit(false, true, false); } else { s3 := Unit(false, true, false); }
      Drift();
      o := Ends(true);
    }

    /** Any systemctl call whose result is ignored: guard units, reset-failed. */
    method Ignored() returns (o: Outcome)
      requires Inv()
      modifies this
      ensures Inv() && Steady() && Sum() == old(Sum()) && o != RuntimeFails && o != LockBusy
    {
      Drift();
      o := Ends(false);
    }

    // --------------------------------------------------------- wait loops

    method WaitServiceInactive(unit: UnitName) returns (o: Outcome)
      requires Inv() && StopAsked(unit)
      modifies this
      ensures Inv() && Steady() && o != LockBusy
      ensures o == Done ==> !MayRun(unit) && Sum() == Advance(old(Sum()), SawNotActive(unit))
      ensures o != Done ==> Sum() == old(Sum())
    {
      var polls: nat := *;
      while polls > 0
        invariant Inv() && Steady() && StopAsked(unit) && Sum() == old(Sum())
      {
        var active;
        o, active := ServiceState(unit);
        if o != Done || !active { return; }
        polls := polls - 1;
      }
      o := RuntimeFails;
    }

    method WaitVramClean() returns (o: Outcome)
      requires Inv()
      modifies this
      ensures Inv() && Steady() && o != LockBusy
      ensures o == Done ==> Sum() == Advance(old(Sum()), SawVramClean)
      ensures o != Done ==> Sum() == old(Sum())
    {
      o := WaitFor(SawVramClean);
    }

    method WaitPortFree() returns (o: Outcome)
      requires Inv()
      modifies this
      ensures Inv() && Steady() && o != LockBusy
      ensures o == Done ==> Sum() == Advance(old(Sum()), SawPortFree)
      ensures o != Done ==> Sum() == old(Sum())
    {
      o := WaitFor(SawPortFree);
    }

    /** wait_for: poll until the predicate is seen to hold, or raise RuntimeError at the deadline. */
    method WaitFor(seen: Event) returns (o: Outcome)
      requires Inv() && (seen == SawVramClean || seen == SawPortFree || seen == SawTimerActive)
      modifies this
      ensures Inv() && Steady() && o != LockBusy
      ensures o == Done ==> Sum() == Advance(old(Sum()), seen)
      ensures o != Done ==> Sum() == old(Sum())
    {
      var polls: nat := *;
      while polls > 0
        invariant Inv() && Steady() && Sum() == old(Sum())
      {
        o := Ignored();
        if o != Done { return; }
        var holds: bool := *;
        if holds {
          Emit(seen);
          return;
        }
        polls := polls - 1;
      }
      o := RuntimeFails;
    }

    /** A failed probe shows at most that the unit is not active. */
    static predicate Unproven(unit: UnitName, before: Summary, after: Summary) {
      after == before || after == Advance(before, SawNotActive(unit))
    }

    /** verify_backend: the unit is active and the expected model is served. */
    method VerifyBackend(unit: UnitName) returns (o: Outcome, pass: bool)
      requires Inv() && Sum().Stage(unit) == 0
      modifies this
      ensures Inv() && Steady() && o != RuntimeFails && o != LockBusy
      ensures pass ==> o == Done
      ensures if pass then Sum() == Advance(old(Sum()), Verified(unit)) else Unproven(unit, old(Sum()), Sum())
    {
      hide GoodLog, Summarise;
      pass := false;
      var active;
      o, active := ServiceState(unit);
      if o != Done { return; }
      var ready: bool := *;
      o := Ignored();
      if o == OtherFails { o := Done; ready := false; }   // model_ready swallows every exception
      pass := o == Done && active && ready;
      if pass { Emit(Verified(unit)); }
    }

    static lemma VerifyAgain(unit: UnitName, before: Summary, after: Summary)
      requires before.Stage(unit) == 0 && (unit == S3 ==> !before.duty.guarding)
      requires Unproven(unit, before, after) || after == Advance(before, Verified(unit))
      ensures Advance(after, Verified(unit)) == Advance(before, Verified(unit))
    {
    }

    static lemma UnprovenTwice(unit: UnitName, before: Summary, after: Summary)
      requires before.Stage(unit) == 0 && Unproven(unit, before, after)
      ensures after.Stage(unit) == 0
      ensures after != before ==> Advance(after, SawNotActive(unit)) == after
    {
    }

    static lemma StageKept(unit: UnitName, s: Summary)
      ensures Advance(s, Verified(unit)).Stage(unit) == s.Stage(unit)
    {
    }

    /** A probe passed; the last, unchecked one may have failed since. */
    static predicate Probed(unit: UnitName, before: Summary, after: Summary) {
      Unproven(unit, Advance(before, Verified(unit)), after)
    }

    /** wait_backend_ready: poll until a probe passes, then probe once more and hand that one back unchecked. */
    method WaitBackendReady(unit: UnitName) returns (o: Outcome)
      requires Inv() && Sum().Stage(unit) == 0 && (unit == S3 ==> !Sum().duty.guarding)
      modifies this
      ensures Inv() && Steady() && o != LockBusy
      ensures o == Done ==> Probed(unit, old(Sum()), Sum())
      ensures o == RuntimeFails ==> Unproven(unit, old(Sum()), Sum())
      ensures Unproven(unit, old(Sum()), Sum()) || Probed(unit, old(Sum()), Sum())
    {
      hide GoodLog, Summarise, Advance, GoodEvent;
      var polls: nat := *;
      var pass := false;
      while polls > 0 && !pass
        invariant Inv() && Steady() && Sum().Stage(unit) == 0
        invariant if pass then Sum() == Advance(old(Sum()), Verified(unit)) else Unproven(unit, old(Sum()), Sum())
      {
        ghost var before := Sum();
        UnprovenTwice(unit, old(Sum()), before);
        o, pass := VerifyBackend(unit);
        if !pass { UnprovenTwice(unit, old(Sum()), Sum()); }
        if pass { VerifyAgain(unit, old(Sum()), before); StageKept(unit, old(Sum())); }
        if o != Done { return; }
        polls := polls - 1;
      }
      if !pass { o := RuntimeFails; return; }
      VerifyAgain(unit, old(Sum()), Sum());
      o, pass := VerifyBackend(unit);
    }

    // ------------------------------------------------------- state and guard

    /** save_state writes a temporary file and replaces the state file with it: all or nothing. */
    method SaveState(route: Route) returns (o: Outcome)
      requires Inv() && GoodEvent(Sum(), Saved(route))
      requires route.active == S3Backend ==> route.guardFailures == Advance(Sum(), Saved(route)).run
      modifies this
      ensures Inv() && locked == old(locked) && stock == old(stock) && s3 == old(s3)
      ensures o != RuntimeFails && o != LockBusy
      ensures o == Done ==> file == Holds(route) && Sum() == Advance(old(Sum()), Saved(route))
      ensures o == OtherFails ==> file == old(file) && Sum() == old(Sum())
      ensures Sum() == old(Sum()) || Sum() == Advance(old(Sum()), Saved(route))
      ensures file == old(file) || file == Holds(route)
    {
      o := Ends(false);
      var replaced: bool := *;
      if o == Done || (o == Killed && replaced) {
        SummariseAppend(log, Saved(route));
        file := Holds(route);
        log := log + [Saved(route)];
      }
    }

    method StopGuardScheduler() returns (o: Outcome)
      requires Inv()
      modifies this
      ensures Inv() && Steady() && o != RuntimeFails && o != LockBusy
      ensures Sum() == if o == Done then Advance(old(Sum()), GuardStopped) else old(Sum())
    {
      hide GoodLog, Summarise;
      for i := 0 to 4
        invariant Inv() && Steady() && Sum() == old(Sum())
      {
        o := Ignored();
        if o != Done { return; }
      }
      Emit(GuardStopped);
      o := Done;
    }

    method StartGuardScheduler() returns (o: Outcome)
      requires Inv()
      modifies this
      ensures Inv() && Steady() && o != LockBusy
      ensures o == Done ==> Sum() == Advance(Advance(old(Sum()), GuardStopped), SawTimerActive)
      ensures o != Done ==> Sum() == old(Sum()) || Sum() == Advance(old(Sum()), GuardStopped)
    {
      hide GoodLog, Summarise;
      o := StopGuardScheduler();
      if o != Done { return; }
      Drift();
      o := Ends(true);
      if o != Done { return; }
      o := WaitFor(SawTimerActive);
    }

    // --------------------------------------------------------- transactions

    /** The shutdown both directions share: stop, seen not active, VRAM clean, port free. */
    method ShutDownUnit(unit: UnitName, check: bool) returns (o: Outcome)
      requires Inv() && locked && (unit == S3 ==> Sum().duty.fallback)
      modifies this
      ensures Inv() && locked && file == old(file) && o != LockBusy
      ensures Sum().duty == old(Sum().duty) && Sum().guardStopped == old(Sum().guardStopped)
      ensures o == RuntimeFails ==> Sum().Stage(unit) >= 1
      ensures o == Done ==> !MayRun(unit) && Sum().Stage(unit) == 4 && (unit == S3 ==> Sum().s3Idle)
                            && Sum().reading == old(Sum().reading) && Sum().committed == old(Sum().committed)
    {
      hide GoodLog, Summarise;
      o := StopUnit(unit, check);
      if o != Done { return; }
      o := WaitServiceInactive(unit);
      if o != Done { return; }
      o := WaitVramClean();
      if o != Done { return; }
      o := WaitPortFree();
    }

    /** Unless killed, it has begun: nothing is owed any more. It gives up with a RuntimeError only once the
        guard was told to stop and S3 asked to stop, and ends well only with stock started and probed. */
    method FallbackLocked(cause: Cause) returns (o: Outcome)
      requires Inv() && locked && Founded(Sum(), cause)
      modifies this
      ensures Inv() && locked && o != LockBusy
      ensures o != Killed ==> Sum().duty.fallback && !Sum().duty.due && !Sum().duty.open
      ensures Sum().duty.guarding == old(Sum()).duty.guarding
      ensures o == RuntimeFails ==> Sum().guardStopped && (Sum().Stage(S3) >= 1 || Sum().duty.started)
      ensures o == Done ==> file == Holds(Route(StockBackend, StockBackend, true, 0, FallbackReason(cause)))
                            && Sum().duty.started && Sum().stockVerified && Sum().guardStopped
      ensures file == old(file) || (file.Holds? && file.route.active != S3Backend)
    {
      hide GoodLog, Summarise;
      Emit(FallbackBegan(cause));
      o := StopGuardScheduler();
      if o != Done { return; }
      o := ShutDownUnit(S3, false);
      if o != Done { return; }
      o := StartUnit(Stock);
      if o != Done { return; }
      o := FallbackProbe(cause);
    }

    /** The readiness wait after stock was started, and the state saved for either answer. */
    method FallbackProbe(cause: Cause) returns (o: Outcome)
      requires Inv() && locked && Sum().Stage(Stock) == 0 && Sum().guardStopped && Sum().s3Idle
      requires Sum().duty.fallback && Sum().duty.started && !Sum().duty.due && !Sum().duty.open
      modifies this
      ensures Inv() && locked && o != LockBusy
      ensures o != Killed ==> Sum().duty.fallback && Sum().duty.started && !Sum().duty.due && !Sum().duty.open
      ensures Sum().duty.guarding == old(Sum()).duty.guarding
      ensures o == RuntimeFails ==> Sum().guardStopped
      ensures o == Done ==> file == Holds(Route(StockBackend, StockBackend, true, 0, FallbackReason(cause)))
                            && Sum().stockVerified && Sum().guardStopped
      ensures file == old(file) || (file.Holds? && file.route.active != S3Backend)
    {
      hide GoodLog, Summarise, Advance, GoodEvent;
      StockProbe(Sum());
      ghost var before := Sum();
      o := WaitBackendReady(Stock);
      StockProbe(before.(stockVerified := true));
      if o == RuntimeFails {
        o := FallbackFailed();
        return;
      }
      if o != Done { return; }
      var route := Route(StockBackend, StockBackend, true, 0, FallbackReason(cause));
      SavingStock(Sum(), route);
      o := SaveState(route);
    }

    static lemma SavingStock(s: Summary, route: Route)
      requires route.active == StockBackend && route.desired == StockBackend
      requires s.stockVerified && s.guardStopped && s.s3Idle && (s.duty.fallback ==> s.duty.started)
      ensures GoodEvent(s, Saved(route))
      ensures var t := Advance(s, Saved(route));
              t.duty == s.duty && t.guardStopped == s.guardStopped && t.stockVerified == s.stockVerified && t.s3Idle == s.s3Idle
    {
    }

    /** A probe of stock, after its start, shows only whether it passed. */
    static lemma StockProbe(s: Summary)
      requires s.Stage(Stock) == 0
      ensures Advance(s, SawNotActive(Stock)) == s && Advance(s, Verified(Stock)) == s.(stockVerified := true)
    {
    }

    static lemma SavingUnknown(s: Summary, route: Route)
      requires route.active != S3Backend && route.desired != S3Backend && !route.validated
      ensures GoodEvent(s, Saved(route))
      ensures Advance(s, Saved(route)).duty == s.duty && Advance(s, Saved(route)).guardStopped == s.guardStopped
    {
    }

    /** The readiness wait failed: probe once more for the record, save stock as unknown, raise. */
    method FallbackFailed() returns (o: Outcome)
      requires Inv() && locked && Sum().Stage(Stock) == 0 && Sum().guardStopped
      requires Sum().duty.fallback && Sum().duty.started && !Sum().duty.due && !Sum().duty.open
      modifies this
      ensures Inv() && locked && o != LockBusy && o != Done
      ensures Sum().duty == old(Sum().duty) && Sum().guardStopped
      ensures file == old(file) || (file.Holds? && file.route.active != S3Backend)
    {
      hide GoodLog, Summarise, Advance, GoodEvent;
      var pass;
      ghost var before := Sum();
      o, pass := VerifyBackend(Stock);
      StockProbe(before);
      if o != Done { return; }
      var route := Route(StockBackend, UnknownBackend, false, 0, "fallback_failed");
      SavingUnknown(Sum(), route);
      o := SaveState(route);
      if o == Done { o := RuntimeFails; }
    }

    /** exclusive_lock: a non-blocking flock; while it is held, any other command ends here. */
    method Lock() returns (o: Outcome)
      requires Inv()
      modifies this`locked, this`log
      ensures Inv() && locked
      ensures o == if old(locked) then LockBusy else Done
      ensures old(locked) ==> log == old(log)
      ensures !old(locked) ==> Sum() == Advance(old(Sum()), Acquire)
    {
      if locked { return LockBusy; }
      locked := true;
      Emit(Acquire);
      o := Done;
    }

    /** The end of the with block: the lock goes either way, and a command that was not killed owes nothing. */
    method Release(o: Outcome)
      requires Inv() && (o != Killed ==> !Sum().duty.due && !Sum().duty.open)
      modifies this`locked, this`log
      ensures Inv() && !locked
      ensures Sum() == if o == Killed then old(Sum()) else Advance(old(Sum()), Ended)
      ensures o != Killed ==> |log| > 0 && log[|log| - 1] == Ended
    {
      if o != Killed { Emit(Ended); }
      locked := false;
    }

    method Promote() returns (o: Outcome)
      requires Inv()
      modifies this
      ensures Inv()
      ensures old(locked) ==> o == LockBusy && locked && stock == old(stock) && s3 == old(s3) && file == old(file) && log == old(log)
      ensures !old(locked) ==> o != LockBusy && !locked
      ensures !old(locked) && o != Killed ==> |log| > 0 && log[|log| - 1] == Ended
      ensures o == Done ==> file == Holds(Route(S3Backend, S3Backend, true, 0, "promotion_validated"))
      ensures Failed(o) ==>
                file == old(file) || (Sum().duty.fallback && file.Holds? && file.route.active != S3Backend)
    {
      hide GoodLog, Summarise;
      o := Lock();
      if o == LockBusy { return; }
      o := PromoteLocked();
      Release(o);
    }

    method PromoteLocked() returns (o: Outcome)
      requires Inv() && locked && Sum().Stage(Stock) == 0 && Sum().reading == 0 && Sum().duty == NONE
      modifies this
      ensures Inv() && locked && o != LockBusy
      ensures o != Killed ==> !Sum().duty.due && !Sum().duty.open
      ensures Failed(o) && !Sum().duty.fallback ==> file == old(file)
      ensures Failed(o) ==> file == old(file) || (file.Holds? && file.route.active != S3Backend)
      ensures o == Done ==> file == Holds(Route(S3Backend, S3Backend, true, 0, "promotion_validated"))
    {
      hide GoodLog, Summarise, Advance, GoodEvent;
      StockProbe(Sum());
      var pass;
      o, pass := VerifyBackend(Stock);
      if o != Done { return; }
      if !pass { return RuntimeFails; }
      var route := LoadState(file).(desired := S3Backend, active := StockBackend, validated := false,
                                    reason := "promotion_in_progress", guardFailures := 0);
      SavingInProgress(Sum(), route);
      o := SaveState(route);
      if o != Done { return; }
      o := PromotionSteps();
      if Failed(o) {
        var fallback := FallbackLocked(PromotionFailed);
        if fallback != Done { o := fallback; }
      }
    }

    static lemma SavingInProgress(s: Summary, route: Route)
      requires route.active == StockBackend && route.desired == S3Backend && !route.validated
      ensures GoodEvent(s, Saved(route))
      ensures var t := Advance(s, Saved(route));
              t.duty == s.duty.(open := true) && !t.committed && t.reading == s.reading
    {
    }

    /** The try body of promote. */
    method PromotionSteps() returns (o: Outcome)
      requires Inv() && locked && Sum().reading == 0 && !Sum().committed
      requires Sum().duty.open && !Sum().duty.due && !Sum().duty.guarding
      modifies this
      ensures Inv() && o != LockBusy && locked
      ensures Failed(o) ==> Sum().duty.open
      ensures o == Done ==> !Sum().duty.due && !Sum().duty.open
      ensures Failed(o) ==> file == old(file)
      ensures o == Done ==> file == Holds(Route(S3Backend, S3Backend, true, 0, "promotion_validated"))
    {
      hide GoodLog, Summarise;
      o := ShutDownUnit(Stock, true);
      if o != Done { return; }
      o := StartUnit(S3);
      if o != Done { return; }
      var pass;
      o, pass := VerifyBackend(S3);
      if o != Done { return; }
      if !pass { return RuntimeFails; }
      o := StartGuardScheduler();
      if o != Done { return; }
      o := SaveState(Route(S3Backend, S3Backend, true, 0, "promotion_validated"));
    }

    method Rollback() returns (o: Outcome)
      requires Inv()
      modifies this
      ensures Inv()
      ensures old(locked) ==> o == LockBusy && locked && stock == old(stock) && s3 == old(s3) && file == old(file) && log == old(log)
      ensures !old(locked) ==> o != LockBusy && !locked
      ensures !old(locked) && o != Killed ==> |log| > 0 && log[|log| - 1] == Ended
      ensures o == Done ==> file == Holds(Route(StockBackend, StockBackend, true, 0, "manual_rollback"))
    {
      hide GoodLog, Summarise;
      o := Lock();
      if o == LockBusy { return; }
      o := FallbackLocked(Requested);
      Release(o);
    }

    method ReconcileStockState() returns (o: Outcome)
      requires Inv()
      modifies this
      ensures Inv()
      ensures old(locked) ==> o == LockBusy && locked && stock == old(stock) && s3 == old(s3) && file == old(file) && log == old(log)
      ensures !old(locked) ==> o != LockBusy && !locked
      ensures !old(locked) && o != Killed ==> |log| > 0 && log[|log| - 1] == Ended
      ensures o == Done ==>
                file == Holds(Route(StockBackend, StockBackend, true, 0, "stock_reconciled_after_interrupted_promotion"))
      ensures o == Done ==> Sum().s3Idle && Sum().stockVerified
    {
      hide GoodLog, Summarise;
      o := Lock();
      if o == LockBusy { return; }
      o := ReconcileLocked();
      Release(o);
    }

    method ReconcileLocked() returns (o: Outcome)
      requires Inv() && locked && Sum().Stage(Stock) == 0 && Sum().duty == NONE
      modifies this
      ensures Inv() && locked && o != LockBusy
      ensures o != Killed ==> !Sum().duty.due && !Sum().duty.open
      ensures o == Done ==> Sum().s3Idle && Sum().stockVerified
      ensures o == Done ==>
                file == Holds(Route(StockBackend, StockBackend, true, 0, "stock_reconciled_after_interrupted_promotion"))
    {
      hide GoodLog, Summarise;
      var active;
      o, active := ServiceState(S3);
      if o != Done { return; }
      if active { return RuntimeFails; }
      o := WaitBackendReady(Stock);
      if o != Done { return; }
      o := RecordReconciled();
    }

    /** The guard told to stop, S3's failed state cleared, and stock recorded. */
    method RecordReconciled() returns (o: Outcome)
      requires Inv() && locked && Sum().stockVerified && Sum().s3Idle && Sum().duty == NONE
      modifies this
      ensures Inv() && locked && o != LockBusy
      ensures o != Killed ==> !Sum().duty.due && !Sum().duty.open
      ensures o == Done ==> Sum().s3Idle && Sum().stockVerified
      ensures o == Done ==>
                file == Holds(Route(StockBackend, StockBackend, true, 0, "stock_reconciled_after_interrupted_promotion"))
    {
      hide GoodLog, Summarise;
      o := StopGuardScheduler();
      if o != Done { return; }
      o := Ignored();
      if o != Done { return; }
      o := SaveState(Route(StockBackend, StockBackend, true, 0, "stock_reconciled_after_interrupted_promotion"));
    }

    method GuardOnce(failureThreshold: int) returns (o: Outcome, action: GuardAction, active: bool, ready: bool)
      requires Inv()
      modifies this
      ensures Inv()
      ensures old(locked) ==> o == LockBusy && locked && stock == old(stock) && s3 == old(s3) && file == old(file) && log == old(log)
      ensures !old(locked) ==> o != LockBusy && !locked
      ensures !old(locked) && o != Killed ==> |log| > 0 && log[|log| - 1] == Ended
      ensures !old(locked) ==> Sum().duty.guarding == (LoadState(old(file)).active == S3Backend)
      ensures o == Done ==> action == Decision(LoadState(old(file)), active, ready, failureThreshold)
      ensures o == Done ==> Decided(LoadState(old(file)), active, ready, failureThreshold, old(file))
    {
      hide GoodLog, Summarise;
      action, active, ready := Unfinished, false, false;
      o := Lock();
      if o == LockBusy { return; }
      o, action, active, ready := GuardLocked(failureThreshold);
      Release(o);
    }

    /** What a guard that returns normally leaves in the state file: nothing new unless the file named S3; then
        validated stock if S3 was not active, no failures if the probe passed, and otherwise one failure more,
        or validated stock once that reaches the threshold. */
    predicate Decided(route: Route, active: bool, ready: bool, threshold: int, before: StateFile)
      reads this
    {
      && (route.active != S3Backend ==> file == before)
      && (route.active == S3Backend && !active ==>
            file == Holds(Route(StockBackend, StockBackend, true, 0, "automatic_fallback")))
      && (route.active == S3Backend && active && ready ==> file == Holds(route.(guardFailures := 0)))
      && (route.active == S3Backend && active && !ready && route.guardFailures + 1 < threshold ==>
            file == Holds(route.(guardFailures := route.guardFailures + 1)))
      && (route.active == S3Backend && active && !ready && route.guardFailures + 1 >= threshold ==>
            file == Holds(Route(StockBackend, StockBackend, true, 0, "automatic_fallback")))
    }

    method GuardLocked(threshold: int) returns (o: Outcome, action: GuardAction, active: bool, ready: bool)
      requires Inv() && locked && Sum().Stage(S3) == 0 && Sum().duty == NONE
      modifies this
      ensures Inv() && locked && o != LockBusy
      ensures o != Killed ==> !Sum().duty.due && !Sum().duty.open
      ensures Sum().duty.guarding == (LoadState(old(file)).active == S3Backend)
      ensures o == Done ==> action == Decision(LoadState(old(file)), active, ready, threshold)
      ensures o == Done ==> Decided(LoadState(old(file)), active, ready, threshold, old(file))
    {
      hide GoodLog, Summarise;
      action, active, ready := Unfinished, false, false;
      var route := LoadState(file);
      Emit(GuardBegan(route.active == S3Backend, threshold));
      if route.active != S3Backend { o := Done; action := Noop; return; }
      o, action, active, ready := GuardS3(threshold, route);
    }

    /** The guard once the state file has named S3. */
    method GuardS3(threshold: int, route: Route) returns (o: Outcome, action: GuardAction, active: bool, ready: bool)
      requires Inv() && locked && Sum().Stage(S3) == 0
      requires Sum().duty == NONE.(guarding := true, threshold := threshold)
      requires route.active == S3Backend && Sum().committed && route.guardFailures == Sum().run
      modifies this
      ensures Inv() && locked && o != LockBusy
      ensures o != Killed ==> !Sum().duty.due && !Sum().duty.open
      ensures Sum().duty.guarding
      ensures o == Done ==> action == Decision(route, active, ready, threshold)
      ensures o == Done ==> Decided(route, active, ready, threshold, old(file))
    {
      hide GoodLog, Summarise;
      action, active, ready := Unfinished, false, false;
      o, active := ServiceState(S3);
      if o != Done { return; }
      o, ready := GuardProbe();
      if o != Done { return; }
      if !active {
        o := FallbackLocked(UnitNotActive);
        action := FellBack(UnitNotActive);
        return;
      }
      o, action := RecordReading(threshold, route, ready);
    }

    /** model_ready, as the guard asks it; every exception reads as not ready. */
    method GuardProbe() returns (o: Outcome, ready: bool)
      requires Inv()
      modifies this
      ensures Inv() && Steady() && o != RuntimeFails && o != OtherFails && o != LockBusy
      ensures Sum() == if o == Done then Advance(old(Sum()), GuardReading(ready)) else old(Sum())
    {
      hide GoodLog, Summarise;
      ready := *;
      o := Ignored();
      if o == OtherFails { o := Done; ready := false; }
      if o == Done { Emit(GuardReading(ready)); }
    }

    /** The guard's bookkeeping once S3 is active: count or clear, save, and give up at the threshold. */
    method RecordReading(threshold: int, route: Route, ready: bool) returns (o: Outcome, action: GuardAction)
      requires Inv() && locked && route.active == S3Backend && Sum().committed && route.guardFailures == Sum().run
      requires Sum().reading == (if ready then 1 else -1) && Sum().duty == NONE.(guarding := true, threshold := threshold)
      modifies this
      ensures Inv() && locked && o != LockBusy
      ensures o != Killed ==> !Sum().duty.due && !Sum().duty.open
      ensures o == Done ==> action == Decision(route, true, ready, threshold)
      ensures o == Done ==> Decided(route, true, ready, threshold, old(file))
      ensures Sum().duty.guarding
    {
      hide GoodLog, Summarise;
      action := Unfinished;
      if ready {
        o := SaveState(route.(guardFailures := 0));
        action := Healthy;
        return;
      }
      var failures := route.guardFailures + 1;
      o := SaveState(route.(guardFailures := failures));
      if o != Done { return; }
      if failures >= threshold {
        o := FallbackLocked(Unready(threshold));
        action := FellBack(Unready(threshold));
        return;
      }
      action := Degraded(failures);
    }

    // -------------------------------------------------------------- histories

    /** Something else damages or removes the state file. */
    method LoseStateFile()
      requires Inv()
      modifies this`file
      ensures Inv() && !file.Holds?
    {
      file := *;
      if file.Holds? { file := Unreadable; }
    }

    /** Any history of commands, each ending in any way at any step, with the units drifting and the state
        file being lost in between: the invariant holds throughout. */
    method AnyHistory(commands: nat)
      requires Inv()
      modifies this
      ensures Inv() && !(stock.up && s3.up)
    {
      for i := 0 to commands
        invariant Inv()
      {
        var choice: nat, threshold: int := *, *;
        var o, action, active, ready;
        if choice == 0 { o := Promote(); }
        else if choice == 1 { o := Rollback(); }
        else if choice == 2 { o := ReconcileStockState(); }
        else if choice == 3 { o, action, active, ready := GuardOnce(threshold); }
        else if choice == 4 { Drift(); }
        else { LoseStateFile(); }
      }
    }
  }

  /** At i a command ended whose guard had read at g that the state file names S3 and seen at j S3 not active. */
  predicate Inactive(log: seq<Event>, g: nat, j: nat, i: nat) {
    g < j < i < |log| && log[i] == Ended && GuardedSince(log[..i], g) && log[j] == SawNotActive(S3)
  }

  predicate SaysStock(route: Route) {
    route.active == StockBackend && route.validated
  }

  /** What the invariant says in terms of the history alone. */
  lemma InvariantMeans(c: Controller)
    requires c.Inv()
    ensures !(c.stock.up && c.s3.up)
    ensures forall i :: 0 <= i < |c.log| && c.log[i].Started? ==>
              exists a, b, k, d :: ShutDown(c.log[..i], Other(c.log[i].unit), a, b, k, d)
    ensures c.file.Holds? && c.file.route.active == S3Backend ==>
              (exists v, t, i :: Promotion(c.log, v, t, i))
              && c.file.route.guardFailures == TrailingUnready(Recorded(c.log))
    ensures forall i :: 0 <= i < |c.log| && c.log[i].Saved? && SaysStock(c.log[i].route) ==>
              (exists v, g :: ProbedAndQuiet(c.log[..i], v, g)) && (exists a :: IdleSince(c.log[..i], a))
    ensures forall i :: 0 <= i < |c.log| && c.log[i].FallbackBegan? && c.log[i].cause.Unready? ==>
              LastReading(c.log[..i]) == -1 && TrailingUnready(Recorded(c.log[..i])) >= c.log[i].cause.threshold
    ensures forall i: nat, j: nat, g: nat :: Inactive(c.log, g, j, i) ==> FallbackAfter(c.log[..i], g)
    ensures forall i, j: nat :: j < i < |c.log| && c.log[i] == Ended && Within(c.log[..i], j) && ReachedAt(c.log[..i], j) ==>
              FallbackAfter(c.log[..i], j)
    ensures forall i, j: nat :: j < i < |c.log| && c.log[i] == Ended && Within(c.log[..i], j) && OpenedAt(c.log[..i], j) ==>
              FallbackAfter(c.log[..i], j) || CommitAfter(c.log[..i], j)
  {
    hide GoodLog, Summarise, Promotion, ShutDown, Recorded, TrailingUnready, ProbedAndQuiet, IdleSince,
         ReachedAt, OpenedAt, Within, FallbackAfter, CommitAfter, GuardedSince;
    StartsMean(c.log);
    SavesMean(c);
    FallbacksMean(c.log);
  }

  lemma StartsMean(log: seq<Event>)
    requires GoodLog(log)
    ensures forall i :: 0 <= i < |log| && log[i].Started? ==>
              exists a, b, k, d :: ShutDown(log[..i], Other(log[i].unit), a, b, k, d)
  {
    hide GoodLog, ShutDown;
    forall i | 0 <= i < |log| && log[i].Started?
      ensures exists a, b, k, d :: ShutDown(log[..i], Other(log[i].unit), a, b, k, d)
    {
      StartsFollowShutdown(log, i);
    }
  }

  lemma SavesMean(c: Controller)
    requires c.Inv()
    ensures c.file.Holds? && c.file.route.active == S3Backend ==>
              (exists v, t, i :: Promotion(c.log, v, t, i))
              && c.file.route.guardFailures == TrailingUnready(Recorded(c.log))
    ensures forall i :: 0 <= i < |c.log| && c.log[i].Saved? && SaysStock(c.log[i].route) ==>
              (exists v, g :: ProbedAndQuiet(c.log[..i], v, g)) && (exists a :: IdleSince(c.log[..i], a))
  {
    hide GoodLog, Summarise, Promotion, Recorded, TrailingUnready, ProbedAndQuiet, IdleSince;
    if c.file.Holds? && c.file.route.active == S3Backend {
      CommittedMeansPromoted(c.log);
      RunCountsReadings(c.log);
    }
    forall i | 0 <= i < |c.log| && c.log[i].Saved? && SaysStock(c.log[i].route)
      ensures (exists v, g :: ProbedAndQuiet(c.log[..i], v, g)) && (exists a :: IdleSince(c.log[..i], a))
    {
      StockMeansProbed(c.log, i);
      IdleMeansSeen(c.log, i);
    }
  }

  /** Both directions of the guard's promise, and the promotion's: a fallback for unreadiness has its reason,
      and a command that was not killed does not end without the fallback it owes. */
  lemma FallbacksMean(log: seq<Event>)
    requires GoodLog(log)
    ensures forall i :: 0 <= i < |log| && log[i].FallbackBegan? && log[i].cause.Unready? ==>
              LastReading(log[..i]) == -1 && TrailingUnready(Recorded(log[..i])) >= log[i].cause.threshold
    ensures forall i: nat, j: nat, g: nat :: Inactive(log, g, j, i) ==> FallbackAfter(log[..i], g)
    ensures forall i, j: nat :: j < i < |log| && log[i] == Ended && Within(log[..i], j) && ReachedAt(log[..i], j) ==>
              FallbackAfter(log[..i], j)
    ensures forall i, j: nat :: j < i < |log| && log[i] == Ended && Within(log[..i], j) && OpenedAt(log[..i], j) ==>
              FallbackAfter(log[..i], j) || CommitAfter(log[..i], j)
  {
    hide GoodLog, LastReading, TrailingUnready, Recorded, ReachedAt, OpenedAt, Within, FallbackAfter, CommitAfter, GuardedSince;
    forall i: nat, j: nat, g: nat | Inactive(log, g, j, i)
      ensures FallbackAfter(log[..i], g)
    {
      InactiveMeansFallback(log, g, j, i);
    }
    forall i | 0 <= i < |log| && log[i].FallbackBegan? && log[i].cause.Unready?
      ensures LastReading(log[..i]) == -1 && TrailingUnready(Recorded(log[..i])) >= log[i].cause.threshold
    {
      FallbackMeansReached(log, i);
    }
    forall i, j: nat | j < i < |log| && log[i] == Ended && Within(log[..i], j) && ReachedAt(log[..i], j)
      ensures FallbackAfter(log[..i], j)
    {
      ReachedMeansFallback(log, j, i);
    }
    forall i, j: nat | j < i < |log| && log[i] == Ended && Within(log[..i], j) && OpenedAt(log[..i], j)
      ensures FallbackAfter(log[..i], j) || CommitAfter(log[..i], j)
    {
      OpenedMeansClosed(log, j, i);
    }
  }
}
