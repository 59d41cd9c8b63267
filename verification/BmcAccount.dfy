/** The temporary BMC account: minted in one reusable slot of the user table, used for one audit, revoked and
    read back. Every ipmitool command may fail, and a failed one may or may not have taken effect. */
module BmcAccount {
  import opened Prelude

  const SENTINEL := "hlaudit"
  const ENABLED := "enabled"
  const DISABLED := "disabled"

  datatype User = User(name: string, enabled: bool, access: bool, admin: bool)

  /** What was asked of the BMC about the account, and how it answered. */
  datatype Exchange =
    | Named(slot: nat, ok: bool)
    | PasswordSet(slot: nat, ok: bool)
    | Granted(slot: nat, ok: bool)
    | Switched(slot: nat, on: bool, ok: bool)
    | AccessSet(slot: nat, on: bool, priv: nat, ok: bool)
    | Status(slot: nat, status: Option<string>)

  ghost predicate AtMostOneSentinel(users: map<nat, User>) {
    forall a, b :: a in users && b in users && users[a].name == SENTINEL && users[b].name == SENTINEL ==> a == b
  }

  /** Slots that carry somebody else's name are as they were. */
  ghost predicate OthersUntouched(before: map<nat, User>, after: map<nat, User>) {
    && before.Keys == after.Keys
    && forall s :: s in before && before[s].name != "" && before[s].name != SENTINEL ==> after[s] == before[s]
  }

  /** Only this slot changed. */
  ghost predicate OnlySlot(before: map<nat, User>, after: map<nat, User>, slot: nat) {
    && slot in before && before.Keys == after.Keys
    && forall t :: t in before && t != slot ==> after[t] == before[t]
  }

  function Names(users: map<nat, User>): map<nat, string> {
    map s | s in users :: users[s].name
  }

  class Bmc {
    var users: map<nat, User>
    ghost var trace: seq<Exchange>
    /** A BMC on which commands work: setaccess only on an enabled account, and revoking only with one of
        the two privileges; status is reported truthfully. */
    const reliable: bool
    const revokePriv: nat

    constructor (users: map<nat, User>, reliable: bool, revokePriv: nat)
      ensures this.users == users && this.reliable == reliable && this.revokePriv == revokePriv && trace == []
    {
      this.users, this.reliable, this.revokePriv, trace := users, reliable, revokePriv, [];
    }

    /** A new run starts a new trace. */
    ghost method ForgetTrace()
      modifies this`trace
      ensures trace == []
    {
      trace := [];
    }

    /** One command on one slot: wanted is the slot afterwards, permitted whether a reliable BMC obeys. */
    method Command(slot: nat, wanted: User, permitted: bool) returns (ok: bool)
      requires slot in users
      modifies this`users
      ensures OnlySlot(old(users), users, slot)
      ensures users[slot] == old(users)[slot] || users[slot] == wanted
      ensures reliable ==> ok == permitted && users[slot] == if ok then wanted else old(users)[slot]
    {
      ok := *;
      var applied: bool := *;
      if reliable { ok, applied := permitted, permitted; }
      if applied { users := users[slot := wanted]; }
    }

    method SetName(slot: nat) returns (ok: bool)
      requires slot in users
      modifies this
      ensures trace == old(trace) + [Named(slot, ok)]
      ensures OnlySlot(old(users), users, slot)
      ensures users[slot].name == old(users)[slot].name || users[slot].name == SENTINEL
      ensures reliable ==> ok && users[slot] == old(users)[slot].(name := SENTINEL)
    {
      ok := Command(slot, users[slot].(name := SENTINEL), true);
      trace := trace + [Named(slot, ok)];
    }

    method SetPassword(slot: nat) returns (ok: bool, confirmed: bool)
      requires slot in users
      modifies this
      ensures trace == old(trace) + [PasswordSet(slot, ok)] && users == old(users)
      ensures (confirmed ==> ok) && (reliable ==> ok)
    {
      ok := Command(slot, users[slot], true);
      assert users == old(users);
      confirmed := *;
      confirmed := confirmed && ok;
      trace := trace + [PasswordSet(slot, ok)];
    }

    method GrantPrivilege(slot: nat) returns (ok: bool)
      requires slot in users
      modifies this
      ensures trace == old(trace) + [Granted(slot, ok)]
      ensures OnlySlot(old(users), users, slot)
      ensures users[slot].name == old(users)[slot].name && users[slot].enabled == old(users)[slot].enabled
      ensures reliable ==> ok
    {
      ok := Command(slot, users[slot].(admin := true), true);
      trace := trace + [Granted(slot, ok)];
    }

    method Switch(slot: nat, on: bool) returns (ok: bool)
      requires slot in users
      modifies this
      ensures trace == old(trace) + [Switched(slot, on, ok)]
      ensures OnlySlot(old(users), users, slot)
      ensures users[slot].name == old(users)[slot].name && users[slot].access == old(users)[slot].access
      ensures reliable ==> ok && users[slot].enabled == on
    {
      ok := Command(slot, users[slot].(enabled := on), true);
      trace := trace + [Switched(slot, on, ok)];
    }

    method SetAccess(slot: nat, on: bool, priv: nat) returns (ok: bool)
      requires slot in users
      modifies this
      ensures trace == old(trace) + [AccessSet(slot, on, priv, ok)]
      ensures OnlySlot(old(users), users, slot)
      ensures users[slot].name == old(users)[slot].name && users[slot].enabled == old(users)[slot].enabled
      ensures reliable ==> ok == (old(users)[slot].enabled && (on || priv == revokePriv))
      ensures reliable && ok ==> users[slot].access == on
    {
      ok := Command(slot, users[slot].(access := on), users[slot].enabled && (on || priv == revokePriv));
      trace := trace + [AccessSet(slot, on, priv, ok)];
    }

    /** account_status: "could not be read" is not the same answer as "disabled". */
    method AccountStatus(slot: nat) returns (status: Option<string>)
      requires slot in users
      modifies this`trace
      ensures trace == old(trace) + [Status(slot, status)]
      ensures reliable ==> status == Some(if users[slot].enabled then ENABLED else DISABLED)
    {
      status := *;
      if reliable { status := Some(if users[slot].enabled then ENABLED else DISABLED); }
      trace := trace + [Status(slot, status)];
    }

    /** ipmitool user list: the names by slot, or nothing when the listing fails. */
    method UserList() returns (names: map<nat, string>, ghost listed: bool)
      ensures names == if listed then Names(users) else map[]
      ensures reliable ==> listed
    {
      names := Names(users);
      listed := true;
      var fails: bool := *;
      if fails && !reliable {
        names := map[];
        listed := false;
      }
    }
  }

  /** TempBmcAccount._slot: the lowest slot with the sentinel's name, else the lowest free slot above 2. */
  ghost predicate ChosenSlot(names: map<nat, string>, slot: Option<nat>) {
    if exists s :: s in names && names[s] == SENTINEL then
      slot.Some? && slot.value in names && names[slot.value] == SENTINEL
      && forall s :: s in names && names[s] == SENTINEL ==> slot.value <= s
    else if exists s :: s in names && s > 2 && names[s] == "" then
      slot.Some? && slot.value in names && slot.value > 2 && names[slot.value] == ""
      && forall s :: s in names && s > 2 && names[s] == "" ==> slot.value <= s
    else slot.None?
  }

  method LowestWhere(names: map<nat, string>, name: string, above: int) returns (slot: Option<nat>)
    ensures slot.None? ==> forall s :: s in names && s > above ==> names[s] != name
    ensures slot.Some? ==> slot.value in names && slot.value > above && names[slot.value] == name
    ensures slot.Some? ==> forall s :: s in names && s > above && names[s] == name ==> slot.value <= s
  {
    slot := None;
    var left := names.Keys;
    while left != {}
      invariant left <= names.Keys
      invariant slot.None? ==> forall s :: s in names && s !in left && s > above ==> names[s] != name
      invariant slot.Some? ==> slot.value in names && slot.value > above && names[slot.value] == name
      invariant slot.Some? ==> forall s :: s in names && s !in left && s > above && names[s] == name ==> slot.value <= s
      decreases left
    {
      assert exists s :: s in left;
      var s :| s in left;
      left := left - {s};
      if s > above && names[s] == name && (slot.None? || s < slot.value) {
        slot := Some(s);
      }
    }
  }

  // ------------------------------------------------------------ the account

  /** __exit__ ended with every revoke step on slot s reported done and s read back as not enabled. */
  predicate CleanTail(trace: seq<Exchange>, s: nat) {
    var n := |trace|;
    && n >= 4
    && trace[n - 4].AccessSet? && trace[n - 4].slot == s && !trace[n - 4].on && trace[n - 4].ok
    && trace[n - 3] == Switched(s, false, true)
    && trace[n - 2] == PasswordSet(s, true)
    && trace[n - 1].Status? && trace[n - 1].slot == s
    && trace[n - 1].status.Some? && trace[n - 1].status.value != ENABLED
  }

  /** The entry status of slot s was asked first, and did not come back enabled. */
  predicate FoundDisabled(trace: seq<Exchange>, s: nat) {
    |trace| > 0 && trace[0].Status? && trace[0].slot == s && trace[0].status != Some(ENABLED)
  }

  /** No slot was claimed and the BMC was asked nothing about an account, or the claimed one was not found
      enabled at entry and was cleanly revoked at the end. */
  predicate Clean(trace: seq<Exchange>, claimed: Option<nat>) {
    match claimed
    case None => trace == []
    case Some(s) => FoundDisabled(trace, s) && CleanTail(trace, s)
  }

  /** The name and the password were both set, in that order, before anything else. */
  predicate Minted(trace: seq<Exchange>, s: nat) {
    |trace| >= 2 && trace[0] == Named(s, true) && trace[1] == PasswordSet(s, true)
  }

  /** The password is tried as soon as the name was set. */
  predicate Attempted(trace: seq<Exchange>, s: nat) {
    |trace| >= 1 && (trace[0] == Named(s, true) ==> |trace| >= 2)
  }

  /** Nothing was asked about any other slot. */
  predicate OnlyAbout(trace: seq<Exchange>, s: nat) {
    forall i :: 0 <= i < |trace| ==> trace[i].slot == s
  }

  /** A slot an account run may use: already the sentinel's, or free while no slot is. */
  ghost predicate Reusable(users: map<nat, User>, s: nat) {
    && s in users
    && (users[s].name == SENTINEL
        || (s > 2 && users[s].name == "" && forall t :: t in users ==> users[t].name != SENTINEL))
  }

  /** Only the slot changed, and its name is what it was or the sentinel's. */
  ghost predicate Reused(before: map<nat, User>, after: map<nat, User>, s: nat) {
    OnlySlot(before, after, s) && (after[s].name == before[s].name || after[s].name == SENTINEL)
  }

  class TempBmcAccount {
    var slot: Option<nat>
    var hasPassword: bool
    var mintErrors: seq<string>
    var credentialFailures: seq<string>

    constructor ()
      ensures slot == None && !hasPassword && mintErrors == [] && credentialFailures == []
    {
      slot, hasPassword, mintErrors, credentialFailures := None, false, [], [];
    }

    method Slot(bmc: Bmc) returns (chosen: Option<nat>, ghost listed: bool)
      ensures chosen.Some? ==> chosen.value in bmc.users && Reusable(bmc.users, chosen.value)
      ensures if listed then ChosenSlot(Names(bmc.users), chosen) else chosen == None
      ensures bmc.reliable ==> listed
    {
      var names;
      names, listed := bmc.UserList();
      assert names != map[] ==> forall t :: t in bmc.users ==> t in names && names[t] == bmc.users[t].name;
      chosen := LowestWhere(names, SENTINEL, -1);
      if chosen.None? {
        chosen := LowestWhere(names, "", 2);
      }
    }

    /** __enter__: claim the slot first, then mint. */
    method Enter(bmc: Bmc) returns (ghost listed: bool)
      requires slot == None && !hasPassword && mintErrors == [] && credentialFailures == [] && bmc.trace == []
      modifies this, bmc
      ensures slot.None? ==> bmc.trace == [] && bmc.users == old(bmc.users) && credentialFailures == [] && !hasPassword
      ensures slot.Some? ==> Reusable(old(bmc.users), slot.value) && Reused(old(bmc.users), bmc.users, slot.value)
      ensures slot.Some? ==> |bmc.trace| > 0 && bmc.trace[0].Status? && OnlyAbout(bmc.trace, slot.value)
                             && (credentialFailures == [] <==> FoundDisabled(bmc.trace, slot.value))
      ensures slot.Some? ==> Attempted(bmc.trace[1..], slot.value) && (hasPassword <==> Minted(bmc.trace[1..], slot.value))
      ensures bmc.reliable && slot.Some? ==> bmc.users[slot.value].enabled && hasPassword
      ensures bmc.reliable && slot.Some? ==> (credentialFailures == [] <==> !old(bmc.users)[slot.value].enabled)
      ensures if listed then ChosenSlot(Names(old(bmc.users)), slot) else slot == None
      ensures bmc.reliable ==> listed
    {
      slot, listed := Slot(bmc);
      if slot.None? { return; }
      var status := bmc.AccountStatus(slot.value);
      if status.None? {
        mintErrors := mintErrors + ["could not read initial account state"];
      } else if status.value == ENABLED {
        credentialFailures := credentialFailures + ["already enabled from an earlier run"];
      }
      Mint(bmc, slot.value);
    }

    /** Name and password first; each remaining step grants access and is checked, but only noted. */
    method Mint(bmc: Bmc, s: nat)
      requires s in bmc.users && |bmc.trace| > 0 && OnlyAbout(bmc.trace, s)
      modifies this`mintErrors, this`hasPassword, bmc
      ensures old(bmc.trace) <= bmc.trace && OnlyAbout(bmc.trace, s)
      ensures Attempted(bmc.trace[|old(bmc.trace)|..], s)
      ensures hasPassword <==> old(hasPassword) || Minted(bmc.trace[|old(bmc.trace)|..], s)
      ensures Reused(old(bmc.users), bmc.users, s)
      ensures bmc.reliable ==> bmc.users[s].enabled && hasPassword
    {
      var ok := bmc.SetName(s);
      if !ok {
        mintErrors := mintErrors + ["set account name"];
        return;
      }
      var confirmed;
      ok, confirmed := bmc.SetPassword(s);
      if !ok {
        mintErrors := mintErrors + ["set password"];
        return;
      }
      if !confirmed { mintErrors := mintErrors + ["set password: no confirmation"]; }
      Grant(bmc, s);
      hasPassword := true;
    }

    method Grant(bmc: Bmc, s: nat)
      requires s in bmc.users && |bmc.trace| > 0 && OnlyAbout(bmc.trace, s)
      modifies this`mintErrors, bmc
      ensures old(bmc.trace) <= bmc.trace && OnlyAbout(bmc.trace, s)
      ensures OnlySlot(old(bmc.users), bmc.users, s) && bmc.users[s].name == old(bmc.users)[s].name
      ensures bmc.reliable ==> bmc.users[s].enabled
    {
      var ok := bmc.GrantPrivilege(s);
      if !ok { mintErrors := mintErrors + ["grant privilege"]; }
      ok := bmc.Switch(s, true);
      if !ok { mintErrors := mintErrors + ["enable account"]; }
      ok := bmc.SetAccess(s, true, 4);
      if !ok { mintErrors := mintErrors + ["grant channel access"]; }
    }

    /** __exit__: nothing without a slot; otherwise revoke, and keep what could not be confirmed. */
    method Exit(bmc: Bmc)
      requires slot.Some? ==> slot.value in bmc.users && OnlyAbout(bmc.trace, slot.value)
      modifies this`hasPassword, this`credentialFailures, bmc
      ensures slot.None? ==> bmc.trace == old(bmc.trace) && bmc.users == old(bmc.users) && credentialFailures == old(credentialFailures)
      ensures slot.Some? ==> (credentialFailures == [] <==> old(credentialFailures) == [] && CleanTail(bmc.trace, slot.value))
      ensures slot.Some? ==> OnlyAbout(bmc.trace, slot.value)
      ensures old(bmc.trace) <= bmc.trace
      ensures slot.Some? ==> Reused(old(bmc.users), bmc.users, slot.value)
      ensures slot.Some? && bmc.reliable && old(bmc.users)[slot.value].enabled && (bmc.revokePriv == 15 || bmc.revokePriv == 1) ==>
                !bmc.users[slot.value].enabled && !bmc.users[slot.value].access
                && credentialFailures == old(credentialFailures)
    {
      if slot.None? { return; }
      var failures := Revoke(bmc, slot.value);
      hasPassword := false;
      credentialFailures := credentialFailures + failures;
    }

    method RevokeAccess(bmc: Bmc, s: nat) returns (revoked: bool)
      requires s in bmc.users && OnlyAbout(bmc.trace, s)
      modifies bmc
      ensures |bmc.trace| > 0 && bmc.trace[|bmc.trace| - 1].AccessSet? && OnlyAbout(bmc.trace, s)
      ensures var last := bmc.trace[|bmc.trace| - 1]; !last.on && last.ok == revoked
      ensures old(bmc.trace) <= bmc.trace
      ensures OnlySlot(old(bmc.users), bmc.users, s) && bmc.users[s].name == old(bmc.users)[s].name
      ensures bmc.reliable && old(bmc.users)[s].enabled && (bmc.revokePriv == 15 || bmc.revokePriv == 1) ==>
                revoked && !bmc.users[s].access
    {
      revoked := bmc.SetAccess(s, false, 15);
      if !revoked {
        revoked := bmc.SetAccess(s, false, 1);
      }
    }

    /** Access off while the account is still enabled, strict privilege first, then disable it, randomise the
        password and read the state back. */
    method Revoke(bmc: Bmc, s: nat) returns (failures: seq<string>)
      requires s in bmc.users && OnlyAbout(bmc.trace, s)
      modifies bmc
      ensures failures == [] <==> CleanTail(bmc.trace, s)
      ensures OnlyAbout(bmc.trace, s)
      ensures old(bmc.trace) <= bmc.trace
      ensures Reused(old(bmc.users), bmc.users, s)
      ensures bmc.reliable && old(bmc.users)[s].enabled && (bmc.revokePriv == 15 || bmc.revokePriv == 1) ==>
                !bmc.users[s].enabled && !bmc.users[s].access && failures == []
    {
      failures := [];
      var revoked := RevokeAccess(bmc, s);
      if !revoked { failures := failures + ["revoke channel access"]; }
      var disabled := bmc.Switch(s, false);
      if !disabled { failures := failures + ["disable account"]; }
      var changed, confirmed := bmc.SetPassword(s);
      if !changed { failures := failures + ["randomize password"]; }
      var status := bmc.AccountStatus(s);
      if status.None? {
        failures := failures + ["could not confirm final account state"];
      } else if status.value == ENABLED {
        failures := failures + ["account still enabled after revoke"];
      }
      ghost var n := |bmc.trace|;
      assert bmc.trace[n - 4].AccessSet? && bmc.trace[n - 4].ok == revoked && !bmc.trace[n - 4].on;
      assert bmc.trace[n - 3] == Switched(s, false, disabled);
      assert bmc.trace[n - 2] == PasswordSet(s, changed);
      assert bmc.trace[n - 1] == Status(s, status);
    }
  }

  lemma ReusedKeepsTable(before: map<nat, User>, after: map<nat, User>, s: nat)
    requires Reusable(before, s) && Reused(before, after, s)
    ensures OthersUntouched(before, after)
    ensures AtMostOneSentinel(before) ==> AtMostOneSentinel(after)
  {
  }

  lemma ReusedTwice(a: map<nat, User>, b: map<nat, User>, c: map<nat, User>, s: nat)
    requires Reused(a, b, s) && Reused(b, c, s)
    ensures Reused(a, c, s)
  {
  }

  // ------------------------------------------------------------- exit codes

  datatype Verdict = Pass | Fail | Unresolved

  function ExitCode(rows: seq<Verdict>, credentialFailures: seq<string>): int {
    if credentialFailures != [] then 3
    else if Fail in rows then 1
    else if Unresolved in rows then 2
    else 0
  }

  /** What main is told: the options and checks before any account exists, and what the Redfish reads would
      answer, knob by knob, for a run that gets that far. */
  datatype Setting = Setting(bmcUser: bool, allowCreation: bool, ipmitool: bool, hostGiven: bool,
                             hostFound: bool, reachable: bool, knobs: seq<Verdict>)

  /** What follows the minting does not change whether it succeeded. */
  lemma MintedStays(minting: seq<Exchange>, trace: seq<Exchange>, s: nat)
    requires |minting| > 0 && minting <= trace && Attempted(minting[1..], s)
    ensures Minted(minting[1..], s) <==> Minted(trace[1..], s)
  {
  }

  /** main. The body of the with statement may be interrupted anywhere; __exit__ still runs, and only then is
      the exit code computed. */
  method Run(c: Setting, bmc: Bmc)
    returns (code: int, interrupted: bool, obtained: bool, claimed: Option<nat>, ghost listed: bool)
    requires |c.knobs| == 3 && bmc.trace == []
    modifies bmc
    ensures claimed.Some? ==> Reusable(old(bmc.users), claimed.value) && OnlyAbout(bmc.trace, claimed.value)
    ensures code == 3 <==> !Clean(bmc.trace, claimed)
    ensures code == 0 <==> Clean(bmc.trace, claimed) && obtained && !interrupted && forall i :: 0 <= i < 3 ==> c.knobs[i] == Pass
    ensures code == 1 <==> Clean(bmc.trace, claimed) && obtained && !interrupted && Fail in c.knobs
    ensures 0 <= code <= 3
    ensures OthersUntouched(old(bmc.users), bmc.users)
    ensures AtMostOneSentinel(old(bmc.users)) ==> AtMostOneSentinel(bmc.users)
    // minting is a deliberate choice, and every other refusal also comes before the first contact
    ensures (!c.bmcUser && !c.allowCreation) || (!c.bmcUser && !c.ipmitool) || (!c.hostGiven && !c.ipmitool)
            || (!c.hostGiven && !c.hostFound) || !c.reachable ==>
              code == 2 && !obtained && claimed == None && bmc.trace == [] && bmc.users == old(bmc.users)
    // an audit with an existing account never mints one
    ensures c.bmcUser ==> claimed == None && bmc.trace == [] && bmc.users == old(bmc.users)
    // any other run claims the slot the listing names, and reads the knobs exactly when it got its access
    ensures !c.bmcUser && c.allowCreation && c.ipmitool && (c.hostGiven || c.hostFound) && c.reachable ==>
              && (if listed then ChosenSlot(Names(old(bmc.users)), claimed) else claimed == None)
              && (obtained <==> !interrupted && claimed.Some? && |bmc.trace| > 0 && Minted(bmc.trace[1..], claimed.value))
    ensures c.bmcUser && (c.hostGiven || (c.ipmitool && c.hostFound)) && c.reachable ==> (obtained <==> !interrupted)
    ensures bmc.reliable ==> listed
    ensures forall s :: s in old(bmc.users) && claimed != Some(s) ==> s in bmc.users && bmc.users[s] == old(bmc.users)[s]
  {
    interrupted, obtained, claimed, listed := false, false, None, true;
    var rows := [Unresolved, Unresolved, Unresolved];
    if !c.bmcUser && !c.allowCreation { return 2, interrupted, obtained, claimed, listed; }
    if (!c.bmcUser || !c.hostGiven) && !c.ipmitool { return 2, interrupted, obtained, claimed, listed; }
    if !c.hostGiven && !c.hostFound { return 2, interrupted, obtained, claimed, listed; }
    if !c.reachable { return 2, interrupted, obtained, claimed, listed; }
    var failures: seq<string> := [];
    var noAccess := false;
    interrupted := *;
    if c.bmcUser {
      if !interrupted { rows := c.knobs; obtained := true; }
    } else {
      var acct := new TempBmcAccount();
      listed := acct.Enter(bmc);
      claimed := acct.slot;
      ghost var minting := bmc.trace;
      if !interrupted {
        if acct.slot.None? || !acct.hasPassword {
          noAccess := true;
        } else {
          rows := c.knobs;
          obtained := true;
        }
      }
      ghost var entered := bmc.users;
      acct.Exit(bmc);
      if acct.slot.Some? { MintedStays(minting, bmc.trace, acct.slot.value); }
      failures := acct.credentialFailures;
      if acct.slot.Some? {
        ReusedTwice(old(bmc.users), entered, bmc.users, acct.slot.value);
        ReusedKeepsTable(old(bmc.users), bmc.users, acct.slot.value);
      }
    }
    code := ExitCode(rows, failures);
    if (noAccess || interrupted) && code != 3 { code := 2; }
  }

  /** On a BMC on which commands otherwise work, an account run ends with the chosen slot off the channel and
      disabled, whichever of the two privileges its firmware accepts, and reports a failure only if the
      account had been left enabled before. */
  method ReliableRun(bmc: Bmc) returns (slot: Option<nat>, failures: seq<string>)
    requires bmc.reliable && (bmc.revokePriv == 15 || bmc.revokePriv == 1) && bmc.trace == []
    modifies bmc
    ensures ChosenSlot(Names(old(bmc.users)), slot)
    ensures slot.Some? ==> slot.value in bmc.users && slot.value in old(bmc.users)
                           && !bmc.users[slot.value].enabled && !bmc.users[slot.value].access
    ensures slot.Some? ==> (failures == [] <==> !old(bmc.users)[slot.value].enabled)
  {
    var acct := new TempBmcAccount();
    ghost var listed := acct.Enter(bmc);
    acct.Exit(bmc);
    slot, failures := acct.slot, acct.credentialFailures;
  }

  /** Any number of runs against one BMC, each failing in any way. */
  method ManyRuns(settings: seq<Setting>, bmc: Bmc)
    requires bmc.trace == [] && AtMostOneSentinel(bmc.users)
    requires forall i :: 0 <= i < |settings| ==> |settings[i].knobs| == 3
    modifies bmc
    ensures AtMostOneSentinel(bmc.users) && OthersUntouched(old(bmc.users), bmc.users)
  {
    for i := 0 to |settings|
      invariant AtMostOneSentinel(bmc.users) && OthersUntouched(old(bmc.users), bmc.users)
      invariant bmc.trace == []
    {
      ghost var before := bmc.users;
      var code, interrupted, obtained, claimed;
      ghost var listed;
      code, interrupted, obtained, claimed, listed := Run(settings[i], bmc);
      bmc.ForgetTrace();
    }
  }
}
