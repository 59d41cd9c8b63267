/** Crash-safe publication of one file by any number of interleaved atomic_write_bytes calls.

    The file system has a volatile view, which running processes read, and a durable side: per file the
    bytes and modes that may be found after a power loss, and for the published path the set of directory
    entries that may be found. Every system call of every writer is one step. Temporary names are never
    reused: a call, its temporary file and the file's inode share one number. */
module DurableIo {
  import opened Prelude

  type Bytes = seq<bv8>

  /** mkstemp creates owner-only files. */
  const OWNER_ONLY := 384

  /** durable: the bytes guaranteed to survive, if any; durableModes: the modes that may survive. */
  datatype File = File(content: Bytes, mode: nat, durable: Option<Bytes>, durableModes: set<nat>)

  /** Where a call stands: the try body step by step, then the finally clause. */
  datatype Pc =
    | Created | Flushed | Synced | Checked(copy: bool) | Stated(mode: nat) | Moded | Replaced | DirSynced
    | Returned | Raised | RaisedDirty | Abandoned

  datatype Call = Call(payload: Bytes, pc: Pc, failed: bool)

  datatype State = State(
    initial: Option<nat>,        // the inode the path named before the first call
    files: map<nat, File>,
    dest: Option<nat>,           // the path's entry, as running processes see it
    destMay: set<Option<nat>>,   // the path's entries that may be found after a power loss
    temps: set<nat>,             // temporary names present in the directory
    calls: map<nat, Call>,
    renames: seq<nat>,           // history: the calls that replaced the path, in order
    settled: nat)                // history: how many of them the last directory fsync covered

  datatype Action =
    | Create(w: nat, payload: Bytes)   // mkstemp
    | CreateFails(w: nat, payload: Bytes)
    | Write(w: nat, n: nat)            // part of the buffer reaches the file
    | Flush(w: nat)
    | Fsync(w: nat)
    | CheckFile(w: nat)                // destination.is_file()
    | Stat(w: nat)                     // copymode reads the mode ...
    | Chmod(w: nat)                    // ... and sets it
    | Replace(w: nat)
    | SyncDirectory(w: nat)
    | Fail(w: nat)                     // the step in progress raises
    | Unlink(w: nat)                   // the finally clause
    | UnlinkFails(w: nat)
    | Kill(w: nat)                     // the process dies

  function PcOf(s: State, w: nat): Option<Pc> {
    if w in s.calls then Some(s.calls[w].pc) else None
  }

  predicate InTry(s: State, w: nat) {
    w in s.calls && !s.calls[w].failed &&
    match s.calls[w].pc
    case Returned => false
    case Raised => false
    case RaisedDirty => false
    case Abandoned => false
    case DirSynced => false
    case _ => true
  }

  predicate Enabled(s: State, a: Action) {
    match a
    case Create(w, _) => w !in s.calls && w !in s.files
    case CreateFails(w, _) => w !in s.calls && w !in s.files && w !in s.temps
    case Write(w, n) => InTry(s, w) && s.calls[w].pc == Created && w in s.files && n <= |s.calls[w].payload|
    case Flush(w) => InTry(s, w) && s.calls[w].pc == Created && w in s.files
    case Fsync(w) => InTry(s, w) && s.calls[w].pc == Flushed && w in s.files
    case CheckFile(w) => InTry(s, w) && s.calls[w].pc == Synced
    case Stat(w) => InTry(s, w) && s.calls[w].pc == Checked(true) && s.dest.Some? && s.dest.value in s.files
    case Chmod(w) => InTry(s, w) && s.calls[w].pc.Stated? && w in s.files
    case Replace(w) => InTry(s, w) && (s.calls[w].pc == Checked(false) || s.calls[w].pc == Moded)
    case SyncDirectory(w) => InTry(s, w) && s.calls[w].pc == Replaced
    case Fail(w) => InTry(s, w)
    case Unlink(w) => w in s.calls && (s.calls[w].pc == DirSynced || s.calls[w].failed) && Running(s, w)
    case UnlinkFails(w) => w in s.calls && (s.calls[w].pc == DirSynced || s.calls[w].failed) && Running(s, w)
    case Kill(w) => w in s.calls && Running(s, w)
  }

  predicate Running(s: State, w: nat)
    requires w in s.calls
  {
    var pc := s.calls[w].pc;
    pc != Returned && pc != Raised && pc != RaisedDirty && pc != Abandoned
  }

  function At(s: State, w: nat, pc: Pc): map<nat, Call>
    requires w in s.calls
  {
    s.calls[w := s.calls[w].(pc := pc)]
  }

  function Next(s: State, a: Action): State
    requires Enabled(s, a)
  {
    match a
    case Create(w, payload) =>
      s.(files := s.files[w := File([], OWNER_ONLY, None, {OWNER_ONLY})], temps := s.temps + {w},
         calls := s.calls[w := Call(payload, Created, false)])
    case CreateFails(w, payload) => s.(calls := s.calls[w := Call(payload, Raised, true)])
    case Write(w, n) =>
      s.(files := s.files[w := s.files[w].(content := s.calls[w].payload[..n], durable := None)])
    case Flush(w) =>
      s.(files := s.files[w := s.files[w].(content := s.calls[w].payload, durable := None)], calls := At(s, w, Flushed))
    case Fsync(w) =>
      var f := s.files[w];
      s.(files := s.files[w := f.(durable := Some(f.content), durableModes := {f.mode})], calls := At(s, w, Synced))
    case CheckFile(w) => s.(calls := At(s, w, Checked(s.dest.Some?)))
    case Stat(w) => s.(calls := At(s, w, Stated(s.files[s.dest.value].mode)))
    case Chmod(w) =>
      var f, m := s.files[w], s.calls[w].pc.mode;
      s.(files := s.files[w := f.(mode := m, durableModes := f.durableModes + {m})], calls := At(s, w, Moded))
    case Replace(w) =>
      s.(dest := Some(w), destMay := s.destMay + {Some(w)}, temps := s.temps - {w}, renames := s.renames + [w],
         calls := At(s, w, Replaced))
    case SyncDirectory(w) =>
      s.(destMay := {s.dest}, settled := |s.renames|, calls := At(s, w, DirSynced))
    case Fail(w) => s.(calls := s.calls[w := s.calls[w].(failed := true)])
    case Unlink(w) =>
      s.(temps := s.temps - {w}, calls := At(s, w, if s.calls[w].failed then Raised else Returned))
    case UnlinkFails(w) => s.(calls := s.calls[w := s.calls[w].(pc := RaisedDirty, failed := true)])
    case Kill(w) => s.(calls := At(s, w, Abandoned))
  }

  // ------------------------------------------------------------------ runs

  /** A settled path, with or without a file of known bytes and mode, and no call in progress. */
  predicate Settled(s: State) {
    && s.calls == map[] && s.renames == [] && s.settled == 0
    && s.dest == s.initial && s.destMay == {s.initial}
    && (s.initial.Some? ==>
          s.initial.value in s.files
          && s.files[s.initial.value].durable == Some(s.files[s.initial.value].content)
          && s.files[s.initial.value].durableModes == {s.files[s.initial.value].mode})
  }

  predicate CanRun(s: State, acts: seq<Action>)
    decreases |acts|
  {
    |acts| == 0 || (Enabled(s, acts[0]) && CanRun(Next(s, acts[0]), acts[1..]))
  }

  function Run(s: State, acts: seq<Action>): State
    requires CanRun(s, acts)
    decreases |acts|
  {
    if |acts| == 0 then s else Run(Next(s, acts[0]), acts[1..])
  }

  // ------------------------------------------------------------- invariant

  /** The path's entry after the first k replacements. */
  function EntryAfter(s: State, k: nat): Option<nat>
    requires k <= |s.renames|
  {
    if k == 0 then s.initial else Some(s.renames[k - 1])
  }

  predicate Published(s: State, w: nat) {
    w in s.calls && w in s.files && s.files[w].content == s.calls[w].payload
    && s.files[w].durable == Some(s.calls[w].payload)
  }

  /** What holds of the file of a call, given how far the call got before it failed or died. */
  predicate CallInv(s: State, w: nat)
    requires w in s.calls
  {
    var c := s.calls[w];
    && (c.pc in {Flushed} ==> w in s.files && s.files[w].content == c.payload)
    && ((c.pc in {Synced, Moded, Replaced, DirSynced, Returned} || c.pc.Checked? || c.pc.Stated?) ==> Published(s, w))
    && (c.pc in {Created} ==> w in s.files)
    && ((c.pc in {Created, Flushed, Synced, Moded} || c.pc.Checked? || c.pc.Stated?) ==> w !in s.renames)
    && (c.pc in {Replaced, DirSynced, Returned} ==> w in s.renames)
    && (c.pc in {DirSynced, Returned} ==> exists k :: 0 < k <= s.settled <= |s.renames| && EntryAfter(s, k) == Some(w))
    && (c.pc in {Returned, Raised} ==> w !in s.temps)
    && (c.pc in {Returned, DirSynced} ==> !c.failed)
    && (c.pc == Checked(false) ==> s.initial.None?)
  }

  /** Entries: the visible one is the last replacement, and a power loss finds one at or after the last
      that a directory fsync covered. */
  predicate EntriesInv(s: State) {
    && s.settled <= |s.renames|
    && s.dest == EntryAfter(s, |s.renames|)
    && (forall d :: d in s.destMay ==> EntrySince(s, s.settled, d))
  }

  predicate EntrySince(s: State, from: nat, d: Option<nat>) {
    exists k :: from <= k <= |s.renames| && EntryAfter(s, k) == d
  }

  predicate FilesInv(s: State) {
    && (s.initial.Some? ==> s.initial.value in s.files && s.initial.value !in s.calls)
    && (forall w :: w in s.renames ==> Published(s, w))
  }

  predicate Inv(s: State) {
    && EntriesInv(s) && FilesInv(s)
    && (forall w :: w in s.calls ==> CallInv(s, w))
  }

  /** The steps of one call that leave the path alone. */
  predicate Local(s: State, s': State, w: nat) {
    && s'.initial == s.initial && s'.dest == s.dest && s'.destMay == s.destMay
    && s'.renames == s.renames && s'.settled == s.settled
    && (forall u :: u in s.calls && u != w ==> u in s'.calls && s'.calls[u] == s.calls[u])
    && (forall u :: u in s'.calls && u != w ==> u in s.calls)
    && (forall u :: u in s.files && u != w ==> u in s'.files && s'.files[u] == s.files[u])
    && (forall u :: u in s'.temps && u != w ==> u in s.temps)
  }

  lemma EntriesSame(s: State, s': State)
    requires s'.initial == s.initial && s'.renames == s.renames
    ensures forall k :: 0 <= k <= |s.renames| ==> EntryAfter(s', k) == EntryAfter(s, k)
  {
  }

  lemma LocalInv(s: State, s': State, w: nat)
    requires Inv(s) && Local(s, s', w)
    requires w in s'.calls && CallInv(s', w) && Some(w) != s.initial
    requires w in s.renames ==> Published(s', w)
    ensures Inv(s')
  {
    EntriesSame(s, s');
    forall d | d in s'.destMay ensures EntrySince(s', s'.settled, d) {
      var k :| s.settled <= k <= |s.renames| && EntryAfter(s, k) == d;
      assert EntryAfter(s', k) == d;
    }
    forall u | u in s'.renames ensures Published(s', u) {
      assert Published(s, u);
    }
    forall u | u in s'.calls && u != w ensures CallInv(s', u) {
      CallInvSame(s, s', u);
    }
  }

  lemma CallInvSame(s: State, s': State, u: nat)
    requires u in s.calls && u in s'.calls && s'.calls[u] == s.calls[u] && CallInv(s, u)
    requires u in s.files ==> u in s'.files && s'.files[u] == s.files[u]
    requires u in s'.temps ==> u in s.temps
    requires s'.initial == s.initial && s'.renames == s.renames && s'.settled == s.settled
    ensures CallInv(s', u)
  {
    EntriesSame(s, s');
    if u in s.calls && s.calls[u].pc in {DirSynced, Returned} {
      var k :| 0 < k <= s.settled <= |s.renames| && EntryAfter(s, k) == Some(u);
      assert EntryAfter(s', k) == Some(u);
    }
  }

  lemma ReplaceInv(s: State, w: nat)
    requires Inv(s) && Enabled(s, Replace(w))
    ensures Inv(Next(s, Replace(w)))
  {
    var s' := Next(s, Replace(w));
    assert forall k :: 0 <= k <= |s.renames| ==> EntryAfter(s', k) == EntryAfter(s, k);
    assert EntryAfter(s', |s'.renames|) == Some(w);
    forall d | d in s'.destMay ensures EntrySince(s', s'.settled, d) {
      if d != Some(w) {
        var k :| s.settled <= k <= |s.renames| && EntryAfter(s, k) == d;
        assert EntryAfter(s', k) == d;
      }
    }
    assert CallInv(s, w);
    forall u | u in s'.renames ensures Published(s', u) {
      assert u in s.renames || u == w;
      if u in s.renames { assert Published(s, u); }
    }
    forall u | u in s'.calls ensures CallInv(s', u) {
      assert CallInv(s, u);
      if u in s.calls && u != w && s.calls[u].pc in {DirSynced, Returned} {
        var k :| 0 < k <= s.settled <= |s.renames| && EntryAfter(s, k) == Some(u);
        assert EntryAfter(s', k) == Some(u);
      }
    }
  }

  lemma SyncDirectoryInv(s: State, w: nat)
    requires Inv(s) && Enabled(s, SyncDirectory(w))
    ensures Inv(Next(s, SyncDirectory(w)))
  {
    var s' := Next(s, SyncDirectory(w));
    EntriesSame(s, s');
    assert EntryAfter(s', |s'.renames|) == s'.dest;
    forall u | u in s'.renames ensures Published(s', u) {
      assert Published(s, u);
    }
    forall u | u in s'.calls ensures CallInv(s', u) {
      assert CallInv(s, u);
      if u == w {
        var j :| 0 <= j < |s.renames| && s.renames[j] == w;
        assert EntryAfter(s', j + 1) == Some(w);
      } else if s.calls[u].pc in {DirSynced, Returned} {
        var k :| 0 < k <= s.settled <= |s.renames| && EntryAfter(s, k) == Some(u);
        assert EntryAfter(s', k) == Some(u);
      }
    }
  }

  /** Steps that change the call's own temporary file. */
  lemma FileStep(s: State, a: Action)
    requires Inv(s) && Enabled(s, a) && (a.Create? || a.Write? || a.Flush? || a.Fsync? || a.Chmod?)
    ensures Inv(Next(s, a))
  {
    var w := a.w;
    var s' := Next(s, a);
    if w in s.calls { assert CallInv(s, w); }
    assert w in s.renames ==> Published(s, w);
    LocalInv(s, s', w);
  }

  /** Steps that only move the call along, or end it. */
  lemma ControlStep(s: State, a: Action)
    requires Inv(s) && Enabled(s, a)
    requires a.CreateFails? || a.CheckFile? || a.Stat? || a.Fail? || a.Unlink? || a.UnlinkFails? || a.Kill?
    ensures Inv(Next(s, a))
  {
    var w := a.w;
    var s' := Next(s, a);
    if w in s.calls { assert CallInv(s, w); }
    EntriesSame(s, s');
    assert w in s.renames ==> Published(s, w);
    if w in s.calls && s.calls[w].pc == DirSynced {
      var k :| 0 < k <= s.settled <= |s.renames| && EntryAfter(s, k) == Some(w);
      assert EntryAfter(s', k) == Some(w);
    }
    LocalInv(s, s', w);
  }

  lemma InvStep(s: State, a: Action)
    requires Inv(s) && Enabled(s, a)
    ensures Inv(Next(s, a))
  {
    hide Inv, Enabled, Next;
    if a.Replace? {
      ReplaceInv(s, a.w);
    } else if a.SyncDirectory? {
      SyncDirectoryInv(s, a.w);
    } else if a.Create? || a.Write? || a.Flush? || a.Fsync? || a.Chmod? {
      FileStep(s, a);
    } else {
      ControlStep(s, a);
    }
  }

  // ------------------------------------------------------------ permissions

  /** With a file of mode m0 at the path: what is known of every other file's mode. */
  predicate FileModes(s: State, m0: nat, w: nat) {
    && (w in s.renames ==> w in s.files && s.files[w].mode == m0 && s.files[w].durableModes == {OWNER_ONLY, m0})
    && (w in s.calls && w in s.files ==>
          var pc, f := s.calls[w].pc, s.files[w];
          && (pc in {Created, Flushed} ==> f.mode == OWNER_ONLY)
          && ((pc == Synced || pc.Checked? || pc.Stated?) ==> f.mode == OWNER_ONLY && f.durableModes == {OWNER_ONLY})
          && (pc.Stated? ==> pc.mode == m0)
          && (pc == Moded ==> f.mode == m0 && f.durableModes == {OWNER_ONLY, m0}))
  }

  ghost predicate ModeInv(s: State, i: nat, f0: File) {
    && s.initial == Some(i) && i in s.files && s.files[i] == f0
    && forall w :: w != i ==> FileModes(s, f0.mode, w)
  }

  lemma ModeStep(s: State, a: Action, i: nat, f0: File)
    requires Inv(s) && ModeInv(s, i, f0) && Enabled(s, a)
    ensures ModeInv(Next(s, a), i, f0)
  {
    hide EntrySince, FileModes;
    var s' := Next(s, a);
    var w := a.w;
    if w in s.calls { assert CallInv(s, w); }
    assert w != i;
    VisibleMode(s, i, f0);
    ActorModes(s, a, f0.mode);
    forall u | u != i ensures FileModes(s', f0.mode, u) {
      if u != w {
        assert FileModes(s, f0.mode, u);
        OtherModes(s, s', f0.mode, u);
      }
    }
  }

  lemma VisibleMode(s: State, i: nat, f0: File)
    requires Inv(s) && ModeInv(s, i, f0)
    ensures s.dest.Some? && s.dest.value in s.files && s.files[s.dest.value].mode == f0.mode
  {
    hide EntrySince, CallInv;
    if |s.renames| > 0 {
      assert s.renames[|s.renames| - 1] in s.renames;
      assert FileModes(s, f0.mode, s.renames[|s.renames| - 1]) || s.renames[|s.renames| - 1] == i;
    }
  }

  lemma OtherModes(s: State, s': State, m0: nat, u: nat)
    requires FileModes(s, m0, u)
    requires u in s'.renames ==> u in s.renames
    requires u in s'.calls ==> u in s.calls && s'.calls[u] == s.calls[u]
    requires u in s.files <==> u in s'.files
    requires u in s.files ==> s'.files[u] == s.files[u]
    ensures FileModes(s', m0, u)
  {
  }

  lemma ActorModes(s: State, a: Action, m0: nat)
    requires Enabled(s, a) && FileModes(s, m0, a.w)
    requires a.w in s.renames ==> a.w in s.calls
    requires a.w in s.calls ==> CallInv(s, a.w)
    requires a.Stat? ==> s.files[s.dest.value].mode == m0
    requires a.Replace? && s.calls[a.w].pc == Checked(false) ==> s.initial.None?
    requires s.initial.Some?
    ensures FileModes(Next(s, a), m0, a.w)
  {
  }

  // -------------------------------------------------------------- theorems

  lemma {:induction false} RunInv(s: State, acts: seq<Action>)
    requires Inv(s) && CanRun(s, acts)
    ensures Inv(Run(s, acts)) && Run(s, acts).initial == s.initial
    decreases |acts|
  {
    if |acts| > 0 {
      InvStep(s, acts[0]);
      RunInv(Next(s, acts[0]), acts[1..]);
    }
  }

  lemma {:induction false} RunModes(s: State, acts: seq<Action>, i: nat, f0: File)
    requires Inv(s) && ModeInv(s, i, f0) && CanRun(s, acts)
    ensures ModeInv(Run(s, acts), i, f0)
    decreases |acts|
  {
    if |acts| > 0 {
      InvStep(s, acts[0]);
      ModeStep(s, acts[0], i, f0);
      RunModes(Next(s, acts[0]), acts[1..], i, f0);
    }
  }

  lemma SettledInv(s: State)
    requires Settled(s)
    ensures Inv(s) && (s.initial.Some? ==> ModeInv(s, s.initial.value, s.files[s.initial.value]))
  {
    assert EntryAfter(s, 0) == s.initial;
  }

  /** Whatever is interleaved and wherever the power fails, the path is found with what it named before the
      first call or with one call's complete payload, and processes see the same. */
  lemma OldOrComplete(s0: State, acts: seq<Action>, d: Option<nat>)
    requires Settled(s0) && CanRun(s0, acts)
    requires d in Run(s0, acts).destMay || d == Run(s0, acts).dest
    ensures d == s0.initial || (d.Some? && Published(Run(s0, acts), d.value))
    ensures s0.initial.Some? ==>
              s0.initial.value in Run(s0, acts).files
              && Run(s0, acts).files[s0.initial.value] == s0.files[s0.initial.value]
  {
    SettledInv(s0);
    RunInv(s0, acts);
    if s0.initial.Some? {
      RunModes(s0, acts, s0.initial.value, s0.files[s0.initial.value]);
    }
    var s := Run(s0, acts);
    var k :| 0 <= k <= |s.renames| && EntryAfter(s, k) == d;
    if k > 0 { assert s.renames[k - 1] in s.renames; }
  }

  /** Once a call has returned, a power loss finds its payload or that of a call that replaced the path
      after it. */
  lemma ReturnedSurvives(s0: State, acts: seq<Action>, w: nat, d: Option<nat>)
    requires Settled(s0) && CanRun(s0, acts)
    requires PcOf(Run(s0, acts), w) == Some(Returned) && d in Run(s0, acts).destMay
    ensures var s := Run(s0, acts);
            exists j, k :: 0 <= j <= k < |s.renames| && s.renames[j] == w && d == Some(s.renames[k]) && Published(s, s.renames[k])
  {
    SettledInv(s0);
    RunInv(s0, acts);
    var s := Run(s0, acts);
    assert CallInv(s, w);
    var j :| 0 < j <= s.settled <= |s.renames| && EntryAfter(s, j) == Some(w);
    assert EntrySince(s, s.settled, d);
    var k :| s.settled <= k <= |s.renames| && EntryAfter(s, k) == d;
    assert s.renames[k - 1] in s.renames;
    assert 0 <= j - 1 <= k - 1 < |s.renames| && s.renames[j - 1] == w && d == Some(s.renames[k - 1]);
  }

  /** A call that returned, or raised with its cleanup done, leaves no temporary file. */
  lemma NoTemporaryLeft(s0: State, acts: seq<Action>, w: nat)
    requires Settled(s0) && CanRun(s0, acts)
    requires PcOf(Run(s0, acts), w) == Some(Returned) || PcOf(Run(s0, acts), w) == Some(Raised)
    ensures w !in Run(s0, acts).temps
  {
    SettledInv(s0);
    RunInv(s0, acts);
    assert CallInv(Run(s0, acts), w);
  }

  /** A replaced file keeps the permissions it had, at every moment a process can look. */
  lemma ModeKept(s0: State, acts: seq<Action>)
    requires Settled(s0) && CanRun(s0, acts) && s0.initial.Some?
    ensures var s := Run(s0, acts);
            s.dest.Some? && s.dest.value in s.files
            && s.files[s.dest.value].mode == s0.files[s0.initial.value].mode
  {
    SettledInv(s0);
    RunInv(s0, acts);
    RunModes(s0, acts, s0.initial.value, s0.files[s0.initial.value]);
    var s := Run(s0, acts);
    if |s.renames| > 0 {
      assert s.renames[|s.renames| - 1] in s.renames;
      assert FileModes(s, s0.files[s0.initial.value].mode, s.renames[|s.renames| - 1]);
    }
  }

  /** The mode is set after the file's own fsync, so across a power loss the permissions of a published
      replacement are certain exactly when the file was owner-only to begin with. */
  lemma ModeCertainIffOwnerOnly(s0: State, acts: seq<Action>, u: nat)
    requires Settled(s0) && CanRun(s0, acts) && s0.initial.Some?
    requires Some(u) in Run(s0, acts).destMay && Some(u) != s0.initial
    ensures var m0 := s0.files[s0.initial.value].mode;
            u in Run(s0, acts).files
            && (Run(s0, acts).files[u].durableModes == {m0} <==> m0 == OWNER_ONLY)
  {
    SettledInv(s0);
    RunInv(s0, acts);
    RunModes(s0, acts, s0.initial.value, s0.files[s0.initial.value]);
    var s := Run(s0, acts);
    var m0 := s0.files[s0.initial.value].mode;
    var k :| 0 <= k <= |s.renames| && EntryAfter(s, k) == Some(u);
    assert EntryAfter(s, 0) == s0.initial;
    assert k != 0;
    assert s.renames[k - 1] in s.renames;
    assert FileModes(s, m0, u);
    assert {OWNER_ONLY, m0} == {m0} ==> OWNER_ONLY in {m0};
  }

  function Alone(before: Bytes, f: File, done: bool, settled: nat, call: Call): State {
    State(Some(0), map[0 := File(before, 420, Some(before), {420}), 1 := f],
          if done then Some(1) else Some(0),
          if settled == 1 then {Some(1)} else if done then {Some(0), Some(1)} else {Some(0)},
          if done then {} else {1}, map[1 := call], if done then [1] else [], settled)
  }

  function Before(before: Bytes): State {
    State(Some(0), map[0 := File(before, 420, Some(before), {420})], Some(0), {Some(0)}, {}, map[], [], 0)
  }

  predicate Steps(s: State, a: Action, s': State) {
    Enabled(s, a) && Next(s, a) == s'
  }

  lemma LoneCallWrites(before: Bytes, after: Bytes)
    ensures Steps(Before(before), Create(1, after),
                  Alone(before, File([], OWNER_ONLY, None, {OWNER_ONLY}), false, 0, Call(after, Created, false)))
    ensures Steps(Alone(before, File([], OWNER_ONLY, None, {OWNER_ONLY}), false, 0, Call(after, Created, false)), Flush(1),
                  Alone(before, File(after, OWNER_ONLY, None, {OWNER_ONLY}), false, 0, Call(after, Flushed, false)))
    ensures Steps(Alone(before, File(after, OWNER_ONLY, None, {OWNER_ONLY}), false, 0, Call(after, Flushed, false)), Fsync(1),
                  Alone(before, File(after, OWNER_ONLY, Some(after), {OWNER_ONLY}), false, 0, Call(after, Synced, false)))
  {
  }

  lemma LoneCallCopiesMode(before: Bytes, after: Bytes)
    ensures var f := File(after, OWNER_ONLY, Some(after), {OWNER_ONLY});
            && Steps(Alone(before, f, false, 0, Call(after, Synced, false)), CheckFile(1),
                     Alone(before, f, false, 0, Call(after, Checked(true), false)))
            && Steps(Alone(before, f, false, 0, Call(after, Checked(true), false)), Stat(1),
                     Alone(before, f, false, 0, Call(after, Stated(420), false)))
            && Steps(Alone(before, f, false, 0, Call(after, Stated(420), false)), Chmod(1),
                     Alone(before, File(after, 420, Some(after), {OWNER_ONLY, 420}), false, 0, Call(after, Moded, false)))
  {
    assert {OWNER_ONLY} + {420} == {OWNER_ONLY, 420};
  }

  lemma LoneCallPublishes(before: Bytes, after: Bytes)
    ensures var f := File(after, 420, Some(after), {OWNER_ONLY, 420});
            && Steps(Alone(before, f, false, 0, Call(after, Moded, false)), Replace(1),
                     Alone(before, f, true, 0, Call(after, Replaced, false)))
            && Steps(Alone(before, f, true, 0, Call(after, Replaced, false)), SyncDirectory(1),
                     Alone(before, f, true, 1, Call(after, DirSynced, false)))
            && Steps(Alone(before, f, true, 1, Call(after, DirSynced, false)), Unlink(1),
                     Alone(before, f, true, 1, Call(after, Returned, false)))
  {
  }

  lemma RunCons(s: State, a: Action, s': State, rest: seq<Action>)
    requires Steps(s, a, s') && CanRun(s', rest)
    ensures CanRun(s, [a] + rest) && Run(s, [a] + rest) == Run(s', rest)
  {
    hide Enabled, Next;
    assert ([a] + rest)[1..] == rest;
  }

  lemma RunNothing(s: State)
    ensures CanRun(s, []) && Run(s, []) == s
  {
  }

  /** A finished call after which a power loss may find the world-readable file (mode 644 octal) owner-only. */
  lemma ModeMayBeLost(before: Bytes, after: Bytes) returns (s0: State, acts: seq<Action>)
    ensures Settled(s0) && s0.initial == Some(0) && 0 in s0.files && s0.files[0].mode == 420
    ensures CanRun(s0, acts) && PcOf(Run(s0, acts), 1) == Some(Returned)
    ensures Run(s0, acts).dest == Some(1) && Run(s0, acts).destMay == {Some(1)}
    ensures 1 in Run(s0, acts).files && OWNER_ONLY in Run(s0, acts).files[1].durableModes
  {
    hide CanRun, Run, Steps;
    s0 := Before(before);
    LoneCallWrites(before, after);
    LoneCallCopiesMode(before, after);
    LoneCallPublishes(before, after);
    var f, g := File(after, OWNER_ONLY, Some(after), {OWNER_ONLY}), File(after, 420, Some(after), {OWNER_ONLY, 420});
    var s9 := Alone(before, g, true, 1, Call(after, Returned, false));
    RunNothing(s9);
    acts := [Unlink(1)] + [];
    RunCons(Alone(before, g, true, 1, Call(after, DirSynced, false)), Unlink(1), s9, []);
    RunCons(Alone(before, g, true, 0, Call(after, Replaced, false)), SyncDirectory(1),
            Alone(before, g, true, 1, Call(after, DirSynced, false)), acts);
    acts := [SyncDirectory(1)] + acts;
    RunCons(Alone(before, g, false, 0, Call(after, Moded, false)), Replace(1),
            Alone(before, g, true, 0, Call(after, Replaced, false)), acts);
    acts := [Replace(1)] + acts;
    RunCons(Alone(before, f, false, 0, Call(after, Stated(420), false)), Chmod(1),
            Alone(before, g, false, 0, Call(after, Moded, false)), acts);
    acts := [Chmod(1)] + acts;
    RunCons(Alone(before, f, false, 0, Call(after, Checked(true), false)), Stat(1),
            Alone(before, f, false, 0, Call(after, Stated(420), false)), acts);
    acts := [Stat(1)] + acts;
    RunCons(Alone(before, f, false, 0, Call(after, Synced, false)), CheckFile(1),
            Alone(before, f, false, 0, Call(after, Checked(true), false)), acts);
    acts := [CheckFile(1)] + acts;
    RunCons(Alone(before, File(after, OWNER_ONLY, None, {OWNER_ONLY}), false, 0, Call(after, Flushed, false)), Fsync(1),
            Alone(before, f, false, 0, Call(after, Synced, false)), acts);
    acts := [Fsync(1)] + acts;
    RunCons(Alone(before, File([], OWNER_ONLY, None, {OWNER_ONLY}), false, 0, Call(after, Created, false)), Flush(1),
            Alone(before, File(after, OWNER_ONLY, None, {OWNER_ONLY}), false, 0, Call(after, Flushed, false)), acts);
    acts := [Flush(1)] + acts;
    RunCons(s0, Create(1, after),
            Alone(before, File([], OWNER_ONLY, None, {OWNER_ONLY}), false, 0, Call(after, Created, false)), acts);
    acts := [Create(1, after)] + acts;
  }

  /** What the machine finds after a power loss: one of the possible entries, with its surviving bytes and
      one of its surviving modes; every call is gone and any temporary names may be left. */
  function Recover(s: State, d: Option<nat>, mode: nat, temps: set<nat>): State
    requires d.Some? ==>
               d.value in s.files && s.files[d.value].durable.Some? && mode in s.files[d.value].durableModes
  {
    s.(initial := d, dest := d, destMay := {d}, temps := temps, calls := map[], renames := [], settled := 0,
       files := if d.None? then s.files
                else var bytes := s.files[d.value].durable.value;
                     s.files[d.value := File(bytes, mode, Some(bytes), {mode})])
  }

  function Nowhere(): State {
    State(None, map[], None, {None}, {}, map[], [], 0)
  }

  /** The first publication of a path: with the temporary file's contents, and with the path replaced or not. */
  function First(f: File, done: bool, settled: nat, call: Call): State {
    State(None, map[1 := f], if done then Some(1) else None,
          if settled == 1 then {Some(1)} else if done then {None, Some(1)} else {None},
          if done then {} else {1}, map[1 := call], if done then [1] else [], settled)
  }

  lemma FirstCallSteps(after: Bytes)
    ensures var e, f, g := File([], OWNER_ONLY, None, {OWNER_ONLY}), File(after, OWNER_ONLY, None, {OWNER_ONLY}),
                           File(after, OWNER_ONLY, Some(after), {OWNER_ONLY});
            && Steps(Nowhere(), Create(1, after), First(e, false, 0, Call(after, Created, false)))
            && Steps(First(e, false, 0, Call(after, Created, false)), Flush(1), First(f, false, 0, Call(after, Flushed, false)))
            && Steps(First(f, false, 0, Call(after, Flushed, false)), Fsync(1), First(g, false, 0, Call(after, Synced, false)))
            && Steps(First(g, false, 0, Call(after, Synced, false)), CheckFile(1), First(g, false, 0, Call(after, Checked(false), false)))
  {
  }

  lemma FirstCallPublishes(after: Bytes)
    ensures var g := File(after, OWNER_ONLY, Some(after), {OWNER_ONLY});
            && Steps(First(g, false, 0, Call(after, Checked(false), false)), Replace(1), First(g, true, 0, Call(after, Replaced, false)))
            && Steps(First(g, true, 0, Call(after, Replaced, false)), SyncDirectory(1), First(g, true, 1, Call(after, DirSynced, false)))
            && Steps(First(g, true, 1, Call(after, DirSynced, false)), Unlink(1), First(g, true, 1, Call(after, Returned, false)))
  {
  }

  /** A finished first publication: the path, which named nothing, names a durable file with the payload. */
  lemma FirstPublication(after: Bytes) returns (acts: seq<Action>)
    ensures Settled(Nowhere()) && CanRun(Nowhere(), acts)
    ensures var s := Run(Nowhere(), acts);
            PcOf(s, 1) == Some(Returned) && s.dest == Some(1) && s.destMay == {Some(1)} && s.temps == {}
            && 1 in s.files && s.files[1].content == after && s.files[1].durable == Some(after)
  {
    hide CanRun, Run, Steps;
    FirstCallSteps(after);
    FirstCallPublishes(after);
    var e, f, g := File([], OWNER_ONLY, None, {OWNER_ONLY}), File(after, OWNER_ONLY, None, {OWNER_ONLY}),
                   File(after, OWNER_ONLY, Some(after), {OWNER_ONLY});
    var last := First(g, true, 1, Call(after, Returned, false));
    RunNothing(last);
    acts := [Unlink(1)] + [];
    RunCons(First(g, true, 1, Call(after, DirSynced, false)), Unlink(1), last, []);
    RunCons(First(g, true, 0, Call(after, Replaced, false)), SyncDirectory(1), First(g, true, 1, Call(after, DirSynced, false)), acts);
    acts := [SyncDirectory(1)] + acts;
    RunCons(First(g, false, 0, Call(after, Checked(false), false)), Replace(1), First(g, true, 0, Call(after, Replaced, false)), acts);
    acts := [Replace(1)] + acts;
    RunCons(First(g, false, 0, Call(after, Synced, false)), CheckFile(1), First(g, false, 0, Call(after, Checked(false), false)), acts);
    acts := [CheckFile(1)] + acts;
    RunCons(First(f, false, 0, Call(after, Flushed, false)), Fsync(1), First(g, false, 0, Call(after, Synced, false)), acts);
    acts := [Fsync(1)] + acts;
    RunCons(First(e, false, 0, Call(after, Created, false)), Flush(1), First(f, false, 0, Call(after, Flushed, false)), acts);
    acts := [Flush(1)] + acts;
    RunCons(Nowhere(), Create(1, after), First(e, false, 0, Call(after, Created, false)), acts);
    acts := [Create(1, after)] + acts;
  }

  /** Every recovered state is again a settled one, so the guarantees hold across any number of crashes. */
  lemma RecoveredIsSettled(s0: State, acts: seq<Action>, d: Option<nat>, mode: nat, temps: set<nat>)
    requires Settled(s0) && CanRun(s0, acts) && d in Run(s0, acts).destMay
    requires d.Some? && d.value in Run(s0, acts).files ==> mode in Run(s0, acts).files[d.value].durableModes
    ensures d.Some? ==> d.value in Run(s0, acts).files && Run(s0, acts).files[d.value].durable.Some?
    ensures Settled(Recover(Run(s0, acts), d, mode, temps))
  {
    OldOrComplete(s0, acts, d);
  }
}
