/** Exactly when the archives of a finished reset are safe: at the boot after its journal was deleted. */
module ResetDeletions {
  import opened Common
  import opened IdentityReset
  import opened ResetRuns
  import opened ResetBoots

  // ----- What keeps an archive safe although its journal may come back -----

  /** A journal with this stamp is being worked off, or is among the versions of the journal entry. */
  ghost predicate MayResume(s: State, stamp: nat) {
    || (s.pc.Resetting? && s.pc.journal.stamp == stamp)
    || exists v :: v in s.disk.journal && v.Some? && v.value.stamp == stamp
  }

  predicate Gone(d: Disk, f: File) { forall v <- d.slots.Of(f) :: v.live.None? }

  /** Only the sync behind the deletion of the journal is left of a reset. */
  predicate Ending(s: State) { s.pc.Resetting? && s.pc.step + 1 == |Program(s.disk.separate, s.pc.journal)| }

  /**
   * The archive of `f` is there, and the reset that made it is gone for good; or `f` is the
   * credentials, the reset finds none live, and no process may write any before it is gone.
   */
  ghost predicate Guarded(s: State, f: File, stamp: nat, content: string) {
    && Kept(s.disk, f, stamp, content)
    && (MayResume(s, stamp) ==> f == Credentials && Gone(s.disk, f) && s.pc != Working(true))
    && (s.pc.Working? || s.pc.Writing? || Ending(s) ==> Last(s.disk.journal).None?)
  }

  lemma GuardedMove(d: Disk, stamp: nat, g: File, f: File, kept: nat, content: string)
    requires Kept(d, f, kept, content) && (stamp == kept ==> Gone(d, f))
    ensures Kept(Renamed(d, stamp, g), f, kept, content)
    ensures Gone(d, f) ==> Gone(Renamed(d, stamp, g), f)
  {
    RenamedOf(d, stamp, g, f);
    assert Visible(d, f) in d.slots.Of(f);
  }

  lemma GuardedSync(d: Disk, dir: Dir, f: File, kept: nat, content: string)
    requires Kept(d, f, kept, content)
    ensures Kept(Synced(d, dir), f, kept, content)
    ensures Gone(d, f) ==> Gone(Synced(d, dir), f)
  {
    SyncedOf(d, dir, f);
    assert Visible(d, f) in d.slots.Of(f);
  }

  lemma GuardedInstr(d: Disk, stamp: nat, i: Instr, f: File, kept: nat, content: string)
    requires Kept(d, f, kept, content) && (stamp == kept ==> Gone(d, f))
    ensures Kept(Exec(d, stamp, i), f, kept, content)
    ensures Gone(d, f) ==> Gone(Exec(d, stamp, i), f)
    ensures forall v :: v in Exec(d, stamp, i).journal ==> v.None? || v in d.journal
  {
    match i {
      case Sync(dir) => GuardedSync(d, dir, f, kept, content);
      case Move(g) => GuardedMove(d, stamp, g, f, kept, content);
      case Unlink =>
    }
  }

  lemma GuardedContinue(s: State, f: File, stamp: nat, content: string)
    requires Guarded(s, f, stamp, content) && Enabled(s, Continue)
    ensures Guarded(Next(s, Continue), f, stamp, content)
  {
    var j, k := s.pc.journal, s.pc.step;
    GuardedInstr(s.disk, j.stamp, Program(s.disk.separate, j)[k], f, stamp, content);
    LastInstrs(s.disk, j, k);
  }

  lemma LastInstrs(d: Disk, j: Journal, k: nat)
    requires k < |Program(d.separate, j)|
    ensures k + 1 == |Program(d.separate, j)| ==> Program(d.separate, j)[k] == Sync(CredentialsDir)
    ensures k + 2 == |Program(d.separate, j)| ==> Program(d.separate, j)[k] == Unlink
    ensures Exec(d, j.stamp, Program(d.separate, j)[k]).separate == d.separate
  {
    ProgramAt(d.separate, j, k);
  }

  /** Credentials are written only when no journal can come back; a write touches no other file. */
  lemma GuardedWrite(s: State, g: File, c: Option<string>, f: File, stamp: nat, content: string)
    requires Guarded(s, f, stamp, content) && Enabled(s, Write(g, c))
    ensures Guarded(Next(s, Write(g, c)), f, stamp, content)
  {
    WriteKeepsArchive(s.disk, g, c, f, stamp, content);
    WrittenOf(s.disk, g, c, f);
  }

  /** The sync behind the pending secret makes the deletion of the journal durable. */
  lemma GuardedSettle(s: State, dir: Dir, f: File, stamp: nat, content: string)
    requires Guarded(s, f, stamp, content) && Enabled(s, Settle(dir))
    ensures Guarded(Next(s, Settle(dir)), f, stamp, content)
  {
    GuardedSync(s.disk, dir, f, stamp, content);
    assert Last(s.disk.journal) in s.disk.journal;
  }

  lemma GuardedStep(s: State, a: Action, f: File, stamp: nat, content: string)
    requires Guarded(s, f, stamp, content) && Enabled(s, a) && FreshStamp(s, a)
    ensures Guarded(Next(s, a), f, stamp, content)
  {
    match a {
      case Continue => GuardedContinue(s, f, stamp, content);
      case Write(g, c) => GuardedWrite(s, g, c, f, stamp, content);
      case Settle(dir) => GuardedSettle(s, dir, f, stamp, content);
      case PowerLoss(journal, slots) => assert slots.Of(f)[0] in s.disk.slots.Of(f);
      case Begin(j) => assert Visible(s.disk, f) in s.disk.slots.Of(f);
      case Crash =>
      case Boot => assert Last(s.disk.journal) in s.disk.journal;
    }
  }

  lemma {:induction false} GuardedForever(s: State, run: seq<Action>, f: File, stamp: nat, content: string)
    requires Guarded(s, f, stamp, content) && FreshRun(s, run)
    ensures Kept(After(s, run).disk, f, stamp, content)
    decreases |run|
  {
    if |run| > 0 {
      GuardedStep(s, run[0], f, stamp, content);
      GuardedForever(Next(s, run[0]), run[1..], f, stamp, content);
    }
  }

  // ----- The run that overwrites an archive -----

  /** Resuming a reset archives the `f` it finds over whatever had its archive name. */
  lemma MovesOver(s: State, j: Journal, f: File, i: nat, content: string)
    requires s.pc == Resetting(j, 1) && Distinct(j.files) && i < |j.files| && j.files[i] == f
    requires Visible(s.disk, f).live.Some? && Visible(s.disk, f).live.value != content
    ensures GoodRun(s, Continues(i + 1)) && !Kept(After(s, Continues(i + 1)).disk, f, j.stamp, content)
  {
    MovesTo(s, j, 1, i + 1);
    var t := After(s, Continues(i + 1));
    InPrefix(j.files, i);
    Snoc(s.disk.slots.Of(f), Moved(Visible(s.disk, f), j.stamp));
    ArchivedOver(t.disk, j.stamp, f, Visible(s.disk, f), content);
  }

  lemma ArchivedOver(d: Disk, stamp: nat, f: File, slot: Slot, content: string)
    requires slot.live.Some? && slot.live.value != content && Moved(slot, stamp) in d.slots.Of(f)
    ensures !Kept(d, f, stamp, content)
  {
  }

  /** The files as processes see them, with a new `f`. */
  function WithNew(d: Disk, f: File, c: string): Slots {
    d.slots.With(f, [Slot(Some(c), Visible(d, f).archived)])
  }

  /** Of an unsynced rename and an unsynced deletion a power loss may keep the first and undo the second. */
  lemma RenameSurvives(d: Disk, j: Journal, f: File, c: string, e: Disk)
    requires Idle(d.slots) && d.journal == [Some(j), None] && e == Written(d, f, Some(c))
    ensures Survives(e, Some(j), WithNew(d, f, c)) && Visible(e.(slots := WithNew(d, f, c)), f).live == Some(c)
  {
    assert e.journal[0] == Some(j);
    forall h: File ensures |WithNew(d, f, c).Of(h)| == 1 && WithNew(d, f, c).Of(h)[0] in e.slots.Of(h) {
      WithOf(d.slots, f, [Slot(Some(c), Visible(d, f).archived)], h);
      WrittenOf(d, f, Some(c), h);
    }
    WithOf(d.slots, f, [Slot(Some(c), Visible(d, f).archived)], f);
  }

  /** A new `f` is renamed into place; before its directory is synced the power fails, and the journal is back. */
  lemma JournalComesBack(s: State, j: Journal, f: File, c: string)
    requires s.pc.Working? && Idle(s.disk.slots) && s.disk.journal == [Some(j), None] && Enabled(s, Write(f, Some(c)))
    ensures var run := [Write(f, Some(c))] + [PowerLoss(Some(j), WithNew(s.disk, f, c))] + [Boot];
            GoodRun(s, run) && After(s, run).pc == Resetting(j, 1) && Visible(After(s, run).disk, f).live == Some(c)
  {
    var w, loss := Write(f, Some(c)), PowerLoss(Some(j), WithNew(s.disk, f, c));
    var s1 := Next(s, w);
    RenameSurvives(s.disk, j, f, c, s1.disk);
    var s2 := Next(s1, loss);
    OneStep(s, w);
    ThenStep(s, [w], s1, loss);
    ThenStep(s, [w] + [loss], s2, Boot);
  }

  /**
   * The run that overwrites. A process killed between deleting the journal and syncing its
   * directory leaves a deletion that a power loss can undo. If the next process has renamed a new
   * `f` into place by then, before any sync of that directory, the revived journal archives it
   * over the archive of the old one. With one directory or two, this can be every file but the
   * credentials, which come after the sync behind the pending secret.
   */
  lemma OverwritingRun(s: State, j: Journal, f: File, content: string) returns (run: seq<Action>)
    requires s.pc.Working? && Idle(s.disk.slots) && s.disk.journal == [Some(j), None]
    requires Distinct(j.files) && f in j.files && f != Credentials
    requires f == PendingSecret ==> Visible(s.disk, Credentials).live.None?
    ensures GoodRun(s, run) && !Kept(After(s, run).disk, f, j.stamp, content)
  {
    var i :| 0 <= i < |j.files| && j.files[i] == f;
    var c := content + "'";
    assert |c| != |content|;
    var first := [Write(f, Some(c))] + [PowerLoss(Some(j), WithNew(s.disk, f, c))] + [Boot];
    JournalComesBack(s, j, f, c);
    MovesOver(After(s, first), j, f, i, content);
    RunAppend(s, first, Continues(i + 1));
    run := first + Continues(i + 1);
  }

  // ----- The exact condition -----

  /** Whatever the agent does from this boot on, later boots settled or not, the archive `j` made of `f` keeps its content. */
  ghost predicate SafeArchive(s: State, j: Journal, f: File, content: string)
    requires Enabled(s, Boot)
  {
    forall run :: FreshRun(Next(s, Boot), run) ==> Kept(After(Next(s, Boot), run).disk, f, j.stamp, content)
  }

  /**
   * The exact condition: after a finished reset, the archive of a file is safe if and only if the
   * deletion of the journal is durable, or the file is the credentials, whose successor is written
   * only after a sync of the journal's directory. The state is reached from every settled one
   * (KilledBeforeLastSync).
   */
  lemma SettledDeletionIsExact(s: State, f: File)
    requires ResetOk(s.base, s.last) && s.pc.Down? && s.disk.slots == Final(s.base, s.last)
    requires s.disk.journal == [Some(s.last), None] || s.disk.journal == [None]
    requires f in s.last.files && Last(s.base.Of(f)).live.Some?
    ensures SafeArchive(s, s.last, f, Last(s.base.Of(f)).live.value) <==> |s.disk.journal| == 1 || f == Credentials
  {
    var j, content, v := s.last, Last(s.base.Of(f)).live.value, Next(s, Boot);
    FinalIdle(s.base, j);
    FinalIsArchived(s, s.base, j, f);
    if |s.disk.journal| == 1 || f == Credentials {
      FinalOf(s.base, j, f);
      assert Guarded(v, f, j.stamp, content);
      forall run | FreshRun(v, run) ensures Kept(After(v, run).disk, f, j.stamp, content) {
        GuardedForever(v, run, f, j.stamp, content);
      }
    } else {
      FinalOf(s.base, j, Credentials);
      var run := OverwritingRun(v, j, f, content);
      GoodIsFresh(v, run);
    }
  }

  lemma {:induction false} ContinuesSnoc(n: nat)
    ensures Continues(n + 1) == Continues(n) + [Continue]
  {
    if n > 0 { ContinuesSnoc(n - 1); }
  }

  /** What a process at step `k` of a reset does next. */
  lemma StepAt(s: State, j: Journal, k: nat)
    requires s.pc == Resetting(j, k) && k + 1 < |Program(s.disk.separate, j)|
    ensures Enabled(s, Continue)
    ensures Next(s, Continue) == s.(disk := Exec(s.disk, j.stamp, Program(s.disk.separate, j)[k]), pc := Resetting(j, k + 1))
    ensures Next(s, Continue).disk.separate == s.disk.separate
  {
    ExecKeepsSeparate(s.disk, j.stamp, Program(s.disk.separate, j)[k]);
  }

  /** Continuing is executing the program of the reset. */
  lemma {:induction false} ContinuesExecute(s: State, j: Journal, p: seq<Instr>, n: nat) returns (t: State)
    requires s.pc == Resetting(j, 0) && p == Program(s.disk.separate, j) && n < |p|
    ensures GoodRun(s, Continues(n)) && t == After(s, Continues(n))
    ensures t == s.(disk := ExecAll(s.disk, j.stamp, p[..n]), pc := Resetting(j, n)) && t.disk.separate == s.disk.separate
  {
    if n == 0 {
      t := s;
      assert p[..0] == [];
    } else {
      var before := ContinuesExecute(s, j, p, n - 1);
      StepAt(before, j, n - 1);
      ContinuesSnoc(n - 1);
      ThenStep(s, Continues(n - 1), before, Continue);
      PrefixSnoc(s.disk, j.stamp, p, n);
      t := Next(before, Continue);
    }
  }

  lemma StageStep(separate: bool, base: Slots, j: Journal, p: seq<Instr>, e: Disk, k: nat)
    requires ResetOk(base, j) && p == Program(separate, j) && k < |p| && e.separate == separate && Stage(e, base, j, k)
    ensures Exec(e, j.stamp, p[k]).separate == separate && Stage(Exec(e, j.stamp, p[k]), base, j, k + 1)
  {
    ExecKeepsSeparate(e, j.stamp, p[k]);
    ProgramStep(e, base, j, k);
  }

  /** The disk before the last instruction, the sync behind the deletion of the journal. */
  lemma DiskBeforeLastSync(d: Disk, base: Slots, j: Journal, p: seq<Instr>, n: nat)
    requires ResetOk(base, j) && Stage(d, base, j, 0) && p == Program(d.separate, j) && n + 1 == |p|
    ensures ExecAll(d, j.stamp, p[..n]) == Disk(d.separate, [Some(j), None], Final(base, j))
  {
    var holds := (e: Disk, k: nat) => e.separate == d.separate && Stage(e, base, j, k);
    forall e, k | 0 <= k < |p| && holds(e, k) ensures holds(Exec(e, j.stamp, p[k]), k + 1) {
      StageStep(d.separate, base, j, p, e, k);
    }
    Carried(d, j.stamp, p, n, holds);
  }

  /** Being killed after `n` instructions leaves what they did. */
  lemma KilledAfter(s: State, j: Journal, p: seq<Instr>, n: nat, e: Disk)
    requires s.pc == Resetting(j, 0) && p == Program(s.disk.separate, j) && n < |p| && e == ExecAll(s.disk, j.stamp, p[..n])
    ensures GoodRun(s, Continues(n) + [Crash]) && After(s, Continues(n) + [Crash]) == s.(disk := e, pc := Down)
  {
    var t := ContinuesExecute(s, j, p, n);
    ThenStep(s, Continues(n), t, Crash);
  }

  lemma Begun(s: State, j: Journal, v: State)
    requires s.disk.journal == [None] && Enabled(s, Begin(j)) && Good(s, Begin(j)) && v == Next(s, Begin(j))
    ensures v == State(v.disk, Resetting(j, 0), s.disk.slots, j) && v.disk.separate == s.disk.separate
    ensures ResetOk(s.disk.slots, j) && Stage(v.disk, s.disk.slots, j, 0)
  {
    DistinctFiles(j);
  }

  /** A process killed right after the deletion of the journal: the state above, from any settled one. */
  lemma KilledBeforeLastSync(s: State, j: Journal) returns (run: seq<Action>)
    requires s.pc.Working? && s.disk.journal == [None] && Enabled(s, Begin(j)) && Good(s, Begin(j))
    ensures GoodRun(s, run)
    ensures After(s, run) == State(Disk(s.disk.separate, [Some(j), None], Final(s.disk.slots, j)), Down, s.disk.slots, j)
  {
    var v, p := Next(s, Begin(j)), Program(s.disk.separate, j);
    var n: nat := |p| - 1;
    Begun(s, j, v);
    DiskBeforeLastSync(v.disk, s.disk.slots, j, p, n);
    KilledAfter(v, j, p, n, Disk(s.disk.separate, [Some(j), None], Final(s.disk.slots, j)));
    run := BeginThen(s, j, Continues(n) + [Crash]);
  }

  lemma BeginThen(s: State, j: Journal, rest: seq<Action>) returns (run: seq<Action>)
    requires Enabled(s, Begin(j)) && Good(s, Begin(j)) && GoodRun(Next(s, Begin(j)), rest)
    ensures GoodRun(s, run) && After(s, run) == After(Next(s, Begin(j)), rest)
  {
    OneStep(s, Begin(j));
    RunAppend(s, [Begin(j)], rest);
    run := [Begin(j)] + rest;
  }
}
