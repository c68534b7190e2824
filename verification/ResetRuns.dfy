/** Resets across process crashes and power losses at any step. */
module ResetRuns {
  import opened Common
  import opened IdentityReset

  /**
   * Where the process is: not running; running the agent (`ready` once it has written the pending
   * secret and synced its directory); waiting for the sync behind a secret it has just renamed into
   * place; or at a step of a reset.
   */
  datatype Pc = Down | Working(ready: bool) | Writing | Resetting(journal: Journal, step: nat)

  /**
   * `base` and `last` are history: the files when the last reset began, as far as the power losses
   * since have left them, and its journal.
   */
  datatype State = State(disk: Disk, pc: Pc, base: Slots, last: Journal)

  datatype Action =
    | Begin(journal: Journal)
    | Continue
    | Crash
    | PowerLoss(survivor: Option<Journal>, slots: Slots)
    | Boot
    | Write(file: File, content: Option<string>)
    | Settle(dir: Dir)

  /** What a power loss may leave: one version of every entry, chosen independently. */
  predicate Survives(d: Disk, journal: Option<Journal>, slots: Slots) {
    && journal in d.journal
    && forall f: File :: |slots.Of(f)| == 1 && slots.Of(f)[0] in d.slots.Of(f)
  }

  /**
   * The order of the agent's own writes. A pending secret is written only while there are no
   * credentials, and credentials only by a process whose pending secret is durable; the database
   * files may come first, with saved credentials or with ones from the environment, and SQLite
   * also deletes some of them.
   */
  predicate MayWrite(s: State, f: File, content: Option<string>)
    requires s.pc.Working?
  {
    match f
    case Credentials => content.Some? && s.pc.ready
    case PendingSecret => content.Some? && Visible(s.disk, Credentials).live.None?
    case _ => true
  }

  predicate Enabled(s: State, a: Action) {
    match a
    case Begin(j) => s.pc.Working? && (j.files == STATE_FILES || j.files == IDENTITY_FILES)
    case Continue => s.pc.Resetting? && s.pc.step < |Program(s.disk.separate, s.pc.journal)|
    case Crash => true
    case PowerLoss(j, slots) => Survives(s.disk, j, slots)
    case Boot => s.pc.Down?
    case Write(f, c) => s.pc.Working? && MayWrite(s, f, c)
    case Settle(dir) => s.pc.Working? || (s.pc.Writing? && dir == CredentialsDir)
  }

  /** What a slot was before the reset with this stamp moved it, if it did. */
  function Origin(v: Slot, stamp: nat): Slot {
    if v.live.None? && stamp in v.archived then Slot(Some(v.archived[stamp]), v.archived - {stamp}) else v
  }

  function Origins(slots: Slots, stamp: nat): Slots {
    Slots([Origin(Last(slots.credentials), stamp)], [Origin(Last(slots.pendingSecret), stamp)],
          [Origin(Last(slots.database), stamp)], [Origin(Last(slots.wal), stamp)], [Origin(Last(slots.shm), stamp)])
  }

  function Next(s: State, a: Action): State
    requires Enabled(s, a)
  {
    match a
    case Begin(j) =>
      State(s.disk.(journal := s.disk.journal + [Some(j)]), Resetting(j, 0), s.disk.slots, j)
    case Continue =>
      var j, k := s.pc.journal, s.pc.step;
      var program := Program(s.disk.separate, j);
      s.(disk := Exec(s.disk, j.stamp, program[k]),
         pc := if k + 1 == |program| then Working(false) else Resetting(j, k + 1))
    case Crash => s.(pc := Down)
    case PowerLoss(j, slots) =>
      State(s.disk.(journal := [j], slots := slots), Down, Origins(slots, s.last.stamp), s.last)
    case Boot =>
      var j := Last(s.disk.journal);
      s.(pc := if j.Some? then Resetting(j.value, 1) else Working(false))
    case Write(f, c) =>
      // A secret is followed by the sync of its directory before anything else is done.
      s.(disk := Written(s.disk, f, c), pc := if f.Credentials? || f.PendingSecret? then Writing else s.pc)
    case Settle(dir) =>
      s.(disk := Synced(s.disk, dir), pc := if s.pc.Writing? then Working(true) else s.pc)
  }

  predicate Idle(slots: Slots) { forall f: File :: |slots.Of(f)| == 1 }

  predicate Fresh(slots: Slots, stamp: nat) { forall f: File :: forall v <- slots.Of(f) :: stamp !in v.archived }

  /**
   * The two conditions under which the reset is atomic: a new reset takes a stamp no archive
   * uses, and a process starts only when nothing about the journal entry is unsynced.
   */
  predicate Good(s: State, a: Action) {
    FreshStamp(s, a) && (a.Boot? ==> |s.disk.journal| == 1)
  }

  predicate FreshStamp(s: State, a: Action) { a.Begin? ==> Fresh(s.disk.slots, a.journal.stamp) }

  predicate Legal(s: State, run: seq<Action>)
    decreases |run|
  {
    |run| > 0 ==> Enabled(s, run[0]) && Legal(Next(s, run[0]), run[1..])
  }

  predicate GoodRun(s: State, run: seq<Action>)
    ensures GoodRun(s, run) ==> Legal(s, run)
    decreases |run|
  {
    |run| > 0 ==> Enabled(s, run[0]) && Good(s, run[0]) && GoodRun(Next(s, run[0]), run[1..])
  }

  /** A run that may boot at any time. */
  predicate FreshRun(s: State, run: seq<Action>)
    ensures FreshRun(s, run) ==> Legal(s, run)
    decreases |run|
  {
    |run| > 0 ==> Enabled(s, run[0]) && FreshStamp(s, run[0]) && FreshRun(Next(s, run[0]), run[1..])
  }

  lemma {:induction false} GoodIsFresh(s: State, run: seq<Action>)
    requires GoodRun(s, run)
    ensures FreshRun(s, run)
    decreases |run|
  {
    if |run| > 0 { GoodIsFresh(Next(s, run[0]), run[1..]); }
  }

  function After(s: State, run: seq<Action>): State
    requires Legal(s, run)
    decreases |run|
  {
    if |run| == 0 then s else After(Next(s, run[0]), run[1..])
  }

  // ----- What a reset is meant to do -----

  function FinalSlot(base: Slots, j: Journal, f: File): Versions {
    var slot := Last(base.Of(f));
    [if f in j.files then Moved(slot, j.stamp) else slot]
  }

  /** Every file of the reset archived under its one stamp, every other file as it was. */
  function Final(base: Slots, j: Journal): Slots {
    Slots(FinalSlot(base, j, Credentials), FinalSlot(base, j, PendingSecret), FinalSlot(base, j, Database),
          FinalSlot(base, j, Wal), FinalSlot(base, j, Shm))
  }

  lemma SlotsExtensional(a: Slots, b: Slots)
    requires forall f: File :: a.Of(f) == b.Of(f)
    ensures a == b
  {
    assert a.Of(Credentials) == b.Of(Credentials) && a.Of(PendingSecret) == b.Of(PendingSecret)
        && a.Of(Database) == b.Of(Database) && a.Of(Wal) == b.Of(Wal) && a.Of(Shm) == b.Of(Shm);
  }

  lemma FinalOf(base: Slots, j: Journal, f: File)
    ensures Final(base, j).Of(f) == FinalSlot(base, j, f)
  {
  }

  lemma WithOf(slots: Slots, f: File, v: Versions, g: File)
    ensures slots.With(f, v).Of(g) == if f == g then v else slots.Of(g)
  {
  }

  lemma RenamedOf(d: Disk, stamp: nat, f: File, g: File)
    ensures Renamed(d, stamp, f).slots.Of(g)
         == if f == g && Visible(d, f).live.Some? then d.slots.Of(f) + [Moved(Visible(d, f), stamp)] else d.slots.Of(g)
  {
    WithOf(d.slots, f, d.slots.Of(f) + [Moved(Visible(d, f), stamp)], g);
  }

  lemma SyncedOf(d: Disk, dir: Dir, f: File)
    ensures Synced(d, dir).slots.Of(f) == Settled(d, dir, f)
  {
  }

  // ----- The invariant -----

  predicate Distinct(files: seq<File>) {
    forall a, b :: 0 <= a < b < |files| ==> files[a] != files[b]
  }

  /** Every reset covers the database, and the credentials together with the pending secret. */
  predicate Covered(files: seq<File>) {
    && Database in files && Wal in files && Shm in files
    && (PendingSecret in files <==> Credentials in files)
  }

  ghost predicate ResetOk(base: Slots, j: Journal) {
    Distinct(j.files) && Covered(j.files) && Fresh(base, j.stamp)
  }

  /** A file of the reset: processes see it where it was or where it goes, a power loss may leave any earlier version. */
  ghost predicate Midmove(versions: Versions, before: Versions, stamp: nat) {
    && (Last(versions) == Last(before) || Last(versions) == Moved(Last(before), stamp))
    && forall v <- versions :: v in before || v == Moved(Last(before), stamp)
  }

  /** Each file of the reset is where it started or where it is going; no other file is touched. */
  ghost predicate Partial(slots: Slots, base: Slots, j: Journal) {
    && (forall f: File :: f !in j.files ==> slots.Of(f) == [Last(base.Of(f))])
    && (forall f: File :: f in j.files ==> Midmove(slots.Of(f), base.Of(f), j.stamp))
  }

  ghost predicate MovedUpTo(d: Disk, base: Slots, j: Journal, m: int) {
    forall i :: 0 <= i < |j.files| && i < m ==> Visible(d, j.files[i]) == Moved(Last(base.Of(j.files[i])), j.stamp)
  }

  ghost predicate SettledIn(d: Disk, j: Journal, dirs: seq<Dir>) {
    forall f <- j.files :: DirOf(d.separate, f) in dirs ==> |d.slots.Of(f)| == 1
  }

  /** `k` instructions of the program are done. */
  ghost predicate Stage(d: Disk, base: Slots, j: Journal, k: nat) {
    var n, dirs := |j.files|, DirsOf(d.separate, j.files);
    if k == 0 then d.journal == [None, Some(j)] && d.slots == base
    else if k <= n + |dirs| + 1 then
      && d.journal == [Some(j)]
      && Partial(d.slots, base, j)
      && MovedUpTo(d, base, j, k - 1)
      && (k > n ==> SettledIn(d, j, dirs[..k - 1 - n]))
    else if k == n + |dirs| + 2 then d.journal == [Some(j), None] && d.slots == Final(base, j)
    else d.journal == [None] && d.slots == Final(base, j)
  }

  lemma DistinctFiles(j: Journal)
    requires j.files == STATE_FILES || j.files == IDENTITY_FILES
    ensures Distinct(j.files) && Covered(j.files)
  {
  }

  lemma MoveKeepsPartial(d: Disk, base: Slots, j: Journal, f: File)
    requires f in j.files && Partial(d.slots, base, j)
    ensures Partial(Renamed(d, j.stamp, f).slots, base, j)
  {
    assert Visible(d, f) in d.slots.Of(f);
    forall g: File ensures g != f ==> Renamed(d, j.stamp, f).slots.Of(g) == d.slots.Of(g) {
      RenamedOf(d, j.stamp, f, g);
    }
    RenamedOf(d, j.stamp, f, f);
  }

  lemma MoveStep(d: Disk, base: Slots, j: Journal, i: nat)
    requires Distinct(j.files)
    requires i < |j.files| && Partial(d.slots, base, j) && MovedUpTo(d, base, j, i)
    ensures MovedUpTo(Renamed(d, j.stamp, j.files[i]), base, j, i + 1)
  {
    var f := j.files[i];
    assert Visible(d, f) in d.slots.Of(f);
    forall k | 0 <= k < i ensures Visible(Renamed(d, j.stamp, f), j.files[k]) == Visible(d, j.files[k]) {
      RenamedOf(d, j.stamp, f, j.files[k]);
    }
    RenamedOf(d, j.stamp, f, f);
  }

  lemma SyncedVisible(d: Disk, dir: Dir, f: File)
    ensures Visible(Synced(d, dir), f) == Visible(d, f) && Visible(d, f) in d.slots.Of(f)
  {
    SyncedOf(d, dir, f);
  }

  lemma SyncKeepsPartial(d: Disk, base: Slots, j: Journal, dir: Dir)
    requires Partial(d.slots, base, j)
    ensures Partial(Synced(d, dir).slots, base, j)
  {
    forall f: File ensures Synced(d, dir).slots.Of(f) == d.slots.Of(f) || Synced(d, dir).slots.Of(f) == [Last(d.slots.Of(f))] {
      SyncedOf(d, dir, f);
    }
    forall f: File | f in j.files ensures Midmove(Synced(d, dir).slots.Of(f), base.Of(f), j.stamp) {
      assert Last(d.slots.Of(f)) in d.slots.Of(f);
    }
  }

  lemma SyncStep(d: Disk, base: Slots, j: Journal, dir: Dir, dirs: seq<Dir>)
    requires MovedUpTo(d, base, j, |j.files|) && SettledIn(d, j, dirs)
    ensures MovedUpTo(Synced(d, dir), base, j, |j.files|) && SettledIn(Synced(d, dir), j, dirs + [dir])
  {
    forall f <- j.files
      ensures Synced(d, dir).slots.Of(f) == Settled(d, dir, f) && Visible(Synced(d, dir), f) == Visible(d, f)
    {
      SyncedOf(d, dir, f);
      SyncedVisible(d, dir, f);
    }
  }

  lemma AllMoved(d: Disk, base: Slots, j: Journal)
    requires ResetOk(base, j) && Stage(d, base, j, |j.files| + |DirsOf(d.separate, j.files)| + 1)
    ensures d.slots == Final(base, j)
  {
    var dirs := DirsOf(d.separate, j.files);
    assert dirs[..|dirs|] == dirs;
    forall f: File ensures d.slots.Of(f) == Final(base, j).Of(f) { FileMoved(d, base, j, f); }
    SlotsExtensional(d.slots, Final(base, j));
  }

  lemma FileMoved(d: Disk, base: Slots, j: Journal, f: File)
    requires ResetOk(base, j) && Partial(d.slots, base, j) && MovedUpTo(d, base, j, |j.files|)
    requires SettledIn(d, j, DirsOf(d.separate, j.files))
    ensures d.slots.Of(f) == Final(base, j).Of(f)
  {
    FinalOf(base, j, f);
    if f in j.files {
      var i :| 0 <= i < |j.files| && j.files[i] == f;
      assert |d.slots.Of(f)| == 1;
    }
  }

  lemma IdleSync(d: Disk, dir: Dir)
    requires Idle(d.slots)
    ensures Synced(d, dir).slots == d.slots
  {
    forall f: File ensures Synced(d, dir).slots.Of(f) == d.slots.Of(f) { SyncedOf(d, dir, f); }
    SlotsExtensional(Synced(d, dir).slots, d.slots);
  }

  /** A power loss has no choice among settled files. */
  lemma IdleSurvivor(d: Disk, journal: Option<Journal>, slots: Slots)
    requires Idle(d.slots) && Survives(d, journal, slots)
    ensures slots == d.slots
  {
    forall f: File ensures slots.Of(f) == d.slots.Of(f) {}
    SlotsExtensional(slots, d.slots);
  }

  lemma FinalIdle(base: Slots, j: Journal)
    ensures Idle(Final(base, j))
  {
    forall f: File ensures |Final(base, j).Of(f)| == 1 { FinalOf(base, j, f); }
  }

  lemma ProgramAt(separate: bool, j: Journal, k: nat)
    requires k < |Program(separate, j)|
    ensures var n, dirs := |j.files|, DirsOf(separate, j.files);
            Program(separate, j)[k] ==
              if k == 0 then Sync(CredentialsDir)
              else if k <= n then Move(j.files[k - 1])
              else if k <= n + |dirs| then Sync(dirs[k - 1 - n])
              else if k == n + |dirs| + 1 then Unlink
              else Sync(CredentialsDir)
  {
  }

  lemma ExecKeepsSeparate(d: Disk, stamp: nat, i: Instr)
    ensures Exec(d, stamp, i).separate == d.separate
  {
  }

  lemma MovePhase(d: Disk, base: Slots, j: Journal, k: nat, e: Disk)
    requires ResetOk(base, j) && 1 <= k <= |j.files| && Stage(d, base, j, k)
    requires e == Renamed(d, j.stamp, j.files[k - 1])
    ensures Stage(e, base, j, k + 1)
  {
    MoveFacts(d, base, j, k, e);
    MovedStage(e, base, j, k);
  }

  lemma MoveFacts(d: Disk, base: Slots, j: Journal, k: nat, e: Disk)
    requires Distinct(j.files) && 1 <= k <= |j.files| && e == Renamed(d, j.stamp, j.files[k - 1])
    requires d.journal == [Some(j)] && Partial(d.slots, base, j) && MovedUpTo(d, base, j, k - 1)
    ensures e.journal == [Some(j)] && Partial(e.slots, base, j) && MovedUpTo(e, base, j, k)
  {
    MoveKeepsPartial(d, base, j, j.files[k - 1]);
    MoveStep(d, base, j, k - 1);
  }

  lemma MovedStage(e: Disk, base: Slots, j: Journal, k: nat)
    requires 1 <= k <= |j.files| && e.journal == [Some(j)] && Partial(e.slots, base, j) && MovedUpTo(e, base, j, k)
    ensures Stage(e, base, j, k + 1)
  {
    assert DirsOf(e.separate, j.files)[..0] == [];
    assert SettledIn(e, j, []);
  }

  lemma SyncPhase(d: Disk, base: Slots, j: Journal, i: nat, e: Disk)
    requires ResetOk(base, j) && i < |DirsOf(d.separate, j.files)| && Stage(d, base, j, |j.files| + 1 + i)
    requires e == Synced(d, DirsOf(d.separate, j.files)[i])
    ensures Stage(e, base, j, |j.files| + 2 + i)
  {
    var dirs := DirsOf(d.separate, j.files);
    SyncKeepsPartial(d, base, j, dirs[i]);
    SyncStep(d, base, j, dirs[i], dirs[..i]);
    TakeSnoc(dirs, i);
    AllSynced(e, base, j, i, dirs);
  }

  lemma AllSynced(e: Disk, base: Slots, j: Journal, i: nat, dirs: seq<Dir>)
    requires dirs == DirsOf(e.separate, j.files) && i < |dirs| && e.journal == [Some(j)]
    requires Partial(e.slots, base, j) && MovedUpTo(e, base, j, |j.files|) && SettledIn(e, j, dirs[..i + 1])
    ensures Stage(e, base, j, |j.files| + 2 + i)
  {
    assert MovedUpTo(e, base, j, |j.files| + 1 + i);
  }

  /** The files a reset leaves alone lie beside the journal, and are settled by its first sync. */
  lemma FirstSync(d: Disk, base: Slots, j: Journal, e: Disk)
    requires ResetOk(base, j) && Stage(d, base, j, 0) && e == Synced(d, CredentialsDir)
    ensures Stage(e, base, j, 1)
  {
    forall f: File
      ensures f !in j.files ==> e.slots.Of(f) == [Last(base.Of(f))]
      ensures Midmove(e.slots.Of(f), base.Of(f), j.stamp)
    {
      SyncedOf(d, CredentialsDir, f);
    }
    ResumeStage(e, base, j);
  }

  lemma ResumeStage(d: Disk, base: Slots, j: Journal)
    requires d.journal == [Some(j)] && Partial(d.slots, base, j) && Covered(j.files)
    ensures Stage(d, base, j, 1)
  {
  }

  lemma DropPhase(d: Disk, base: Slots, j: Journal, k: nat, e: Disk)
    requires ResetOk(base, j) && k == |j.files| + |DirsOf(d.separate, j.files)| + 1 && Stage(d, base, j, k)
    requires e == d.(journal := d.journal + [None])
    ensures Stage(e, base, j, k + 1)
  {
    AllMoved(d, base, j);
  }

  lemma LastSync(d: Disk, base: Slots, j: Journal, k: nat, e: Disk)
    requires ResetOk(base, j) && k == |j.files| + |DirsOf(d.separate, j.files)| + 2 && Stage(d, base, j, k)
    requires e == Synced(d, CredentialsDir)
    ensures Stage(e, base, j, k + 1)
  {
    FinalIdle(base, j);
    IdleSync(d, CredentialsDir);
  }

  /** What instruction `k` of a reset makes of the disk. */
  predicate Becomes(d: Disk, j: Journal, k: nat, e: Disk) {
    var n, dirs := |j.files|, DirsOf(d.separate, j.files);
    e == if k == 0 then Synced(d, CredentialsDir)
         else if k <= n then Renamed(d, j.stamp, j.files[k - 1])
         else if k <= n + |dirs| then Synced(d, dirs[k - 1 - n])
         else if k == n + |dirs| + 1 then d.(journal := d.journal + [None])
         else Synced(d, CredentialsDir)
  }

  lemma ExecAt(d: Disk, j: Journal, k: nat, e: Disk)
    requires k < |Program(d.separate, j)| && e == Exec(d, j.stamp, Program(d.separate, j)[k])
    ensures Becomes(d, j, k, e)
  {
    ProgramAt(d.separate, j, k);
  }

  lemma PhaseStep(d: Disk, base: Slots, j: Journal, k: nat, e: Disk)
    requires ResetOk(base, j) && k < |j.files| + |DirsOf(d.separate, j.files)| + 3 && Stage(d, base, j, k) && Becomes(d, j, k, e)
    ensures Stage(e, base, j, k + 1)
  {
    var n, m := |j.files|, |DirsOf(d.separate, j.files)|;
    if k == 0 {
      FirstSync(d, base, j, e);
    } else if k <= n {
      MovePhase(d, base, j, k, e);
    } else if k <= n + m {
      SyncPhase(d, base, j, k - 1 - n, e);
    } else if k == n + m + 1 {
      DropPhase(d, base, j, k, e);
    } else {
      LastSync(d, base, j, k, e);
    }
  }

  lemma ProgramStep(d: Disk, base: Slots, j: Journal, k: nat)
    requires ResetOk(base, j) && k < |Program(d.separate, j)| && Stage(d, base, j, k)
    ensures Stage(Exec(d, j.stamp, Program(d.separate, j)[k]), base, j, k + 1)
  {
    var e := Exec(d, j.stamp, Program(d.separate, j)[k]);
    ExecAt(d, j, k, e);
    PhaseStep(d, base, j, k, e);
  }

  ghost predicate Inv(s: State) {
    var d, j := s.disk, s.last;
    match s.pc
    case Working(_) => d.journal == [None]
    case Writing => d.journal == [None]
    case Resetting(r, k) => r == j && ResetOk(s.base, j) && k < |Program(d.separate, j)| && Stage(d, s.base, j, k)
    case Down =>
      || d.journal == [None]
      || (ResetOk(s.base, j) && d.journal == [None, Some(j)] && d.slots == s.base)
      || (ResetOk(s.base, j) && d.journal == [Some(j)] && Partial(d.slots, s.base, j))
      || (ResetOk(s.base, j) && d.journal == [Some(j), None] && d.slots == Final(s.base, j))
  }

  lemma CrashKeepsInv(s: State)
    requires Inv(s)
    ensures Inv(s.(pc := Down))
  {
  }

  lemma OriginsOf(slots: Slots, stamp: nat, f: File)
    ensures Origins(slots, stamp).Of(f) == [Origin(Last(slots.Of(f)), stamp)]
  {
  }

  lemma OriginOfMoved(u: Slot, stamp: nat)
    requires stamp !in u.archived
    ensures Origin(u, stamp) == u && Origin(Moved(u, stamp), stamp) == u
  {
  }

  /** A slot a power loss may leave of a file during a reset: some version it began with, or the moved one. */
  ghost predicate Leftover(v: Slot, before: Versions, stamp: nat) {
    v in before || v == Moved(Last(before), stamp)
  }

  /** After a power loss the reset goes on as if it had begun with the files as the power loss left them. */
  lemma Rebased(slots: Slots, base: Slots, j: Journal)
    requires ResetOk(base, j)
    requires forall f: File :: |slots.Of(f)| == 1 && Leftover(slots.Of(f)[0], base.Of(f), j.stamp)
    requires forall f: File :: f !in j.files ==> slots.Of(f)[0] in base.Of(f)
    ensures ResetOk(Origins(slots, j.stamp), j) && Partial(slots, Origins(slots, j.stamp), j)
  {
    forall f: File
      ensures Origins(slots, j.stamp).Of(f) == [Origin(slots.Of(f)[0], j.stamp)]
      ensures j.stamp !in Origin(slots.Of(f)[0], j.stamp).archived
      ensures f !in j.files ==> slots.Of(f) == [Origin(slots.Of(f)[0], j.stamp)]
      ensures Midmove(slots.Of(f), [Origin(slots.Of(f)[0], j.stamp)], j.stamp)
    {
      OriginsOf(slots, j.stamp, f);
      RebasedFile(slots.Of(f), base.Of(f), j.stamp);
    }
  }

  lemma RebasedFile(left: Versions, before: Versions, stamp: nat)
    requires |left| == 1 && Leftover(left[0], before, stamp) && forall u <- before :: stamp !in u.archived
    ensures stamp !in Origin(left[0], stamp).archived
    ensures left[0] in before ==> left == [Origin(left[0], stamp)]
    ensures Midmove(left, [Origin(left[0], stamp)], stamp)
  {
    var u := if left[0] in before then left[0] else Last(before);
    assert u in before;
    OriginOfMoved(u, stamp);
  }

  lemma LeftoverOfPartial(slots: Slots, base: Slots, j: Journal, left: Slots)
    requires Partial(slots, base, j)
    requires forall f: File :: |left.Of(f)| == 1 && left.Of(f)[0] in slots.Of(f)
    ensures forall f: File :: Leftover(left.Of(f)[0], base.Of(f), j.stamp)
    ensures forall f: File :: f !in j.files ==> left.Of(f)[0] in base.Of(f)
  {
  }

  lemma FinalIsPartial(base: Slots, j: Journal)
    ensures Partial(Final(base, j), base, j)
  {
    forall f: File ensures Final(base, j).Of(f) == FinalSlot(base, j, f) { FinalOf(base, j, f); }
  }

  /** A journal that a power loss may bring back is that of the last reset, and its files are on their way. */
  lemma NamedReset(s: State, j: Journal)
    requires Inv(s) && Some(j) in s.disk.journal
    ensures j == s.last && ResetOk(s.base, j) && (s.disk.slots == s.base || Partial(s.disk.slots, s.base, j))
  {
    if s.disk.slots == Final(s.base, s.last) {
      FinalIsPartial(s.base, s.last);
    } else if s.pc.Resetting? {
      NamedMidway(s.disk, s.base, s.last, s.pc.step);
    }
  }

  lemma NamedMidway(d: Disk, base: Slots, j: Journal, k: nat)
    requires Stage(d, base, j, k) && d.slots != Final(base, j)
    ensures (forall v <- d.journal :: v.Some? ==> v == Some(j)) && (d.slots == base || Partial(d.slots, base, j))
  {
  }

  lemma PowerLossKeepsInv(s: State, journal: Option<Journal>, slots: Slots)
    requires Inv(s) && Survives(s.disk, journal, slots)
    ensures Inv(Next(s, PowerLoss(journal, slots)))
  {
    if journal.Some? {
      NamedReset(s, journal.value);
      if Partial(s.disk.slots, s.base, s.last) { LeftoverOfPartial(s.disk.slots, s.base, s.last, slots); }
      Rebased(slots, s.base, s.last);
    }
  }

  lemma StepKeepsInv(s: State, a: Action)
    requires Inv(s) && Enabled(s, a) && Good(s, a)
    ensures Inv(Next(s, a))
  {
    match a {
      case Begin(j) => DistinctFiles(j);
      case Continue =>
        var k := s.pc.step;
        ProgramStep(s.disk, s.base, s.last, k);
        ExecKeepsSeparate(s.disk, s.last.stamp, Program(s.disk.separate, s.last)[k]);
        FinalIdle(s.base, s.last);
      case Crash => CrashKeepsInv(s);
      case PowerLoss(j, slots) => PowerLossKeepsInv(s, j, slots);
      case Boot =>
      case Write(_, _) =>
      case Settle(_) =>
    }
  }

  lemma {:induction false} GoodRunKeepsInv(s: State, run: seq<Action>)
    requires Inv(s) && GoodRun(s, run)
    ensures Inv(After(s, run))
    decreases |run|
  {
    if |run| > 0 {
      StepKeepsInv(s, run[0]);
      GoodRunKeepsInv(Next(s, run[0]), run[1..]);
    }
  }

  // ----- What a reset reports -----

  /** The files that are there, in order. */
  function LiveOf(d: Disk, files: seq<File>): seq<File> {
    if |files| == 0 then []
    else LiveOf(d, files[..|files| - 1]) + if Visible(d, Last(files)).live.Some? then [Last(files)] else []
  }

  lemma {:induction false} MovesLeave(d: Disk, stamp: nat, files: seq<File>, f: File)
    requires f !in files
    ensures Visible(ExecAll(d, stamp, Moves(files)), f) == Visible(d, f)
  {
    if |files| > 0 {
      var n := |files| - 1;
      MovesLeave(d, stamp, files[..n], f);
      assert files[..n + 1] == files;
      MovesSnoc(files, n);
      ExecSnoc(d, stamp, Moves(files[..n]), Move(files[n]));
      RenamedSlot(ExecAll(d, stamp, Moves(files[..n])), stamp, files[n], f);
    }
  }

  /** The files a reset reports as archived are those that were there before it. */
  lemma {:induction false} ReportsWhatWasThere(d: Disk, stamp: nat, files: seq<File>)
    requires Distinct(files)
    ensures Found(d, stamp, files) == LiveOf(d, files)
  {
    if |files| > 0 {
      var n := |files| - 1;
      ReportsWhatWasThere(d, stamp, files[..n]);
      assert files[n] !in files[..n];
      MovesLeave(d, stamp, files[..n], files[n]);
    }
  }

  // ----- Main results -----

  /**
   * All or nothing: at every step of a reset, first run or resumed, whatever a power loss
   * leaves either still names the reset in its journal, or is made of versions from before it,
   * or shows every move of it.
   */
  lemma AllOrNothing(s0: State, run: seq<Action>, journal: Option<Journal>, slots: Slots)
    requires Inv(s0) && GoodRun(s0, run)
    requires After(s0, run).pc.Resetting? && Survives(After(s0, run).disk, journal, slots)
    ensures var s := After(s0, run);
            || journal == Some(s.pc.journal)
            || (journal.None? && forall f: File :: slots.Of(f)[0] in s.base.Of(f) && s.last.stamp !in slots.Of(f)[0].archived)
            || (journal.None? && slots == Final(s.base, s.pc.journal))
  {
    GoodRunKeepsInv(s0, run);
    var s := After(s0, run);
    CrashKeepsInv(s);
    if s.disk.journal == [Some(s.last), None] {
      FinalIdle(s.base, s.last);
      IdleSurvivor(s.disk, journal, slots);
    }
  }

  /** Resuming from any interrupted state reaches the layout an uninterrupted reset reaches. */
  lemma ResumptionReachesFinal(d: Disk, base: Slots, j: Journal)
    requires ResetOk(base, j) && d.journal == [Some(j)] && Partial(d.slots, base, j)
    ensures ExecAll(d, j.stamp, Resumption(d.separate, j)) == Disk(d.separate, [None], Final(base, j))
  {
    var p := Resumption(d.separate, j);
    ResumptionAt(d.separate, j, p);
    ResumptionStages(d, base, j, p);
  }

  /** Instruction `k` of a reset; a resumption starts at 1. */
  function InstrAt(separate: bool, j: Journal, k: nat): Instr
    requires k < |j.files| + |DirsOf(separate, j.files)| + 3
  {
    var n, dirs := |j.files|, DirsOf(separate, j.files);
    if k == 0 then Sync(CredentialsDir)
    else if k <= n then Move(j.files[k - 1])
    else if k <= n + |dirs| then Sync(dirs[k - 1 - n])
    else if k == n + |dirs| + 1 then Unlink
    else Sync(CredentialsDir)
  }

  ghost predicate IsResumption(separate: bool, j: Journal, p: seq<Instr>) {
    && |p| == |j.files| + |DirsOf(separate, j.files)| + 2
    && forall i :: 0 <= i < |p| ==> p[i] == InstrAt(separate, j, i + 1)
  }

  lemma ResumptionAt(separate: bool, j: Journal, p: seq<Instr>)
    requires p == Resumption(separate, j)
    ensures IsResumption(separate, j, p)
  {
  }

  /** Whatever every instruction of a program hands on to the next holds at its end. */
  lemma {:induction false} Carried(d: Disk, stamp: nat, p: seq<Instr>, n: nat, holds: (Disk, nat) -> bool)
    requires n <= |p| && holds(d, 0)
    requires forall e, k :: 0 <= k < |p| && holds(e, k) ==> holds(Exec(e, stamp, p[k]), k + 1)
    ensures holds(ExecAll(d, stamp, p[..n]), n)
  {
    if n > 0 {
      Carried(d, stamp, p, n - 1, holds);
      PrefixSnoc(d, stamp, p, n);
    } else {
      assert p[..0] == [];
    }
  }

  lemma PrefixSnoc(d: Disk, stamp: nat, p: seq<Instr>, k: nat)
    requires 0 < k <= |p|
    ensures ExecAll(d, stamp, p[..k]) == Exec(ExecAll(d, stamp, p[..k - 1]), stamp, p[k - 1])
  {
    TakeSnoc(p, k - 1);
    ExecSnoc(d, stamp, p[..k - 1], p[k - 1]);
  }

  /** The disk `e` has done `k` instructions of the resumption. */
  ghost predicate ResumedTo(separate: bool, base: Slots, j: Journal, e: Disk, k: nat) {
    e.separate == separate && Stage(e, base, j, k + 1)
  }

  lemma ResumedStep(separate: bool, base: Slots, j: Journal, p: seq<Instr>, e: Disk, k: nat)
    requires ResetOk(base, j) && IsResumption(separate, j, p) && k < |p| && ResumedTo(separate, base, j, e, k)
    ensures ResumedTo(separate, base, j, Exec(e, j.stamp, p[k]), k + 1)
  {
    InstrStep(e, base, j, k + 1, p[k], Exec(e, j.stamp, p[k]));
  }

  lemma ResumptionStages(d: Disk, base: Slots, j: Journal, p: seq<Instr>)
    requires ResetOk(base, j) && d.journal == [Some(j)] && Partial(d.slots, base, j) && IsResumption(d.separate, j, p)
    ensures ResumedTo(d.separate, base, j, ExecAll(d, j.stamp, p), |p|)
  {
    var holds := (e: Disk, k: nat) => ResumedTo(d.separate, base, j, e, k);
    ResumeStage(d, base, j);
    forall e, k | 0 <= k < |p| && holds(e, k) ensures holds(Exec(e, j.stamp, p[k]), k + 1) {
      ResumedStep(d.separate, base, j, p, e, k);
    }
    Carried(d, j.stamp, p, |p|, holds);
    assert p[..|p|] == p;
  }

  lemma InstrStep(d: Disk, base: Slots, j: Journal, k: nat, i: Instr, e: Disk)
    requires ResetOk(base, j) && k < |j.files| + |DirsOf(d.separate, j.files)| + 3 && Stage(d, base, j, k)
    requires i == InstrAt(d.separate, j, k) && e == Exec(d, j.stamp, i)
    ensures e.separate == d.separate && Stage(e, base, j, k + 1)
  {
    ExecKeepsSeparate(d, j.stamp, i);
    InstrBecomes(d, j, k, i, e);
    PhaseStep(d, base, j, k, e);
  }

  lemma InstrBecomes(d: Disk, j: Journal, k: nat, i: Instr, e: Disk)
    requires k < |j.files| + |DirsOf(d.separate, j.files)| + 3
    requires i == InstrAt(d.separate, j, k) && e == Exec(d, j.stamp, i)
    ensures Becomes(d, j, k, e)
  {
  }

  /** Moving a file aside under a stamp loses content exactly when that stamp's archive name is taken. */
  lemma MoveLosesIff(slot: Slot, stamp: nat)
    ensures (exists s :: s in slot.archived && !(s in Moved(slot, stamp).archived && Moved(slot, stamp).archived[s] == slot.archived[s]))
            <==> slot.live.Some? && stamp in slot.archived && slot.archived[stamp] != slot.live.value
    ensures slot.live.Some? ==> stamp in Moved(slot, stamp).archived && Moved(slot, stamp).archived[stamp] == slot.live.value
  {
    if slot.live.Some? && stamp in slot.archived && slot.archived[stamp] != slot.live.value {
      assert Moved(slot, stamp).archived[stamp] == slot.live.value;
    }
  }

  /** A completed reset keeps every archive and every live content; a state-only one keeps the credentials live. */
  lemma FinalKeepsContent(base: Slots, j: Journal, f: File)
    requires ResetOk(base, j)
    ensures var before, after := Last(base.Of(f)), Last(Final(base, j).Of(f));
            && (forall s :: s in before.archived ==> s in after.archived && after.archived[s] == before.archived[s])
            && (f in j.files && before.live.Some? ==>
                  after.live.None? && j.stamp in after.archived && after.archived[j.stamp] == before.live.value)
            && (f !in j.files ==> after == before)
            && (j.files == STATE_FILES ==> Last(Final(base, j).Of(Credentials)) == Last(base.Of(Credentials)))
  {
    FinalOf(base, j, f);
    FinalOf(base, j, Credentials);
  }

  /** An archived content no power loss can take back. */
  predicate Kept(d: Disk, f: File, stamp: nat, content: string) {
    forall v <- d.slots.Of(f) :: stamp in v.archived && v.archived[stamp] == content
  }

  lemma MoveKeepsArchive(d: Disk, base: Slots, j: Journal, g: File, f: File, stamp: nat, content: string)
    requires ResetOk(base, j) && Partial(d.slots, base, j) && g in j.files && Kept(d, f, stamp, content)
    ensures Kept(Renamed(d, j.stamp, g), f, stamp, content)
  {
    RenamedOf(d, j.stamp, g, f);
    if g == f && Visible(d, f).live.Some? {
      // The visible slot still has its live file, so nothing was archived under this stamp yet.
      assert Visible(d, f) in d.slots.Of(f);
      assert Last(base.Of(f)) in base.Of(f);
      assert Visible(d, f) == Last(base.Of(f)) && j.stamp !in Visible(d, f).archived;
    }
  }

  lemma InstrKeepsArchive(d: Disk, base: Slots, j: Journal, i: Instr, f: File, stamp: nat, content: string)
    requires i.Move? ==> ResetOk(base, j) && Partial(d.slots, base, j) && i.file in j.files
    requires Kept(d, f, stamp, content)
    ensures Kept(Exec(d, j.stamp, i), f, stamp, content)
  {
    if i.Move? {
      MoveKeepsArchive(d, base, j, i.file, f, stamp, content);
    } else if i.Sync? {
      SyncKeepsArchive(d, i.dir, f, stamp, content);
    }
  }

  lemma MovesArePartial(d: Disk, base: Slots, j: Journal, k: nat)
    requires k < |Program(d.separate, j)| && Stage(d, base, j, k) && Program(d.separate, j)[k].Move?
    ensures Partial(d.slots, base, j) && Program(d.separate, j)[k].file in j.files
  {
    ProgramAt(d.separate, j, k);
  }

  lemma ExecKeepsArchive(s: State, f: File, stamp: nat, content: string)
    requires Inv(s) && s.pc.Resetting? && Kept(s.disk, f, stamp, content)
    ensures Kept(Next(s, Continue).disk, f, stamp, content)
  {
    var i := Program(s.disk.separate, s.last)[s.pc.step];
    if i.Move? { MovesArePartial(s.disk, s.base, s.last, s.pc.step); }
    InstrKeepsArchive(s.disk, s.base, s.last, i, f, stamp, content);
  }

  /** No later crash, power loss, reset or write ever loses an archived content. */
  lemma {:induction false} ArchivesAreForever(s: State, run: seq<Action>, f: File, stamp: nat, content: string)
    requires Inv(s) && GoodRun(s, run) && Kept(s.disk, f, stamp, content)
    ensures Kept(After(s, run).disk, f, stamp, content)
    decreases |run|
  {
    if |run| > 0 {
      StepKeepsInv(s, run[0]);
      StepKeepsArchive(s, run[0], f, stamp, content);
      ArchivesAreForever(Next(s, run[0]), run[1..], f, stamp, content);
    }
  }

  lemma StepKeepsArchive(s: State, a: Action, f: File, stamp: nat, content: string)
    requires Inv(s) && Enabled(s, a) && Kept(s.disk, f, stamp, content)
    ensures Kept(Next(s, a).disk, f, stamp, content)
  {
    if a.Continue? { ExecKeepsArchive(s, f, stamp, content); } else { OthersKeepArchive(s, a, f, stamp, content); }
  }

  lemma OthersKeepArchive(s: State, a: Action, f: File, stamp: nat, content: string)
    requires !a.Continue? && Enabled(s, a) && Kept(s.disk, f, stamp, content)
    ensures Kept(Next(s, a).disk, f, stamp, content)
  {
    match a {
      case Write(g, c) => WriteKeepsArchive(s.disk, g, c, f, stamp, content);
      case Settle(dir) => SyncKeepsArchive(s.disk, dir, f, stamp, content);
      case PowerLoss(j, slots) => assert slots.Of(f)[0] in s.disk.slots.Of(f);
      case Begin(j) =>
      case Crash =>
      case Boot =>
    }
  }

  lemma WriteKeepsArchive(d: Disk, g: File, c: Option<string>, f: File, stamp: nat, content: string)
    requires Kept(d, f, stamp, content)
    ensures Kept(Written(d, g, c), f, stamp, content)
  {
    WrittenOf(d, g, c, f);
    assert Visible(d, f) in d.slots.Of(f);
  }

  lemma WrittenOf(d: Disk, f: File, c: Option<string>, g: File)
    ensures Written(d, f, c).slots.Of(g)
         == if f == g then d.slots.Of(f) + [Slot(c, Visible(d, f).archived)] else d.slots.Of(g)
  {
    WithOf(d.slots, f, d.slots.Of(f) + [Slot(c, Visible(d, f).archived)], g);
  }

  lemma SyncKeepsArchive(d: Disk, dir: Dir, f: File, stamp: nat, content: string)
    requires Kept(d, f, stamp, content)
    ensures Kept(Synced(d, dir), f, stamp, content)
  {
    SyncedOf(d, dir, f);
    assert Visible(d, f) in d.slots.Of(f);
  }
}
