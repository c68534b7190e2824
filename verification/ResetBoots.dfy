/** Exactly when it is safe to resume a reset whose journal a boot finds. */
module ResetBoots {
  import opened Common
  import opened IdentityReset
  import opened ResetRuns

  // ----- From a durable journal on -----

  /** No journal names the reset, yet it moved `f` and left `g` where it was. */
  predicate Torn(d: Disk, j: Journal, f: File, g: File) {
    && d.journal == [None]
    && f in j.files && g in j.files
    && j.stamp in Visible(d, f).archived
    && Visible(d, g).live.Some? && j.stamp !in Visible(d, g).archived
  }

  /** The reset `j` is named by a durable journal and not finished. */
  ghost predicate Midway(s: State, j: Journal) {
    && Inv(s) && s.last == j && s.disk.journal == [Some(j)]
    && (s.pc.Down? || (s.pc.Resetting? && s.pc.step >= 1))
  }

  /** The file is there, whichever of its versions a power loss keeps. */
  predicate Lasting(slots: Slots, f: File) { forall v <- slots.Of(f) :: v.live.Some? }

  /** What the reset moved away from `f` is archived for good. */
  ghost predicate Archived(s: State, base: Slots, j: Journal, f: File) {
    Last(base.Of(f)).live.Some? && Kept(s.disk, f, j.stamp, Last(base.Of(f)).live.value)
  }

  lemma FinalIsArchived(s: State, base: Slots, j: Journal, f: File)
    requires ResetOk(base, j) && f in j.files && Last(base.Of(f)).live.Some? && s.disk.slots == Final(base, j)
    ensures Archived(s, base, j, f)
  {
    FinalOf(base, j, f);
  }

  /** One instruction further, the journal is still there, or it goes and every file has been moved. */
  lemma ContinueFrom(s: State, j: Journal)
    requires Midway(s, j) && s.pc.Resetting?
    ensures var v := Next(s, Continue); Midway(v, j) || (Inv(v) && v.disk.slots == Final(s.base, j))
  {
    var k, n, m := s.pc.step, |j.files|, |DirsOf(s.disk.separate, j.files)|;
    var e := Exec(s.disk, j.stamp, Program(s.disk.separate, j)[k]);
    StepKeepsInv(s, Continue);
    assert k <= n + m + 1;
    ProgramStep(s.disk, s.base, j, k);
    ExecKeepsSeparate(s.disk, j.stamp, Program(s.disk.separate, j)[k]);
    assert k < n + m + 1 ==> e.journal == [Some(j)];
    assert k == n + m + 1 ==> e.slots == Final(s.base, j);
  }

  lemma MidwayIsPartial(s: State, j: Journal)
    requires Midway(s, j)
    ensures Fresh(s.base, j.stamp) && Partial(s.disk.slots, s.base, j)
  {
  }

  lemma OriginIsLive(before: Versions, stamp: nat, v: Slot)
    requires Leftover(v, before, stamp) && forall u <- before :: u.live.Some? && stamp !in u.archived
    ensures Origin(v, stamp).live.Some?
  {
    var u := if v in before then v else Last(before);
    assert u in before;
    OriginOfMoved(u, stamp);
  }

  /** A lasting file of the reset is one, too, among the files it goes on from after a power loss. */
  lemma LossKeepsLasting(s: State, j: Journal, slots: Slots, g: File)
    requires Midway(s, j) && Survives(s.disk, Some(j), slots) && g in j.files && Lasting(s.base, g)
    ensures Lasting(Origins(slots, j.stamp), g)
  {
    MidwayIsPartial(s, j);
    LeftoverOfPartial(s.disk.slots, s.base, j, slots);
    OriginIsLive(s.base.Of(g), j.stamp, slots.Of(g)[0]);
    OriginsOf(slots, j.stamp, g);
  }

  lemma MidwayStep(s: State, a: Action, j: Journal, g: File)
    requires Midway(s, j) && g in j.files && Lasting(s.base, g) && Enabled(s, a)
    ensures || (Midway(Next(s, a), j) && Lasting(Next(s, a).base, g))
            || (Inv(Next(s, a)) && Next(s, a).disk.slots == Final(s.base, j))
  {
    StepKeepsInv(s, a);
    match a {
      case Continue => ContinueFrom(s, j);
      case PowerLoss(journal, slots) =>
        assert journal == Some(j);
        LossKeepsLasting(s, j, slots, g);
      case Crash =>
      case Boot =>
      case Begin(_) =>
      case Write(_, _) =>
      case Settle(_) =>
    }
  }

  /** Every version of `g` holds an archive under this stamp. */
  predicate Stamped(d: Disk, g: File, stamp: nat) { forall v <- d.slots.Of(g) :: stamp in v.archived }

  lemma InstrKeepsStamped(d: Disk, mover: nat, i: Instr, g: File, stamp: nat)
    requires Stamped(d, g, stamp)
    ensures Stamped(Exec(d, mover, i), g, stamp)
  {
    assert Visible(d, g) in d.slots.Of(g);
    match i {
      case Sync(dir) => SyncedOf(d, dir, g);
      case Move(f) => RenamedOf(d, mover, f, g);
      case Unlink =>
    }
  }

  lemma StepKeepsStamped(s: State, a: Action, g: File, stamp: nat)
    requires Enabled(s, a) && Stamped(s.disk, g, stamp)
    ensures Stamped(Next(s, a).disk, g, stamp)
  {
    assert Visible(s.disk, g) in s.disk.slots.Of(g);
    match a {
      case Continue =>
        InstrKeepsStamped(s.disk, s.pc.journal.stamp, Program(s.disk.separate, s.pc.journal)[s.pc.step], g, stamp);
      case Write(f, c) => WrittenOf(s.disk, f, c, g);
      case Settle(dir) => SyncedOf(s.disk, dir, g);
      case PowerLoss(_, slots) => assert slots.Of(g)[0] in s.disk.slots.Of(g);
      case Begin(_) =>
      case Crash =>
      case Boot =>
    }
  }

  /** Archives may be overwritten, but their names never go away, whatever is run. */
  lemma {:induction false} StampedForever(s: State, run: seq<Action>, g: File, stamp: nat)
    requires Legal(s, run) && Stamped(s.disk, g, stamp)
    ensures Stamped(After(s, run).disk, g, stamp)
    decreases |run|
  {
    if |run| > 0 {
      StepKeepsStamped(s, run[0], g, stamp);
      StampedForever(Next(s, run[0]), run[1..], g, stamp);
    }
  }

  /** From a durable journal on, no run at all tears the reset, settled boots or not. */
  lemma {:induction false} NeverTorn(s: State, run: seq<Action>, f: File, g: File)
    requires Midway(s, s.last) && Legal(s, run) && ResetOk(s.base, s.last)
    requires g in s.last.files && Lasting(s.base, g)
    ensures !Torn(After(s, run).disk, s.last, f, g)
    decreases |run|
  {
    if |run| > 0 {
      var v, base, j := Next(s, run[0]), s.base, s.last;
      MidwayStep(s, run[0], j, g);
      assert Last(base.Of(g)) in base.Of(g);
      if Midway(v, j) && Lasting(v.base, g) {
        NeverTorn(v, run[1..], f, g);
      } else {
        FinalIsArchived(v, base, j, g);
        StampedForever(v, run[1..], g, j.stamp);
        var t := After(v, run[1..]);
        assert Visible(t.disk, g) in t.disk.slots.Of(g);
      }
    }
  }

  // ----- Runs of consecutive instructions -----

  function Continues(n: nat): (run: seq<Action>)
    ensures |run| == n && (n > 0 ==> run[0] == Continue && run[1..] == Continues(n - 1))
  {
    if n == 0 then [] else [Continue] + Continues(n - 1)
  }

  lemma RunSteps(s: State, run: seq<Action>)
    requires |run| > 0 && Enabled(s, run[0]) && Good(s, run[0]) && GoodRun(Next(s, run[0]), run[1..])
    ensures GoodRun(s, run) && After(s, run) == After(Next(s, run[0]), run[1..])
  {
  }

  lemma {:induction false} RunAppend(s: State, a: seq<Action>, b: seq<Action>)
    requires GoodRun(s, a) && GoodRun(After(s, a), b)
    ensures GoodRun(s, a + b) && After(s, a + b) == After(After(s, a), b)
    decreases |a|
  {
    if |a| == 0 {
      assert a + b == b;
    } else {
      RunAppend(Next(s, a[0]), a[1..], b);
      TailOfConcat(a, b);
      RunSteps(s, a + b);
    }
  }

  lemma OneStep(s: State, a: Action)
    requires Enabled(s, a) && Good(s, a)
    ensures GoodRun(s, [a]) && After(s, [a]) == Next(s, a)
  {
    assert [a][1..] == [];
    assert After(Next(s, a), []) == Next(s, a);
  }

  lemma ThenStep(s: State, run: seq<Action>, t: State, a: Action)
    requires GoodRun(s, run) && t == After(s, run) && Enabled(t, a) && Good(t, a)
    ensures GoodRun(s, run + [a]) && After(s, run + [a]) == Next(t, a)
  {
    OneStep(t, a);
    RunAppend(s, run, [a]);
  }

  /** A reset about to move its file number `k - 1` moves it. */
  lemma NextMove(s: State, j: Journal, k: nat)
    requires s.pc == Resetting(j, k) && 1 <= k <= |j.files|
    ensures Enabled(s, Continue)
    ensures Next(s, Continue) == s.(disk := Renamed(s.disk, j.stamp, j.files[k - 1]), pc := Resetting(j, k + 1))
  {
    ProgramAt(s.disk.separate, j, k);
  }

  /** What a move of `f`, if `moved`, adds to the versions of `f`. */
  function Trail(d: Disk, stamp: nat, f: File, moved: bool): Versions {
    if moved && Visible(d, f).live.Some? then d.slots.Of(f) + [Moved(Visible(d, f), stamp)] else d.slots.Of(f)
  }

  /** The files from number `from` on are moved one after the other, and nothing else changes. */
  lemma {:induction false} MovesTo(s: State, j: Journal, k: nat, n: nat)
    requires s.pc == Resetting(j, k) && 1 <= k <= n + 1 && n <= |j.files| && Distinct(j.files)
    ensures GoodRun(s, Continues(n + 1 - k))
    ensures var t := After(s, Continues(n + 1 - k));
            && t == s.(disk := t.disk, pc := Resetting(j, n + 1))
            && t.disk == s.disk.(slots := t.disk.slots)
            && forall f: File :: t.disk.slots.Of(f) == Trail(s.disk, j.stamp, f, f in j.files[k - 1..n])
    decreases n + 1 - k
  {
    if k <= n {
      var v := Next(s, Continue);
      NextMove(s, j, k);
      MovesTo(v, j, k + 1, n);
      RunSteps(s, Continues(n + 1 - k));
      forall f: File
        ensures Trail(v.disk, j.stamp, f, f in j.files[k..n]) == Trail(s.disk, j.stamp, f, f in j.files[k - 1..n])
      {
        TrailStep(s.disk, j, k, n, f);
      }
    }
  }

  lemma TrailStep(d: Disk, j: Journal, k: nat, n: nat, f: File)
    requires 1 <= k <= n <= |j.files| && Distinct(j.files)
    ensures Trail(Renamed(d, j.stamp, j.files[k - 1]), j.stamp, f, f in j.files[k..n])
         == Trail(d, j.stamp, f, f in j.files[k - 1..n])
  {
    var g := j.files[k - 1];
    RenamedOf(d, j.stamp, g, f);
    assert j.files[k - 1..n] == [g] + j.files[k..n];
    assert g !in j.files[k..n];
  }

  // ----- A journal entry not yet durable -----

  /** Resuming `j` now, however the agent goes on, never leaves `f` moved and `g` not. */
  ghost predicate SafeToBoot(s: State, j: Journal, f: File, g: File)
    requires Enabled(s, Boot)
  {
    forall run :: Legal(Next(s, Boot), run) ==> !Torn(After(Next(s, Boot), run).disk, j, f, g)
  }

  /** The oldest version of every file, but for the one move of `f`. */
  function OnlyMoved(base: Slots, j: Journal, f: File): Slots { Oldest(base).With(f, [Moved(Last(base.Of(f)), j.stamp)]) }

  function Oldest(slots: Slots): Slots {
    Slots([slots.credentials[0]], [slots.pendingSecret[0]], [slots.database[0]], [slots.wal[0]], [slots.shm[0]])
  }

  lemma OnlyMovedOf(base: Slots, j: Journal, f: File, g: File)
    ensures OnlyMoved(base, j, f).Of(g) == [if f == g then Moved(Last(base.Of(f)), j.stamp) else base.Of(g)[0]]
  {
    WithOf(Oldest(base), f, [Moved(Last(base.Of(f)), j.stamp)], g);
  }

  lemma InPrefix(files: seq<File>, i: nat)
    requires i < |files|
    ensures files[i] in files[0..i + 1]
  {
    assert files[0..i + 1][i] == files[i];
  }

  /** Of unsynced moves a power loss may keep any one, while it drops the journal. */
  lemma MoveSurvivesAlone(d: Disk, base: Slots, j: Journal, f: File, n: nat)
    requires d.journal[0] == None && n <= |j.files| && f in j.files[0..n] && Last(base.Of(f)).live.Some?
    requires forall h: File :: d.slots.Of(h) == Trail(Disk(d.separate, d.journal, base), j.stamp, h, h in j.files[0..n])
    ensures Survives(d, None, OnlyMoved(base, j, f))
  {
    forall h: File ensures |OnlyMoved(base, j, f).Of(h)| == 1 && OnlyMoved(base, j, f).Of(h)[0] in d.slots.Of(h) {
      OnlyMovedOf(base, j, f, h);
      var versions := Trail(Disk(d.separate, d.journal, base), j.stamp, h, h in j.files[0..n]);
      assert versions[0] == base.Of(h)[0];
      if h == f { assert Last(versions) == Moved(Last(base.Of(f)), j.stamp); }
    }
  }

  lemma TornLayout(separate: bool, base: Slots, j: Journal, f: File, g: File)
    requires Fresh(base, j.stamp) && f in j.files && g in j.files && f != g
    requires Last(base.Of(f)).live.Some? && Lasting(base, g)
    ensures Torn(Disk(separate, [None], OnlyMoved(base, j, f)), j, f, g)
  {
    OnlyMovedOf(base, j, f, f);
    OnlyMovedOf(base, j, f, g);
    assert base.Of(g)[0] in base.Of(g);
  }

  /**
   * The run that tears. A process killed between renaming the journal into place and syncing its
   * directory leaves the entry visible but not durable; the next process resumes from it, moves
   * files up to `f`, and a power loss keeps the move of `f` alone and drops the journal.
   */
  lemma TearingRun(s: State, f: File, g: File) returns (run: seq<Action>)
    requires ResetOk(s.base, s.last) && s.pc.Down?
    requires s.disk.journal == [None, Some(s.last)] && s.disk.slots == s.base
    requires f in s.last.files && g in s.last.files && f != g
    requires Last(s.base.Of(f)).live.Some? && Lasting(s.base, g)
    ensures GoodRun(Next(s, Boot), run) && Torn(After(Next(s, Boot), run).disk, s.last, f, g)
  {
    var i :| 0 <= i < |s.last.files| && s.last.files[i] == f;
    run := Continues(i + 1) + [PowerLoss(None, OnlyMoved(s.base, s.last, f))];
    LossAfterMoves(Next(s, Boot), s.base, s.last, f, i);
    TornLayout(s.disk.separate, s.base, s.last, f, g);
  }

  lemma LossAfterMoves(s: State, base: Slots, j: Journal, f: File, i: nat)
    requires Distinct(j.files) && i < |j.files| && j.files[i] == f && Last(base.Of(f)).live.Some?
    requires s.pc == Resetting(j, 1) && s.disk.slots == base && s.disk.journal[0] == None
    ensures var run := Continues(i + 1) + [PowerLoss(None, OnlyMoved(base, j, f))];
            GoodRun(s, run) && After(s, run).disk == Disk(s.disk.separate, [None], OnlyMoved(base, j, f))
  {
    MovesTo(s, j, 1, i + 1);
    var t := After(s, Continues(i + 1));
    InPrefix(j.files, i);
    MoveSurvivesAlone(t.disk, base, j, f, i + 1);
    ThenStep(s, Continues(i + 1), t, PowerLoss(None, OnlyMoved(base, j, f)));
  }

  /**
   * The exact condition: a boot that finds the journal of a reset not begun is safe, for any two
   * files the reset is to move, if and only if that journal entry is durable: its directory was
   * synced before the process died. (A file that a power loss may take back altogether can be
   * found missing and be written anew later, which is no tear.)
   */
  lemma SettledBootIsExact(s: State, f: File, g: File)
    requires Inv(s) && s.pc.Down? && s.disk.slots == s.base
    requires s.disk.journal == [None, Some(s.last)] || s.disk.journal == [Some(s.last)]
    requires f in s.last.files && g in s.last.files && f != g
    requires Visible(s.disk, f).live.Some? && Lasting(s.disk.slots, g)
    ensures SafeToBoot(s, s.last, f, g) <==> |s.disk.journal| == 1
  {
    var j := s.last;
    if |s.disk.journal| == 1 {
      var v := Next(s, Boot);
      StepKeepsInv(s, Boot);
      forall run | Legal(v, run) ensures !Torn(After(v, run).disk, j, f, g) { NeverTorn(v, run, f, g); }
    } else {
      var run := TearingRun(s, f, g);
    }
  }

  /** A process killed right after the rename of the journal: the state above, from any settled one. */
  lemma KilledBeforeSync(s: State, j: Journal)
    requires s.pc.Working? && s.disk.journal == [None] && Enabled(s, Begin(j)) && Good(s, Begin(j))
    ensures GoodRun(s, [Begin(j), Crash])
    ensures After(s, [Begin(j), Crash]) == State(s.disk.(journal := [None, Some(j)]), Down, s.disk.slots, j)
  {
    OneStep(s, Begin(j));
    ThenStep(s, [Begin(j)], Next(s, Begin(j)), Crash);
    assert [Begin(j)] + [Crash] == [Begin(j), Crash];
  }
}
