/**
 * compareRestartAwareShadowUsage (restart-aware-shadow.ts), one identity at a time: the walk over
 * the checkpoints both sources reported, which re-baselines at every counter generation.
 */
module ShadowComparison {
  import opened Common

  /** A counter sample; `identity` is the normalised node, email and uuid. */
  datatype Sample = Sample(identity: string, checkpoint: string, generation: string, up: nat, down: nat, at: int)

  /** One checkpoint as both sources saw it. */
  datatype Pair = Pair(xui: Sample, direct: Sample)

  /** The difference tolerated for a window in which x-ui metered so many bytes. */
  type Tolerance = int -> int

  datatype Classification = FirstObservationGap | Warmup

  datatype Status = Awaiting | Stabilized(at: int, classification: Classification, xuiBytes: int, directBytes: int, gap: nat)

  datatype Boundary = Boundary(generation: string, initial: bool, detectedAt: int, status: Status)

  datatype Window = Window(generation: string, startedAt: int, endedAt: int, xuiBytes: int, directBytes: int,
                           difference: nat, allowed: int, within: bool)

  /** counterDelta; None where the counters went back. */
  function CounterDelta(current: Sample, previous: Sample): Option<nat> {
    if current.up < previous.up || current.down < previous.down then None
    else Some(current.up - previous.up + current.down - previous.down)
  }

  function Gap(x: int, y: int): nat { if x >= y then x - y else y - x }

  // ----- What the walk is meant to find, by position -----

  function Generation(a: seq<Pair>, i: nat): string
    requires i < |a|
  {
    a[i].direct.generation
  }

  predicate Continues(a: seq<Pair>, i: nat)
    requires i < |a|
  {
    i > 0 && Generation(a, i) == Generation(a, i - 1)
  }

  /** A steady window ends at `i`: it and its predecessor both continue the same generation. */
  predicate SteadyAt(a: seq<Pair>, i: nat)
    requires i < |a|
  {
    Continues(a, i) && Continues(a, i - 1)
  }

  /** Checkpoint `i` raises no error: generations agree, time moves, counters only grow in a generation. */
  predicate SoundAt(a: seq<Pair>, i: nat)
    requires i < |a|
  {
    && a[i].xui.generation == a[i].direct.generation
    && (i > 0 ==> (a[i - 1].xui.at < a[i].xui.at && a[i - 1].direct.at < a[i].direct.at))
    && (Continues(a, i) ==>
          && a[i - 1].xui.up <= a[i].xui.up && a[i - 1].xui.down <= a[i].xui.down
          && a[i - 1].direct.up <= a[i].direct.up && a[i - 1].direct.down <= a[i].direct.down)
  }

  predicate Sound(a: seq<Pair>) { forall i :: 0 <= i < |a| ==> SoundAt(a, i) }

  /** The first `n` checkpoints raise no error. */
  predicate SoundTo(a: seq<Pair>, n: nat)
    requires n <= |a|
  {
    n > 0 ==> (SoundTo(a, n - 1) && SoundAt(a, n - 1))
  }

  lemma {:induction false} SoundToAll(a: seq<Pair>, n: nat)
    requires n <= |a|
    ensures SoundTo(a, n) <==> forall i :: 0 <= i < n ==> SoundAt(a, i)
  {
    if n > 0 { SoundToAll(a, n - 1); }
  }

  /** Bytes each source metered between checkpoints `i - 1` and `i`. */
  function XuiBytes(a: seq<Pair>, i: nat): int
    requires 0 < i < |a|
  {
    a[i].xui.up - a[i - 1].xui.up + a[i].xui.down - a[i - 1].xui.down
  }

  function DirectBytes(a: seq<Pair>, i: nat): int
    requires 0 < i < |a|
  {
    a[i].direct.up - a[i - 1].direct.up + a[i].direct.down - a[i - 1].direct.down
  }

  predicate WithinAt(a: seq<Pair>, i: nat, t: Tolerance)
    requires 0 < i < |a|
  {
    Gap(XuiBytes(a, i), DirectBytes(a, i)) <= t(XuiBytes(a, i))
  }

  /** The row of the generation that starts at `i`, once `n` checkpoints are known. */
  function BoundaryRow(a: seq<Pair>, n: nat, i: nat): Boundary
    requires i < n <= |a|
  {
    var status :=
      if i + 1 < n && Continues(a, i + 1) then
        var x, d := XuiBytes(a, i + 1), DirectBytes(a, i + 1);
        Stabilized(a[i + 1].xui.at, if d > x then FirstObservationGap else Warmup, x, d, Gap(x, d))
      else Awaiting;
    Boundary(Generation(a, i), i == 0, a[i].xui.at, status)
  }

  function WindowRow(a: seq<Pair>, i: nat, t: Tolerance): Window
    requires 0 < i < |a|
  {
    var x, d := XuiBytes(a, i), DirectBytes(a, i);
    Window(Generation(a, i), a[i - 1].xui.at, a[i].xui.at, x, d, Gap(x, d), t(x), WithinAt(a, i, t))
  }

  /** The positions below `n` where a generation starts, in order. */
  function Starts(a: seq<Pair>, n: nat): (r: seq<nat>)
    requires n <= |a|
    ensures forall j :: 0 <= j < |r| ==> r[j] < n && !Continues(a, r[j])
    ensures forall i :: 0 <= i < n && !Continues(a, i) ==> i in r
  {
    if n == 0 then [] else if Continues(a, n - 1) then Starts(a, n - 1) else Starts(a, n - 1) + [n - 1]
  }

  /** The positions below `n` where a steady window ends, in order. */
  function Steadies(a: seq<Pair>, n: nat): (r: seq<nat>)
    requires n <= |a|
    ensures forall j :: 0 <= j < |r| ==> r[j] < n && SteadyAt(a, r[j])
    ensures forall i :: 0 <= i < n && SteadyAt(a, i) ==> i in r
  {
    if n == 0 then [] else if SteadyAt(a, n - 1) then Steadies(a, n - 1) + [n - 1] else Steadies(a, n - 1)
  }

  /** One row per start, in order. */
  function BoundaryRows(a: seq<Pair>, n: nat): seq<Boundary>
    requires n <= |a|
  {
    seq(|Starts(a, n)|, j requires 0 <= j < |Starts(a, n)| => BoundaryRow(a, n, Starts(a, n)[j]))
  }

  /** One row per steady window, in order. */
  function WindowRows(a: seq<Pair>, n: nat, t: Tolerance): seq<Window>
    requires n <= |a|
  {
    seq(|Steadies(a, n)|, j requires 0 <= j < |Steadies(a, n)| => WindowRow(a, Steadies(a, n)[j], t))
  }

  /** How many of the first `n` checkpoints the last generation has. */
  function LastRun(a: seq<Pair>, n: nat): (r: nat)
    requires n <= |a|
    ensures r <= n && (n > 0 ==> r > 0)
  {
    if n == 0 then 0 else if Continues(a, n - 1) then LastRun(a, n - 1) + 1 else 1
  }

  /** Steady windows since the last re-baseline. */
  function SteadyStreak(a: seq<Pair>, n: nat): nat
    requires n <= |a|
  {
    if LastRun(a, n) < 2 then 0 else LastRun(a, n) - 2
  }

  // ----- Growing the rows by one checkpoint -----

  lemma GrowAtStart(a: seq<Pair>, n: nat)
    requires n < |a| && !Continues(a, n)
    ensures BoundaryRows(a, n + 1) == BoundaryRows(a, n) + [Boundary(Generation(a, n), n == 0, a[n].xui.at, Awaiting)]
  {
  }

  /** The second checkpoint of a generation stabilises its boundary. */
  lemma GrowAtWarmup(a: seq<Pair>, n: nat)
    requires n < |a| && Continues(a, n) && !Continues(a, n - 1)
    ensures var rows := BoundaryRows(a, n);
            && |rows| > 0 && Last(rows) == BoundaryRow(a, n, n - 1)
            && BoundaryRows(a, n + 1) == rows[|rows| - 1 := BoundaryRow(a, n + 1, n - 1)]
  {
    assert Starts(a, n) == Starts(a, n - 1) + [n - 1];
  }

  lemma GrowAtSteady(a: seq<Pair>, n: nat)
    requires n < |a| && SteadyAt(a, n)
    ensures BoundaryRows(a, n + 1) == BoundaryRows(a, n)
  {
  }

  lemma GrowWindows(a: seq<Pair>, n: nat, t: Tolerance)
    requires n < |a|
    ensures WindowRows(a, n + 1, t) == WindowRows(a, n, t) + if SteadyAt(a, n) then [WindowRow(a, n, t)] else []
  {
  }

  lemma GrowRun(a: seq<Pair>, n: nat)
    requires 0 < n < |a|
    ensures SteadyStreak(a, n + 1) == if SteadyAt(a, n) then SteadyStreak(a, n) + 1 else 0
  {
    assert Continues(a, n - 1) ==> LastRun(a, n) >= 2;
  }

  /** The rows in terms of what the loop computes at checkpoint `n`. */
  lemma RowsAt(a: seq<Pair>, n: nat, t: Tolerance, x: nat, d: nat)
    requires 0 < n < |a| && Continues(a, n)
    requires CounterDelta(a[n].xui, a[n - 1].xui) == Some(x) && CounterDelta(a[n].direct, a[n - 1].direct) == Some(d)
    ensures WindowRow(a, n, t)
            == Window(Generation(a, n), a[n - 1].xui.at, a[n].xui.at, x, d, Gap(x, d), t(x), Gap(x, d) <= t(x))
    ensures BoundaryRow(a, n + 1, n - 1) == BoundaryRow(a, n, n - 1).(status :=
              Stabilized(a[n].xui.at, if d > x then FirstObservationGap else Warmup, x, d, Gap(x, d)))
  {
  }

  /** Where the loop throws at checkpoint `n`, it is not sound; where it goes on, it is. */
  lemma SoundNext(a: seq<Pair>, n: nat, x: Option<nat>, d: Option<nat>)
    requires 0 < n < |a| && x == CounterDelta(a[n].xui, a[n - 1].xui) && d == CounterDelta(a[n].direct, a[n - 1].direct)
    ensures SoundAt(a, n) <==>
              && a[n].xui.generation == a[n].direct.generation
              && a[n - 1].xui.at < a[n].xui.at && a[n - 1].direct.at < a[n].direct.at
              && (Generation(a, n) == Generation(a, n - 1) ==> x.Some? && d.Some?)
  {
  }

  // ----- The loop -----

  datatype Walked = Walked(boundaries: seq<Boundary>, windows: seq<Window>, steadyWindows: nat)

  /** The rows after `n` checkpoints. */
  function Rows(a: seq<Pair>, n: nat, t: Tolerance): Walked
    requires n <= |a|
  {
    Walked(BoundaryRows(a, n), WindowRows(a, n, t), SteadyStreak(a, n))
  }

  /** A checkpoint of the current generation: the first one ends the warm-up, later ones close a steady window. */
  method Observe(a: seq<Pair>, n: nat, t: Tolerance, awaitingWarmup: bool, soFar: Walked, x: nat, d: nat)
    returns (r: Walked)
    requires 0 < n < |a| && Continues(a, n) && awaitingWarmup == !Continues(a, n - 1)
    requires CounterDelta(a[n].xui, a[n - 1].xui) == Some(x) && CounterDelta(a[n].direct, a[n - 1].direct) == Some(d)
    requires soFar == Rows(a, n, t)
    ensures r == Rows(a, n + 1, t)
  {
    var difference := Gap(x, d);
    RowsAt(a, n, t, x, d);
    GrowWindows(a, n, t);
    GrowRun(a, n);
    if awaitingWarmup {
      GrowAtWarmup(a, n);
      var active := |soFar.boundaries| - 1;
      var row := soFar.boundaries[active].(status :=
        Stabilized(a[n].xui.at, if d > x then FirstObservationGap else Warmup, x, d, difference));
      r := soFar.(boundaries := soFar.boundaries[active := row]);
    } else {
      GrowAtSteady(a, n);
      var allowed := t(x);
      var row := Window(Generation(a, n), a[n - 1].xui.at, a[n].xui.at, x, d, difference, allowed, difference <= allowed);
      r := soFar.(windows := soFar.windows + [row], steadyWindows := soFar.steadyWindows + 1);
    }
  }

  lemma GrowToStart(a: seq<Pair>, n: nat, t: Tolerance)
    requires n < |a| && !Continues(a, n)
    ensures Rows(a, n + 1, t)
            == Walked(BoundaryRows(a, n) + [Boundary(Generation(a, n), n == 0, a[n].xui.at, Awaiting)], WindowRows(a, n, t), 0)
  {
    GrowAtStart(a, n);
    GrowWindows(a, n, t);
  }

  /**
   * The loop over the aligned checkpoints. None stands for the three errors it throws; otherwise
   * the rows are exactly those the positions call for.
   */
  method Walk(a: seq<Pair>, t: Tolerance) returns (r: Option<Walked>)
    requires |a| > 0
    ensures r.Some? <==> Sound(a)
    ensures r.Some? ==> r.value == Rows(a, |a|, t)
  {
    var previous := a[0];
    if previous.xui.generation != previous.direct.generation {
      assert !SoundAt(a, 0);
      return None;
    }
    var generation, awaitingWarmup := previous.direct.generation, true;
    var walked := Walked([Boundary(generation, true, previous.xui.at, Awaiting)], [], 0);
    GrowToStart(a, 0, t);
    for n := 1 to |a|
      invariant SoundTo(a, n)
      invariant previous == a[n - 1] && generation == Generation(a, n - 1)
      invariant walked == Rows(a, n, t)
      invariant awaitingWarmup == !Continues(a, n - 1)
    {
      var pair := a[n];
      SoundNext(a, n, CounterDelta(a[n].xui, a[n - 1].xui), CounterDelta(a[n].direct, a[n - 1].direct));
      if pair.xui.generation != pair.direct.generation || pair.xui.at <= previous.xui.at || pair.direct.at <= previous.direct.at {
        return None;
      }
      if pair.direct.generation != generation {
        generation, awaitingWarmup := pair.direct.generation, true;
        walked := Walked(walked.boundaries + [Boundary(generation, false, pair.xui.at, Awaiting)], walked.windows, 0);
        GrowToStart(a, n, t);
      } else {
        var xuiDelta, directDelta := CounterDelta(pair.xui, previous.xui), CounterDelta(pair.direct, previous.direct);
        if xuiDelta.None? || directDelta.None? { return None; }
        walked := Observe(a, n, t, awaitingWarmup, walked, xuiDelta.value, directDelta.value);
        awaitingWarmup := false;
      }
      previous := pair;
    }
    SoundToAll(a, |a|);
    r := Some(walked);
  }

  // ----- Runs of one generation -----

  /** `a[i..j]` is a maximal stretch of one generation. */
  predicate RunAt(a: seq<Pair>, i: nat, j: nat) {
    && i < j <= |a| && !Continues(a, i) && (j < |a| ==> !Continues(a, j))
    && forall k :: i < k < j ==> Continues(a, k)
  }

  lemma {:induction false} LastRunShape(a: seq<Pair>, n: nat)
    requires 0 < n <= |a|
    ensures var i := n - LastRun(a, n); !Continues(a, i) && forall k :: i < k < n ==> Continues(a, k)
  {
    if Continues(a, n - 1) { LastRunShape(a, n - 1); }
  }

  /** LastRun measures the one maximal stretch that reaches the end. */
  lemma LastRunIsTheLast(a: seq<Pair>, i: nat)
    requires i < |a|
    ensures RunAt(a, i, |a|) <==> i == |a| - LastRun(a, |a|)
  {
    LastRunShape(a, |a|);
  }

  /** The stretch that starts at `i` ends somewhere. */
  lemma {:induction false} RunFrom(a: seq<Pair>, i: nat, k: nat) returns (j: nat)
    requires i < k <= |a| && !Continues(a, i) && forall m :: i < m < k ==> Continues(a, m)
    ensures k <= j && RunAt(a, i, j)
    decreases |a| - k
  {
    if k < |a| && Continues(a, k) { j := RunFrom(a, i, k + 1); } else { j := k; }
  }

  ghost predicate RunsHaveTwo(a: seq<Pair>) { forall i, j :: RunAt(a, i, j) ==> j - i >= 2 }

  predicate AllStabilized(rows: seq<Boundary>) { forall j :: 0 <= j < |rows| ==> rows[j].status.Stabilized? }

  predicate AllWithin(rows: seq<Window>) { forall j :: 0 <= j < |rows| ==> rows[j].within }

  ghost predicate SteadiesWithin(a: seq<Pair>, t: Tolerance) {
    forall i :: 0 <= i < |a| && SteadyAt(a, i) ==> WithinAt(a, i, t)
  }

  /** No boundary is left unresolved exactly when every generation has a second checkpoint. */
  lemma StabilizedIffRunsHaveTwo(a: seq<Pair>)
    ensures AllStabilized(BoundaryRows(a, |a|)) <==> RunsHaveTwo(a)
  {
    var n := |a|;
    var rows := BoundaryRows(a, n);
    if AllStabilized(rows) {
      forall i, j | RunAt(a, i, j) ensures j - i >= 2 {
        assert i in Starts(a, n);
        var m :| 0 <= m < |Starts(a, n)| && Starts(a, n)[m] == i;
        assert rows[m] == BoundaryRow(a, n, i);
      }
    }
    if RunsHaveTwo(a) {
      forall m | 0 <= m < |rows| ensures rows[m].status.Stabilized? {
        var i := Starts(a, n)[m];
        var j := RunFrom(a, i, i + 1);
        assert Continues(a, i + 1);
      }
    }
  }

  /** No window is over its threshold exactly when all steady positions are within theirs. */
  lemma WithinIffSteadiesWithin(a: seq<Pair>, t: Tolerance)
    ensures AllWithin(WindowRows(a, |a|, t)) <==> SteadiesWithin(a, t)
  {
    var n := |a|;
    var rows := WindowRows(a, n, t);
    if AllWithin(rows) {
      forall i | 0 <= i < n && SteadyAt(a, i) ensures WithinAt(a, i, t) {
        assert i in Steadies(a, n);
        var m :| 0 <= m < |Steadies(a, n)| && Steadies(a, n)[m] == i;
        assert rows[m].within;
      }
    } else {
      var m :| 0 <= m < |rows| && !rows[m].within;
      assert !WithinAt(a, Steadies(a, n)[m], t);
    }
  }
}
