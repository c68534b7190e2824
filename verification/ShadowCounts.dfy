/** What the counts of the shadow report mean, said of the checkpoints and identities themselves. */
module ShadowCounts {
  import opened Common
  import opened ShadowComparison
  import opened ShadowReport

  /** How many positions below `n` satisfy `p`. */
  function Count(n: nat, p: nat -> bool): nat { if n == 0 then 0 else Count(n - 1, p) + if p(n - 1) then 1 else 0 }

  function IsStart(a: seq<Pair>): nat -> bool { (i: nat) => i < |a| && !Continues(a, i) }

  /** A generation of a single checkpoint. */
  function IsAlone(a: seq<Pair>): nat -> bool {
    (i: nat) => i < |a| && !Continues(a, i) && (i + 1 == |a| || !Continues(a, i + 1))
  }

  function IsSteady(a: seq<Pair>): nat -> bool { (i: nat) => i < |a| && SteadyAt(a, i) }

  /** A steady window whose sources differ by more than is tolerated. */
  function IsOver(a: seq<Pair>, t: Tolerance): nat -> bool {
    (i: nat) => i < |a| && SteadyAt(a, i)
                && (var x, d := a[i].xui.up - a[i - 1].xui.up + a[i].xui.down - a[i - 1].xui.down,
                                a[i].direct.up - a[i - 1].direct.up + a[i].direct.down - a[i - 1].direct.down;
                    x - d > t(x) || d - x > t(x))
  }

  // ----- One identity -----

  lemma {:induction false} StartsAreCounted(a: seq<Pair>, n: nat)
    requires n <= |a|
    ensures |Starts(a, n)| == Count(n, IsStart(a))
  {
    if n > 0 { StartsAreCounted(a, n - 1); }
  }

  /** The rows of the generations that start below `k`. */
  function RowsBelow(a: seq<Pair>, k: nat): seq<Boundary>
    requires k <= |a|
  {
    seq(|Starts(a, k)|, j requires 0 <= j < |Starts(a, k)| => BoundaryRow(a, |a|, Starts(a, k)[j]))
  }

  lemma GrowRowsBelow(a: seq<Pair>, k: nat)
    requires k < |a|
    ensures RowsBelow(a, k + 1) == if Continues(a, k) then RowsBelow(a, k) else RowsBelow(a, k) + [BoundaryRow(a, |a|, k)]
  {
  }

  lemma UnresolvedPush(rows: seq<Boundary>, row: Boundary)
    ensures Unresolved(rows + [row]) == Unresolved(rows) + if row.status.Awaiting? then 1 else 0
  {
    Snoc(rows, row);
  }

  lemma OverPush(rows: seq<Window>, row: Window)
    ensures OverThreshold(rows + [row]) == OverThreshold(rows) + if row.within then 0 else 1
  {
    Snoc(rows, row);
  }

  lemma AwaitingIsAlone(a: seq<Pair>, i: nat)
    requires i < |a| && !Continues(a, i)
    ensures BoundaryRow(a, |a|, i).status.Awaiting? <==> IsAlone(a)(i)
  {
  }

  lemma OutsideIsOver(a: seq<Pair>, i: nat, t: Tolerance)
    requires i < |a| && SteadyAt(a, i)
    ensures !WindowRow(a, i, t).within <==> IsOver(a, t)(i)
  {
  }

  lemma {:induction false} UnresolvedAreCounted(a: seq<Pair>, k: nat)
    requires k <= |a|
    ensures Unresolved(RowsBelow(a, k)) == Count(k, IsAlone(a))
  {
    if k > 0 {
      UnresolvedAreCounted(a, k - 1);
      GrowRowsBelow(a, k - 1);
      if !Continues(a, k - 1) {
        UnresolvedPush(RowsBelow(a, k - 1), BoundaryRow(a, |a|, k - 1));
        AwaitingIsAlone(a, k - 1);
      }
    }
  }

  /** `rows` are as many as there are steady positions below `n`, and so many of them are over. */
  predicate Counts(a: seq<Pair>, n: nat, t: Tolerance, rows: seq<Window>) {
    |rows| == Count(n, IsSteady(a)) && OverThreshold(rows) == Count(n, IsOver(a, t))
  }

  lemma {:induction false} WindowsAreCounted(a: seq<Pair>, n: nat, t: Tolerance, rows: seq<Window>)
    requires n <= |a| && rows == WindowRows(a, n, t)
    ensures Counts(a, n, t, rows)
  {
    if n > 0 {
      var before := WindowRows(a, n - 1, t);
      WindowsAreCounted(a, n - 1, t, before);
      WindowStep(a, n - 1, t, before, rows);
    }
  }

  lemma WindowStep(a: seq<Pair>, n: nat, t: Tolerance, rows: seq<Window>, more: seq<Window>)
    requires n < |a| && rows == WindowRows(a, n, t) && more == WindowRows(a, n + 1, t) && Counts(a, n, t, rows)
    ensures Counts(a, n + 1, t, more)
  {
    GrowWindows(a, n, t);
    if SteadyAt(a, n) {
      OverPush(rows, WindowRow(a, n, t));
      OutsideIsOver(a, n, t);
    } else {
      ConcatEmpty(rows);
    }
  }

  /** The counts of an identity both sources know. */
  lemma IdentityCounts(x: Checkpoints, d: Checkpoints, t: Tolerance, minimum: int)
    requires minimum >= 1
    ensures var a, c := Walkable(x, d), TallyOf(x, d, t, minimum);
            && c.checkpoints == |a| == |x.Keys * d.Keys|
            && c.boundaries == Count(|a|, IsStart(a)) && c.unresolved == Count(|a|, IsAlone(a))
            && c.steadyWindows == Count(|a|, IsSteady(a)) && c.overThreshold == Count(|a|, IsOver(a, t))
            && c.missingUsers == 0 && c.missingCheckpoints == |x.Keys - d.Keys| + |d.Keys - x.Keys|
            && c.insufficient == (if |a| > 0 && !LastRunHas(a, minimum + 2) then 1 else 0)
  {
    var a := Walkable(x, d);
    StartsAreCounted(a, |a|);
    assert BoundaryRows(a, |a|) == RowsBelow(a, |a|);
    UnresolvedAreCounted(a, |a|);
    WindowsAreCounted(a, |a|, t, WindowRows(a, |a|, t));
    if |a| > 0 { StreakIsLongEnough(a, minimum); }
  }

  /** What the row of a generation's second checkpoint says: who metered more during the warm-up, and by how much. */
  lemma WarmupRow(a: seq<Pair>, i: nat)
    requires i + 1 < |a| && !Continues(a, i) && Continues(a, i + 1)
    ensures var x, d := a[i + 1].xui.up - a[i].xui.up + a[i + 1].xui.down - a[i].xui.down,
                        a[i + 1].direct.up - a[i].direct.up + a[i + 1].direct.down - a[i].direct.down;
            var row := BoundaryRow(a, |a|, i);
            && row.generation == a[i].direct.generation && row.detectedAt == a[i].xui.at && (row.initial <==> i == 0)
            && row.status.Stabilized? && row.status.at == a[i + 1].xui.at
            && row.status.xuiBytes == x && row.status.directBytes == d
            && (row.status.classification == FirstObservationGap <==> d > x)
            && (row.status.gap == x - d || row.status.gap == d - x)
    ensures BoundaryRow(a, |a|, i) in BoundaryRows(a, |a|)
  {
    assert i in Starts(a, |a|);
    var j :| 0 <= j < |Starts(a, |a|)| && Starts(a, |a|)[j] == i;
    assert BoundaryRows(a, |a|)[j] == BoundaryRow(a, |a|, i);
  }

  // ----- The report -----

  /** Checkpoint `i` makes the comparison throw. */
  ghost predicate Offends(a: seq<Pair>, i: int) {
    0 <= i < |a|
    && var p := a[i];
       || p.xui.generation != p.direct.generation
       || (i > 0 && (p.xui.at <= a[i - 1].xui.at || p.direct.at <= a[i - 1].direct.at))
       || (i > 0 && p.direct.generation == a[i - 1].direct.generation
           && (p.xui.up < a[i - 1].xui.up || p.xui.down < a[i - 1].xui.down
               || p.direct.up < a[i - 1].direct.up || p.direct.down < a[i - 1].direct.down))
  }

  lemma SoundIffNoneOffends(a: seq<Pair>)
    ensures Sound(a) <==> forall i :: !Offends(a, i)
  {
    forall i: nat | i < |a| ensures SoundAt(a, i) <==> !Offends(a, i) {}
  }

  /**
   * Exactly when the comparison throws: no window is required, a source reports a checkpoint twice,
   * or some checkpoint of an identity both know has two generations, does not advance in time, or
   * goes back in a counter within its generation. Counters that stand still are no error.
   */
  lemma ThrowsIff(xs: seq<Sample>, ds: seq<Sample>, t: Tolerance, minimum: int)
    ensures Comparison(xs, ds, t, minimum).None? <==>
              || minimum < 1 || Clash(multiset(xs)) || Clash(multiset(ds))
              || (IndexOf(xs).Some? && IndexOf(ds).Some?
                  && exists k :: k in IndexOf(xs).value && k in IndexOf(ds).value
                       && exists i :: Offends(Walkable(IndexOf(xs).value[k], IndexOf(ds).value[k]), i))
  {
    IndexIsExact(xs);
    IndexIsExact(ds);
    if IndexOf(xs).Some? && IndexOf(ds).Some? {
      var x, d := IndexOf(xs).value, IndexOf(ds).value;
      forall k ensures Fits(k, x, d) <==> !(k in x && k in d && exists i :: Offends(Walkable(x[k], d[k]), i)) {
        if k in x && k in d { SoundIffNoneOffends(Walkable(x[k], d[k])); }
      }
    }
  }

  /** The sum of a measure over the identities, taken in any order. */
  ghost function Sum(keys: set<string>, f: string -> nat): nat {
    if keys == {} then 0 else
      var k :| k in keys;
      f(k) + Sum(keys - {k}, f)
  }

  ghost predicate Additive(field: Tally -> nat) {
    field(NOTHING) == 0 && forall a: Tally, b: Tally :: field(a.Plus(b)) == field(a) + field(b)
  }

  function Measured(share: string -> Tally, field: Tally -> nat): string -> nat { (k: string) => field(share(k)) }

  lemma SumPicksOne(keys: set<string>, f: string -> nat) returns (k: string)
    requires keys != {}
    ensures k in keys && Sum(keys, f) == f(k) + Sum(keys - {k}, f)
  {
    k :| k in keys && Sum(keys, f) == f(k) + Sum(keys - {k}, f);
  }

  lemma {:induction false} TotalIsSum(keys: set<string>, share: string -> Tally, field: Tally -> nat)
    requires Additive(field)
    ensures field(Total(keys, share)) == Sum(keys, Measured(share, field))
    decreases |keys|
  {
    if keys != {} {
      var k := SumPicksOne(keys, Measured(share, field));
      TotalPicks(keys, k, share);
      TotalIsSum(keys - {k}, share, field);
    }
  }

  /** An identity only one source knows counts as one missing user and as nothing else. */
  lemma AbsentCounts(k: string, x: Index, d: Index, t: Tolerance, minimum: int)
    requires k !in x || k !in d
    ensures var c := Share(k, x, d, t, minimum);
            && c.missingUsers == 1 && c.missingCheckpoints == 0 && c.checkpoints == 0 && c.steadyWindows == 0
            && c.boundaries == 0 && c.unresolved == 0 && c.insufficient == 0 && c.overThreshold == 0
  {
  }

  function Identities(samples: seq<Sample>): set<string> { set s | s in samples :: s.identity }

  lemma IndexedIdentities(samples: seq<Sample>)
    requires IndexOf(samples).Some?
    ensures IndexOf(samples).value.Keys == Identities(samples)
  {
    var m := IndexOf(samples).value;
    IndexIsExact(samples);
    forall s | s in samples ensures s.identity in m {
      assert s in multiset(samples);
      assert Find(m, s.identity, s.checkpoint) == Some(s);
    }
    forall k | k in m ensures k in Identities(samples) {
      var c :| c in m[k];
      assert Find(m, k, c) == Some(m[k][c]);
      assert m[k][c] in multiset(samples);
    }
  }

  /** The counts of the report are the sums of those of the identities, each identity of either source counted once. */
  lemma ReportCounts(xs: seq<Sample>, ds: seq<Sample>, t: Tolerance, minimum: int)
    requires Comparison(xs, ds, t, minimum).Some?
    ensures var x, d, r := IndexOf(xs).value, IndexOf(ds).value, Comparison(xs, ds, t, minimum).value;
            var all, share := Identities(xs) + Identities(ds), Shares(x, d, t, minimum);
            && r.identities == |all|
            && r.counts.checkpoints == Sum(all, Measured(share, (c: Tally) => c.checkpoints))
            && r.counts.steadyWindows == Sum(all, Measured(share, (c: Tally) => c.steadyWindows))
            && r.counts.boundaries == Sum(all, Measured(share, (c: Tally) => c.boundaries))
            && r.counts.unresolved == Sum(all, Measured(share, (c: Tally) => c.unresolved))
            && r.counts.missingUsers == Sum(all, Measured(share, (c: Tally) => c.missingUsers))
            && r.counts.missingCheckpoints == Sum(all, Measured(share, (c: Tally) => c.missingCheckpoints))
            && r.counts.insufficient == Sum(all, Measured(share, (c: Tally) => c.insufficient))
            && r.counts.overThreshold == Sum(all, Measured(share, (c: Tally) => c.overThreshold))
  {
    IndexedIdentities(xs);
    IndexedIdentities(ds);
    var all, share := Identities(xs) + Identities(ds), Shares(IndexOf(xs).value, IndexOf(ds).value, t, minimum);
    TotalIsSum(all, share, (c: Tally) => c.checkpoints);
    TotalIsSum(all, share, (c: Tally) => c.steadyWindows);
    TotalIsSum(all, share, (c: Tally) => c.boundaries);
    TotalIsSum(all, share, (c: Tally) => c.unresolved);
    TotalIsSum(all, share, (c: Tally) => c.missingUsers);
    TotalIsSum(all, share, (c: Tally) => c.missingCheckpoints);
    TotalIsSum(all, share, (c: Tally) => c.insufficient);
    TotalIsSum(all, share, (c: Tally) => c.overThreshold);
  }
}
