/**
 * compareRestartAwareShadowUsage as a whole: both sample lists are indexed by identity and
 * checkpoint, every common identity is walked in time order, and the report is judged.
 */
module ShadowReport {
  import opened Common
  import opened ShadowComparison

  type Checkpoints = map<string, Sample>
  type Index = map<string, Checkpoints>

  // ----- Indexing -----

  /** indexSamples; None where a checkpoint is reported twice. */
  function IndexOf(samples: seq<Sample>): Option<Index> {
    if |samples| == 0 then Some(map[])
    else
      match IndexOf(samples[..|samples| - 1])
      case None => None
      case Some(m) => Added(m, Last(samples))
  }

  function Added(m: Index, s: Sample): Option<Index> {
    var checkpoints := if s.identity in m then m[s.identity] else map[];
    if s.checkpoint in checkpoints then None else Some(m[s.identity := checkpoints[s.checkpoint := s]])
  }

  method IndexSamples(samples: seq<Sample>) returns (r: Option<Index>)
    ensures r == IndexOf(samples)
  {
    var identities: Index := map[];
    for i := 0 to |samples|
      invariant IndexOf(samples[..i]) == Some(identities)
      invariant IndexOf(samples[..i]).None? ==> IndexOf(samples).None?
    {
      assert samples[..i + 1][..i] == samples[..i];
      var sample := samples[i];
      var checkpoints := if sample.identity in identities then identities[sample.identity] else map[];
      if sample.checkpoint in checkpoints {
        ClashStays(samples, i + 1);
        return None;
      }
      identities := identities[sample.identity := checkpoints[sample.checkpoint := sample]];
    }
    assert samples[..|samples|] == samples;
    r := Some(identities);
  }

  lemma {:induction false} ClashStays(samples: seq<Sample>, n: nat)
    requires n <= |samples| && IndexOf(samples[..n]).None?
    ensures IndexOf(samples).None?
    decreases |samples|
  {
    if n == |samples| {
      assert samples[..n] == samples;
    } else {
      var b := samples[..|samples| - 1];
      assert b[..n] == samples[..n];
      ClashStays(b, n);
    }
  }

  predicate SameKey(s: Sample, t: Sample) { s.identity == t.identity && s.checkpoint == t.checkpoint }

  /** Some checkpoint of some identity is reported twice. */
  ghost predicate Clash(bag: multiset<Sample>) {
    (exists s :: s in bag && bag[s] >= 2) || exists s, t :: s in bag && t in bag && s != t && SameKey(s, t)
  }

  function Find(m: Index, k: string, c: string): Option<Sample> {
    if k in m && c in m[k] then Some(m[k][c]) else None
  }

  /** The index holds exactly the samples, each under its identity and checkpoint. */
  ghost predicate Holds(m: Index, bag: multiset<Sample>) {
    && (forall k, c :: Find(m, k, c).Some? ==>
          (Find(m, k, c).value in bag && Find(m, k, c).value.identity == k && Find(m, k, c).value.checkpoint == c))
    && (forall s :: s in bag ==> Find(m, s.identity, s.checkpoint) == Some(s))
    && NoneEmpty(m)
  }

  ghost predicate NoneEmpty(m: Index) { forall k :: k in m ==> m[k] != map[] }

  lemma FindAdded(m: Index, s: Sample, k: string, c: string)
    requires Added(m, s).Some?
    ensures Find(Added(m, s).value, k, c) == if k == s.identity && c == s.checkpoint then Some(s) else Find(m, k, c)
  {
  }

  lemma AddedHolds(m: Index, bag: multiset<Sample>, s: Sample)
    requires Holds(m, bag) && Added(m, s).Some?
    ensures Holds(Added(m, s).value, bag + multiset{s})
  {
    var n, all := Added(m, s).value, bag + multiset{s};
    forall k, c ensures Find(n, k, c) == if k == s.identity && c == s.checkpoint then Some(s) else Find(m, k, c) {
      FindAdded(m, s, k, c);
    }
    assert Find(m, s.identity, s.checkpoint).None?;
    forall r | r in all ensures Find(n, r.identity, r.checkpoint) == Some(r) {
      assert r == s || r in bag;
    }
    assert s.checkpoint in n[s.identity];
  }

  lemma {:induction false} IndexIsExact(samples: seq<Sample>)
    ensures IndexOf(samples).None? <==> Clash(multiset(samples))
    ensures IndexOf(samples).Some? ==> Holds(IndexOf(samples).value, multiset(samples))
    decreases |samples|
  {
    if |samples| > 0 {
      var b, s := samples[..|samples| - 1], Last(samples);
      assert samples == b + [s];
      var bag, all := multiset(b), multiset(samples);
      assert all == bag + multiset{s};
      IndexIsExact(b);
      match IndexOf(b)
      case None => ClashGrows(bag, s);
      case Some(m) =>
        NewClash(m, bag, s);
        if Added(m, s).Some? { AddedHolds(m, bag, s); }
    }
  }

  lemma ClashGrows(bag: multiset<Sample>, s: Sample)
    requires Clash(bag)
    ensures Clash(bag + multiset{s})
  {
    var all := bag + multiset{s};
    if r :| r in bag && bag[r] >= 2 {
      assert all[r] >= 2;
    } else {
      var p, q :| p in bag && q in bag && p != q && SameKey(p, q);
      assert p in all && q in all;
    }
  }

  lemma NewClash(m: Index, bag: multiset<Sample>, s: Sample)
    requires Holds(m, bag) && !Clash(bag)
    ensures Added(m, s).None? <==> Clash(bag + multiset{s})
  {
    var all := bag + multiset{s};
    if Added(m, s).None? {
      var known := m[s.identity][s.checkpoint];
      assert Find(m, s.identity, s.checkpoint) == Some(known);
      assert known in bag && SameKey(known, s);
      if known == s { assert all[s] >= 2; } else { assert known in all && s in all; }
    } else {
      assert forall r :: r in bag ==> !SameKey(r, s);
      assert s !in bag;
    }
  }

  /** The index depends on which samples there are, not on their order. */
  lemma IndexIgnoresOrder(xs: seq<Sample>, ys: seq<Sample>)
    requires multiset(xs) == multiset(ys)
    ensures IndexOf(xs) == IndexOf(ys)
  {
    IndexIsExact(xs);
    IndexIsExact(ys);
    if IndexOf(xs).Some? { OneIndex(IndexOf(xs).value, IndexOf(ys).value, multiset(xs)); }
  }

  lemma OneIndex(m: Index, n: Index, bag: multiset<Sample>)
    requires Holds(m, bag) && Holds(n, bag)
    ensures m == n
  {
    forall k, c ensures Find(m, k, c) == Find(n, k, c) {
      if Find(m, k, c).Some? {
        assert Find(m, k, c).value in bag;
      } else if Find(n, k, c).Some? {
        assert Find(n, k, c).value in bag;
      }
    }
    SameFinds(m, n);
  }

  lemma SameFinds(m: Index, n: Index)
    requires (forall k, c :: Find(m, k, c) == Find(n, k, c)) && NoneEmpty(m) && NoneEmpty(n)
    ensures m == n
  {
    forall k ensures k in m <==> k in n {
      SameKeys(m, n, k);
      SameKeys(n, m, k);
    }
    forall k | k in m ensures m[k] == n[k] {
      forall c ensures c in m[k] <==> c in n[k] {
        assert Find(m, k, c) == Find(n, k, c);
      }
      assert forall c :: c in m[k] ==> Find(m, k, c) == Find(n, k, c);
    }
  }

  lemma SameKeys(m: Index, n: Index, k: string)
    requires (forall k, c :: Find(m, k, c) == Find(n, k, c)) && NoneEmpty(m)
    ensures k in m ==> k in n
  {
    if k in m {
      var c :| c in m[k];
      assert Find(m, k, c).Some?;
    }
  }

  // ----- Aligning one identity -----

  predicate InOrder(cs: seq<string>, x: Checkpoints) {
    && (forall c :: c in cs ==> c in x)
    && forall i, j :: 0 <= i < j < |cs| ==> cs[i] != cs[j] && x[cs[i]].at <= x[cs[j]].at
  }

  /** `cs` lists the checkpoints `keys`, each once, by the time x-ui sampled them. */
  ghost predicate Aligned(cs: seq<string>, x: Checkpoints, keys: set<string>) {
    InOrder(cs, x) && forall c :: c in cs <==> c in keys
  }

  /** Where the first later checkpoint stands. */
  function Position(cs: seq<string>, x: Checkpoints, c: string): (i: nat)
    requires InOrder(cs, x) && c in x
    ensures i <= |cs| && (forall j :: 0 <= j < i ==> x[cs[j]].at <= x[c].at)
    ensures forall j :: i <= j < |cs| ==> x[c].at <= x[cs[j]].at
    decreases |cs|
  {
    if |cs| == 0 || x[Last(cs)].at <= x[c].at then |cs| else Position(cs[..|cs| - 1], x, c)
  }

  function Inserted(cs: seq<string>, x: Checkpoints, c: string): (r: seq<string>)
    requires InOrder(cs, x) && c in x && c !in cs
    ensures InOrder(r, x) && |r| == |cs| + 1 && forall e :: e in r <==> e in cs || e == c
  {
    var i := Position(cs, x, c);
    var r := cs[..i] + [c] + cs[i..];
    assert forall e :: e in cs <==> e in cs[..i] || e in cs[i..];
    r
  }

  /** Some time order of the checkpoints `keys`. */
  ghost function Order(x: Checkpoints, keys: set<string>): (cs: seq<string>)
    requires keys <= x.Keys
    ensures Aligned(cs, x, keys) && |cs| == |keys|
  {
    if keys == {} then [] else
      var c :| c in keys;
      Inserted(Order(x, keys - {c}), x, c)
  }

  function Pairs(cs: seq<string>, x: Checkpoints, d: Checkpoints): (a: seq<Pair>)
    requires forall c :: c in cs ==> c in x && c in d
    ensures |a| == |cs|
  {
    seq(|cs|, i requires 0 <= i < |cs| => Pair(x[cs[i]], d[cs[i]]))
  }

  predicate StrictOrder(cs: seq<string>, x: Checkpoints) {
    InOrder(cs, x) && forall i, j :: 0 <= i < j < |cs| ==> x[cs[i]].at < x[cs[j]].at
  }

  lemma {:induction false} SoundIsStrict(cs: seq<string>, x: Checkpoints, d: Checkpoints, i: nat, j: nat)
    requires InOrder(cs, x) && (forall c :: c in cs ==> c in d) && Sound(Pairs(cs, x, d))
    requires i < j < |cs|
    ensures x[cs[i]].at < x[cs[j]].at
  {
    assert SoundAt(Pairs(cs, x, d), j);
    if i < j - 1 { SoundIsStrict(cs, x, d, i, j - 1); }
  }

  ghost predicate SameElements(a: seq<string>, b: seq<string>) { forall c :: c in a <==> c in b }

  lemma {:induction false} OneStrictOrder(a: seq<string>, b: seq<string>, x: Checkpoints)
    requires StrictOrder(a, x) && InOrder(b, x) && SameElements(a, b)
    ensures a == b
    decreases |a|
  {
    if |a| == 0 {
      NoElements(b);
    } else {
      assert Last(a) in b;
      SameLast(a, b, x);
      Shorter(a, x);
      Shorter(b, x);
      WithoutLast(a, b, x, a[..|a| - 1], b[..|b| - 1]);
      OneStrictOrder(a[..|a| - 1], b[..|b| - 1], x);
      assert a == a[..|a| - 1] + [Last(a)] && b == b[..|b| - 1] + [Last(b)];
    }
  }

  lemma NoElements(b: seq<string>)
    ensures (forall c :: c !in b) ==> b == []
  {
    assert |b| > 0 ==> b[0] in b;
  }

  lemma Shorter(a: seq<string>, x: Checkpoints)
    requires |a| > 0 && InOrder(a, x)
    ensures InOrder(a[..|a| - 1], x) && (StrictOrder(a, x) ==> StrictOrder(a[..|a| - 1], x))
  {
  }

  lemma WithoutLast(a: seq<string>, b: seq<string>, x: Checkpoints, p: seq<string>, q: seq<string>)
    requires |a| > 0 && |b| > 0 && InOrder(a, x) && InOrder(b, x) && Last(a) == Last(b) && SameElements(a, b)
    requires p == a[..|a| - 1] && q == b[..|b| - 1]
    ensures SameElements(p, q)
  {
    forall c ensures c in p <==> c in q {
      InFront(a, x, c);
      InFront(b, x, c);
    }
  }

  lemma InFront(a: seq<string>, x: Checkpoints, c: string)
    requires |a| > 0 && InOrder(a, x)
    ensures c in a[..|a| - 1] <==> c in a && c != Last(a)
  {
    assert a == a[..|a| - 1] + [Last(a)];
  }

  lemma SameLast(a: seq<string>, b: seq<string>, x: Checkpoints)
    requires |a| > 0 && |b| > 0 && StrictOrder(a, x) && InOrder(b, x) && SameElements(a, b)
    ensures Last(a) == Last(b)
  {
    assert Last(b) in a && Last(a) in b;
    var i :| 0 <= i < |a| && a[i] == Last(b);
    var j :| 0 <= j < |b| && b[j] == Last(a);
    assert x[Last(a)].at <= x[Last(b)].at;
  }

  /** The common checkpoints of one identity in time order. */
  ghost function Walkable(x: Checkpoints, d: Checkpoints): seq<Pair> {
    Pairs(Order(x, x.Keys * d.Keys), x, d)
  }

  /** However the sort leaves equal times, it makes no difference: they are an error. */
  lemma SortDoesNotMatter(cs: seq<string>, x: Checkpoints, d: Checkpoints)
    requires Aligned(cs, x, x.Keys * d.Keys)
    ensures Sound(Pairs(cs, x, d)) <==> Sound(Walkable(x, d))
    ensures Sound(Walkable(x, d)) ==> Pairs(cs, x, d) == Walkable(x, d)
    ensures |cs| == |Walkable(x, d)|
  {
    var all := x.Keys * d.Keys;
    var o := Order(x, all);
    if Sound(Pairs(cs, x, d)) { StrictlyAligned(cs, o, x, d); }
    if Sound(Walkable(x, d)) { StrictlyAligned(o, cs, x, d); }
    SameLength(cs, all);
  }

  lemma StrictlyAligned(cs: seq<string>, o: seq<string>, x: Checkpoints, d: Checkpoints)
    requires Aligned(cs, x, x.Keys * d.Keys) && Aligned(o, x, x.Keys * d.Keys)
    requires Sound(Pairs(cs, x, d))
    ensures cs == o
  {
    forall i, j | 0 <= i < j < |cs| ensures x[cs[i]].at < x[cs[j]].at { SoundIsStrict(cs, x, d, i, j); }
    OneStrictOrder(cs, o, x);
  }

  lemma {:induction false} SameLength(cs: seq<string>, keys: set<string>)
    requires (forall i, j :: 0 <= i < j < |cs| ==> cs[i] != cs[j]) && forall c :: c in cs <==> c in keys
    ensures |cs| == |keys|
  {
    if |cs| > 0 {
      var b := cs[..|cs| - 1];
      assert cs == b + [Last(cs)];
      SameLength(b, keys - {Last(cs)});
    } else {
      assert keys == {};
    }
  }

  /** Filter, pair up and sort. */
  method Align(x: Checkpoints, d: Checkpoints) returns (cs: seq<string>)
    ensures Aligned(cs, x, x.Keys * d.Keys)
  {
    cs := [];
    var remaining := x.Keys;
    while remaining != {}
      invariant remaining <= x.Keys && Aligned(cs, x, (x.Keys - remaining) * d.Keys)
    {
      var c :| c in remaining;
      if c in d { cs := Inserted(cs, x, c); }
      remaining := remaining - {c};
    }
  }

  // ----- Counting -----

  /** The counts of the report, for one identity or summed. */
  datatype Tally = Tally(checkpoints: nat, steadyWindows: nat, boundaries: nat, unresolved: nat,
                         missingUsers: nat, missingCheckpoints: nat, insufficient: nat, overThreshold: nat)
  {
    function Plus(o: Tally): Tally {
      Tally(checkpoints + o.checkpoints, steadyWindows + o.steadyWindows, boundaries + o.boundaries,
            unresolved + o.unresolved, missingUsers + o.missingUsers, missingCheckpoints + o.missingCheckpoints,
            insufficient + o.insufficient, overThreshold + o.overThreshold)
    }

    /** Nothing to object to. */
    predicate Clean() {
      unresolved == 0 && missingUsers == 0 && missingCheckpoints == 0 && insufficient == 0 && overThreshold == 0
    }
  }

  const NOTHING := Tally(0, 0, 0, 0, 0, 0, 0, 0)
  const ABSENT_USER := Tally(0, 0, 0, 0, 1, 0, 0, 0)

  /** allowedDifference; `relative` is relativePercent scaled by ten thousand and rounded. */
  function AllowedDifference(absolute: nat, relative: nat): Tolerance {
    (xuiBytes: int) =>
      var share := xuiBytes * relative / 1_000_000;
      if absolute > share then absolute else share
  }

  /** A difference is tolerated if it is within the absolute bound or within the percentage of what x-ui metered. */
  lemma ToleranceMeans(absolute: nat, relative: nat, xuiBytes: nat, difference: nat)
    ensures difference <= AllowedDifference(absolute, relative)(xuiBytes)
            <==> difference <= absolute || difference * 1_000_000 <= xuiBytes * relative
  {
    var product := xuiBytes * relative;
    assert AllowedDifference(absolute, relative)(xuiBytes)
        == if absolute > product / 1_000_000 then absolute else product / 1_000_000;
  }

  function Unresolved(rows: seq<Boundary>): (n: nat)
    ensures n == 0 <==> AllStabilized(rows)
  {
    if |rows| == 0 then 0
    else Unresolved(rows[..|rows| - 1]) + if Last(rows).status.Awaiting? then 1 else 0
  }

  function OverThreshold(rows: seq<Window>): (n: nat)
    ensures n == 0 <==> AllWithin(rows)
  {
    if |rows| == 0 then 0
    else OverThreshold(rows[..|rows| - 1]) + if Last(rows).within then 0 else 1
  }

  /** The counts the walk over `a` contributes. */
  function Counted(w: Walked, n: nat, missing: nat, minimum: int): Tally {
    Tally(n, |w.windows|, |w.boundaries|, Unresolved(w.boundaries), 0, missing,
          if n > 0 && w.steadyWindows < minimum then 1 else 0, OverThreshold(w.windows))
  }

  function Unmatched(x: Checkpoints, d: Checkpoints): nat { |x.Keys - d.Keys| + |d.Keys - x.Keys| }

  ghost function TallyOf(x: Checkpoints, d: Checkpoints, t: Tolerance, minimum: int): Tally {
    var a := Walkable(x, d);
    Counted(Rows(a, |a|, t), |a|, Unmatched(x, d), minimum)
  }

  /** One identity that both sources know; None where the source throws. */
  method CompareIdentity(x: Checkpoints, d: Checkpoints, t: Tolerance, minimum: int) returns (r: Option<Tally>)
    ensures r.Some? <==> Sound(Walkable(x, d))
    ensures r.Some? ==> r.value == TallyOf(x, d, t, minimum)
  {
    var missing := Unmatched(x, d);
    var cs := Align(x, d);
    var a := Pairs(cs, x, d);
    SortDoesNotMatter(cs, x, d);
    if |a| == 0 { return Some(Counted(Walked([], [], 0), 0, missing, minimum)); }
    var walked := Walk(a, t);
    if walked.None? { return None; }
    r := Some(Counted(walked.value, |a|, missing, minimum));
  }

  /** What identity `k` contributes to the report. */
  ghost function Share(k: string, x: Index, d: Index, t: Tolerance, minimum: int): Tally {
    if k in x && k in d then TallyOf(x[k], d[k], t, minimum) else ABSENT_USER
  }

  ghost function Shares(x: Index, d: Index, t: Tolerance, minimum: int): string -> Tally {
    (k: string) => Share(k, x, d, t, minimum)
  }

  ghost function Total(keys: set<string>, share: string -> Tally): Tally {
    if keys == {} then NOTHING else
      var k :| k in keys;
      share(k).Plus(Total(keys - {k}, share))
  }

  lemma FromNothing(keys: set<string>, share: string -> Tally) returns (total: Tally, left: Tally)
    ensures left == Total(keys, share) == total && NOTHING.Plus(left) == total
  {
    total := Total(keys, share);
    left := total;
    PlusNothing(left);
  }

  lemma PlusNothing(a: Tally)
    ensures NOTHING.Plus(a) == a && a.Plus(NOTHING) == a
  {
  }

  lemma PlusGroups(a: Tally, b: Tally, c: Tally)
    ensures a.Plus(b.Plus(c)) == a.Plus(b).Plus(c)
  {
  }

  lemma PlusSwaps(a: Tally, b: Tally, c: Tally)
    ensures a.Plus(b.Plus(c)) == b.Plus(a.Plus(c))
  {
  }

  /** The sum may be taken in any order. */
  lemma {:induction false} TotalPicks(keys: set<string>, k: string, share: string -> Tally)
    requires k in keys
    ensures Total(keys, share) == share(k).Plus(Total(keys - {k}, share))
    decreases |keys|
  {
    var j :| j in keys && Total(keys, share) == share(j).Plus(Total(keys - {j}, share));
    if j != k {
      TotalPicks(keys - {j}, k, share);
      TotalPicks(keys - {k}, j, share);
      assert keys - {j} - {k} == keys - {k} - {j};
      PlusSwaps(share(j), share(k), Total(keys - {k} - {j}, share));
    }
  }

  lemma {:induction false} TotalIsClean(keys: set<string>, share: string -> Tally)
    ensures Total(keys, share).Clean() <==> forall k :: k in keys ==> share(k).Clean()
    decreases |keys|
  {
    if keys != {} {
      var k :| k in keys;
      TotalPicks(keys, k, share);
      TotalIsClean(keys - {k}, share);
      assert forall j :: j in keys <==> j == k || j in keys - {k};
    }
  }

  // ----- The report -----

  datatype Report = Report(ready: bool, identities: nat, counts: Tally)

  predicate Ready(identities: nat, counts: Tally) {
    identities > 0 && counts.missingUsers + counts.missingCheckpoints == 0 && counts.unresolved == 0 &&
    counts.insufficient == 0 && counts.overThreshold == 0
  }

  /** If both sources know `k`, it can be walked without an error. */
  ghost predicate Fits(k: string, x: Index, d: Index) { k in x && k in d ==> Sound(Walkable(x[k], d[k])) }

  ghost predicate Comparable(x: Index, d: Index) { forall k :: k in x ==> Fits(k, x, d) }

  ghost function ReportOn(x: Index, d: Index, t: Tolerance, minimum: int): Report {
    var all := x.Keys + d.Keys;
    Report(Ready(|all|, Total(all, Shares(x, d, t, minimum))), |all|, Total(all, Shares(x, d, t, minimum)))
  }

  /** compareRestartAwareShadowUsage as a function of its inputs; None where it throws. */
  ghost function Comparison(xs: seq<Sample>, ds: seq<Sample>, t: Tolerance, minimum: int): Option<Report> {
    var x, d := IndexOf(xs), IndexOf(ds);
    if minimum < 1 || x.None? || d.None? || !Comparable(x.value, d.value) then None
    else Some(ReportOn(x.value, d.value, t, minimum))
  }

  method CompareRestartAwareShadowUsage(xs: seq<Sample>, ds: seq<Sample>, absolute: nat, relative: nat, minimum: int)
    returns (r: Option<Report>)
    ensures r == Comparison(xs, ds, AllowedDifference(absolute, relative), minimum)
  {
    if minimum < 1 { return None; }
    var xui := IndexSamples(xs);
    if xui.None? { return None; }
    var direct := IndexSamples(ds);
    if direct.None? { return None; }
    r := CompareIndexes(xui.value, direct.value, AllowedDifference(absolute, relative), minimum);
  }

  /** One identity. */
  method CompareUser(k: string, x: Index, d: Index, t: Tolerance, minimum: int) returns (r: Option<Tally>)
    ensures r.Some? <==> Fits(k, x, d)
    ensures r.Some? ==> r.value == Share(k, x, d, t, minimum)
  {
    if k in x && k in d {
      r := CompareIdentity(x[k], d[k], t, minimum);
    } else {
      r := Some(ABSENT_USER);
    }
  }

  ghost predicate AreShares(shares: map<string, Tally>, x: Index, d: Index, t: Tolerance, minimum: int) {
    forall k :: k in shares ==> Fits(k, x, d) && shares[k] == Share(k, x, d, t, minimum)
  }

  /** Both loops, over the x-ui identities and over those only the direct samples have, taken in any order. */
  method CompareUsers(x: Index, d: Index, t: Tolerance, minimum: int) returns (r: Option<map<string, Tally>>)
    ensures r.Some? <==> Comparable(x, d)
    ensures r.Some? ==> r.value.Keys == x.Keys + d.Keys && AreShares(r.value, x, d, t, minimum)
  {
    var shares: map<string, Tally> := map[];
    var remaining := x.Keys + d.Keys;
    while remaining != {}
      invariant shares.Keys == x.Keys + d.Keys - remaining && remaining <= x.Keys + d.Keys
      invariant AreShares(shares, x, d, t, minimum)
    {
      var k :| k in remaining;
      var one := CompareUser(k, x, d, t, minimum);
      if one.None? { return None; }
      shares := shares[k := one.value];
      remaining := remaining - {k};
    }
    r := Some(shares);
  }

  function Lookup(shares: map<string, Tally>): string -> Tally {
    (k: string) => if k in shares then shares[k] else NOTHING
  }

  /** Summing the report up. */
  method SumUp(shares: map<string, Tally>) returns (counts: Tally)
    ensures counts == Total(shares.Keys, Lookup(shares))
  {
    counts := NOTHING;
    var remaining := shares.Keys;
    ghost var share := Lookup(shares);
    ghost var total, left := FromNothing(remaining, share);
    while remaining != {}
      invariant remaining <= shares.Keys
      invariant left == Total(remaining, share)
      invariant counts.Plus(left) == total
    {
      var k :| k in remaining;
      left := NextTotal(counts, remaining, k, share);
      counts := counts.Plus(shares[k]);
      remaining := remaining - {k};
    }
    PlusNothing(counts);
  }

  lemma NextTotal(counts: Tally, open: set<string>, k: string, share: string -> Tally) returns (left: Tally)
    requires k in open
    ensures left == Total(open - {k}, share)
    ensures counts.Plus(Total(open, share)) == counts.Plus(share(k)).Plus(left)
  {
    left := Total(open - {k}, share);
    TotalPicks(open, k, share);
    PlusGroups(counts, share(k), left);
  }

  lemma {:induction false} TotalAgrees(keys: set<string>, f: string -> Tally, g: string -> Tally)
    requires forall k :: k in keys ==> f(k) == g(k)
    ensures Total(keys, f) == Total(keys, g)
    decreases |keys|
  {
    if keys != {} {
      var k :| k in keys;
      TotalPicks(keys, k, f);
      TotalPicks(keys, k, g);
      TotalAgrees(keys - {k}, f, g);
    }
  }

  method CompareIndexes(x: Index, d: Index, t: Tolerance, minimum: int) returns (r: Option<Report>)
    ensures r == if Comparable(x, d) then Some(ReportOn(x, d, t, minimum)) else None
  {
    var users := CompareUsers(x, d, t, minimum);
    if users.None? { return None; }
    var counts := SumUp(users.value);
    SumOfShares(users.value, x, d, t, minimum);
    var identities := |x.Keys + d.Keys|;
    r := Some(Report(Ready(identities, counts), identities, counts));
  }

  lemma SumOfShares(shares: map<string, Tally>, x: Index, d: Index, t: Tolerance, minimum: int)
    requires AreShares(shares, x, d, t, minimum)
    ensures Total(shares.Keys, Lookup(shares)) == Total(shares.Keys, Shares(x, d, t, minimum))
  {
    var f, g := Lookup(shares), Shares(x, d, t, minimum);
    forall k | k in shares.Keys ensures f(k) == g(k) { assert shares[k] == Share(k, x, d, t, minimum); }
    TotalAgrees(shares.Keys, f, g);
  }

  // ----- The verdict -----

  /** The generation that reaches the last checkpoint has at least `n` checkpoints. */
  ghost predicate LastRunHas(a: seq<Pair>, n: int) { forall i :: 0 <= i < |a| && RunAt(a, i, |a|) ==> |a| - i >= n }

  ghost predicate WalkReady(a: seq<Pair>, t: Tolerance, minimum: int) {
    RunsHaveTwo(a) && LastRunHas(a, minimum + 2) && SteadiesWithin(a, t)
  }

  /** What makes one identity ready, said of its checkpoints. */
  ghost predicate IdentityReady(x: Checkpoints, d: Checkpoints, t: Tolerance, minimum: int) {
    x.Keys == d.Keys && WalkReady(Walkable(x, d), t, minimum)
  }

  lemma UnmatchedIsZero(x: Checkpoints, d: Checkpoints)
    ensures Unmatched(x, d) == 0 <==> x.Keys == d.Keys
  {
    if Unmatched(x, d) == 0 { assert x.Keys - d.Keys == {} && d.Keys - x.Keys == {}; }
  }

  /** The last generation is long enough exactly when enough steady windows follow its start. */
  lemma StreakIsLongEnough(a: seq<Pair>, minimum: int)
    requires minimum >= 1 && |a| > 0
    ensures SteadyStreak(a, |a|) >= minimum <==> LastRunHas(a, minimum + 2)
  {
    forall i | 0 <= i < |a| ensures RunAt(a, i, |a|) <==> i == |a| - LastRun(a, |a|) { LastRunIsTheLast(a, i); }
    assert RunAt(a, |a| - LastRun(a, |a|), |a|);
  }

  lemma IdentityVerdict(x: Checkpoints, d: Checkpoints, t: Tolerance, minimum: int)
    requires minimum >= 1 && x != map[]
    ensures TallyOf(x, d, t, minimum).Clean() <==> IdentityReady(x, d, t, minimum)
  {
    UnmatchedIsZero(x, d);
    if x.Keys == d.Keys {
      assert x.Keys * d.Keys == x.Keys;
      assert |x.Keys| > 0;
      WalkVerdict(Walkable(x, d), t, minimum);
    }
  }

  lemma WalkVerdict(a: seq<Pair>, t: Tolerance, minimum: int)
    requires minimum >= 1 && |a| > 0
    ensures Counted(Rows(a, |a|, t), |a|, 0, minimum).Clean() <==> WalkReady(a, t, minimum)
  {
    StabilizedIffRunsHaveTwo(a);
    WithinIffSteadiesWithin(a, t);
    StreakIsLongEnough(a, minimum);
  }

  /** Both sources know the identity, and agree on it. */
  ghost predicate AllReady(x: Index, d: Index, t: Tolerance, minimum: int) {
    x.Keys == d.Keys && forall k :: k in x ==> IdentityReady(x[k], d[k], t, minimum)
  }

  /**
   * readyForDirect, wherever the comparison does not throw: there is an identity, both sources have
   * the same identities and checkpoints, every generation has two checkpoints, the last one two more
   * than the required windows, and every steady window is within its tolerance.
   */
  lemma ReadyIff(xs: seq<Sample>, ds: seq<Sample>, t: Tolerance, minimum: int)
    requires Comparison(xs, ds, t, minimum).Some?
    ensures Comparison(xs, ds, t, minimum).value.ready <==>
              |xs| + |ds| > 0 && AllReady(IndexOf(xs).value, IndexOf(ds).value, t, minimum)
  {
    var x, d := IndexOf(xs).value, IndexOf(ds).value;
    NoSamplesNoIdentity(xs, ds);
    IndexIsExact(xs);
    IndexVerdict(x, d, t, minimum);
  }

  lemma IndexVerdict(x: Index, d: Index, t: Tolerance, minimum: int)
    requires minimum >= 1 && NoneEmpty(x)
    ensures Total(x.Keys + d.Keys, Shares(x, d, t, minimum)).Clean() <==> AllReady(x, d, t, minimum)
  {
    var all, share := x.Keys + d.Keys, Shares(x, d, t, minimum);
    TotalIsClean(all, share);
    forall k | k in all ensures share(k).Clean() <==> BothReady(k, x, d, t, minimum) {
      ShareVerdict(k, x, d, t, minimum);
    }
    AllBothReady(x, d, t, minimum);
  }

  ghost predicate BothReady(k: string, x: Index, d: Index, t: Tolerance, minimum: int) {
    k in x && k in d && IdentityReady(x[k], d[k], t, minimum)
  }

  lemma ShareVerdict(k: string, x: Index, d: Index, t: Tolerance, minimum: int)
    requires minimum >= 1 && NoneEmpty(x)
    ensures Shares(x, d, t, minimum)(k).Clean() <==> BothReady(k, x, d, t, minimum)
  {
    if k in x && k in d { IdentityVerdict(x[k], d[k], t, minimum); }
  }

  lemma AllBothReady(x: Index, d: Index, t: Tolerance, minimum: int)
    ensures (forall k :: k in x.Keys + d.Keys ==> BothReady(k, x, d, t, minimum)) <==> AllReady(x, d, t, minimum)
  {
    if forall k :: k in x.Keys + d.Keys ==> BothReady(k, x, d, t, minimum) {
      forall k ensures k in x <==> k in d {
        assert k in x.Keys + d.Keys ==> BothReady(k, x, d, t, minimum);
      }
      assert x.Keys == d.Keys;
      forall k | k in x ensures IdentityReady(x[k], d[k], t, minimum) {
        assert k in x.Keys + d.Keys && BothReady(k, x, d, t, minimum);
      }
    }
  }

  lemma NoSamplesNoIdentity(xs: seq<Sample>, ds: seq<Sample>)
    requires IndexOf(xs).Some? && IndexOf(ds).Some?
    ensures |xs| + |ds| == 0 <==> |IndexOf(xs).value.Keys + IndexOf(ds).value.Keys| == 0
  {
    NoSamplesNoKeys(xs);
    NoSamplesNoKeys(ds);
    var x, d := IndexOf(xs).value.Keys, IndexOf(ds).value.Keys;
    assert x + d == {} <==> x == {} && d == {};
  }

  lemma NoSamplesNoKeys(samples: seq<Sample>)
    requires IndexOf(samples).Some?
    ensures |samples| == 0 <==> IndexOf(samples).value.Keys == {}
  {
    IndexIsExact(samples);
    if |samples| > 0 {
      assert samples[0] in multiset(samples);
      assert Find(IndexOf(samples).value, samples[0].identity, samples[0].checkpoint).Some?;
    }
  }

  /** Permuting either input changes neither whether it throws, nor the verdict, nor any count. */
  lemma OrderDoesNotMatter(xs: seq<Sample>, xs': seq<Sample>, ds: seq<Sample>, ds': seq<Sample>, t: Tolerance, minimum: int)
    requires multiset(xs) == multiset(xs') && multiset(ds) == multiset(ds')
    ensures Comparison(xs, ds, t, minimum) == Comparison(xs', ds', t, minimum)
  {
    IndexIgnoresOrder(xs, xs');
    IndexIgnoresOrder(ds, ds');
  }
}
