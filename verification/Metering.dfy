/** What metering conserves, and how quota and offline allowance follow from it. */
module Metering {
  import opened Common
  import opened AgentTables

  // ----- Runs -----

  datatype Event =
    | Sample(counters: seq<Counter>, online: bool)
    | UpsertUser(user: DesiredUser)
    | SetQuota(binding: string, quota: nat, revision: nat)
    | SetEnabled(binding: string, enabled: bool, revision: nat)
    | SetFlow(binding: string, flow: Flow)
    | Delete(binding: string)
    | Restore(users: seq<DesiredUser>)
    | Snapshot(users: seq<DesiredUser>)

  /** `ledger` is every sample ever put in a batch; `birth` is where it stood when a row was inserted. */
  datatype World = World(users: Users, ledger: seq<Entry>, birth: map<string, nat>)

  const EMPTY: World := World(map[], [], map[])

  /** A transaction that fails leaves the rows alone. */
  function UsersAfter(users: Users, e: Event): Users
    requires UniqueEmails(users)
  {
    match e
    case Sample(cs, online) => SampleAll(users, cs, online).users
    case UpsertUser(u) => Upsert(users, u).GetOr(users)
    case SetQuota(b, q, r) => WithQuota(users, b, q, r)
    case SetEnabled(b, on, r) => WithEnabled(users, b, on, r)
    case SetFlow(b, f) => WithFlow(users, b, f)
    case Delete(b) => users - {b}
    case Restore(us) => RestoreAll(users, us)
    case Snapshot(us) => Replace(users, us).GetOr(users)
  }

  function Next(w: World, e: Event): World
    requires UniqueEmails(w.users)
  {
    var users := UsersAfter(w.users, e);
    World(users,
          if e.Sample? then w.ledger + SampleAll(w.users, e.counters, e.online).entries else w.ledger,
          map b | b in users :: if b in w.birth && b in w.users then w.birth[b] else |w.ledger|)
  }

  // ----- A row's history -----

  function Of(ledger: seq<Entry>, b: string): seq<Entry> {
    if |ledger| == 0 then []
    else Of(ledger[..|ledger| - 1], b) + if Last(ledger).bindingId == b then [Last(ledger)] else []
  }

  lemma {:induction false} OfAppend(s: seq<Entry>, t: seq<Entry>, b: string)
    ensures Of(s + t, b) == Of(s, b) + Of(t, b)
  {
    if |t| == 0 {
      assert s + t == s;
    } else {
      OfAppend(s, t[..|t| - 1], b);
      assert (s + t)[..|s + t| - 1] == s + t[..|t| - 1];
    }
  }

  datatype Direction = Up | Down

  function Total(e: Entry, d: Direction): nat { if d.Up? then e.up else e.down }

  function DeltaOf(e: Entry, d: Direction): nat { if d.Up? then e.deltaUp else e.deltaDown }

  function Current(row: UserRow, d: Direction): nat { if d.Up? then row.up else row.down }

  /** Everything metered: the sum of the deltas. */
  function SumDeltas(h: seq<Entry>, d: Direction): nat {
    if |h| == 0 then 0 else SumDeltas(h[..|h| - 1], d) + DeltaOf(Last(h), d)
  }

  /** The last counter of every generation that has been left behind. */
  function ClosedGenerations(h: seq<Entry>, d: Direction): nat {
    if |h| <= 1 then 0
    else
      var before := h[..|h| - 1];
      ClosedGenerations(before, d)
      + if Last(before).generation != Last(h).generation then Total(Last(before), d) else 0
  }

  /** The history a row's columns stand for. */
  predicate Tracks(row: UserRow, h: seq<Entry>) {
    && (row.initialized <==> |h| > 0)
    && (|h| > 0 ==> Last(h).up == row.up && Last(h).down == row.down && Last(h).generation == row.generation)
  }

  /** Conservation for one history. */
  predicate Conserved(row: UserRow, h: seq<Entry>) {
    |h| > 0 ==> forall d: Direction :: SumDeltas(h, d) + Total(h[0], d) == Current(row, d) + ClosedGenerations(h, d)
  }

  function History(w: World, b: string): seq<Entry>
    requires b in w.birth && w.birth[b] <= |w.ledger|
  {
    Of(w.ledger[w.birth[b]..], b)
  }

  predicate RowInv(w: World, b: string) {
    && b in w.users && b in w.birth && w.birth[b] <= |w.ledger|
    && Tracks(w.users[b], History(w, b)) && Conserved(w.users[b], History(w, b))
  }

  predicate Inv(w: World) {
    && UniqueEmails(w.users)
    && w.birth.Keys == w.users.Keys
    && AllRows(w)
  }

  predicate AllRows(w: World) { forall b :: b in w.users ==> RowInv(w, b) }

  lemma ObserveConserves(row: UserRow, h: seq<Entry>, b: string, up: nat, down: nat, online: bool)
    requires Tracks(row, h) && Conserved(row, h)
    ensures var e := EntryFor(b, row, up, down);
            Tracks(Observed(row, up, down, online), h + [e]) && Conserved(Observed(row, up, down, online), h + [e])
  {
    var e := EntryFor(b, row, up, down);
    assert (h + [e])[..|h|] == h;
    forall d: Direction
      ensures SumDeltas(h + [e], d) + Total((h + [e])[0], d)
           == Current(Observed(row, up, down, online), d) + ClosedGenerations(h + [e], d)
    {
      assert SumDeltas(h + [e], d) == SumDeltas(h, d) + DeltaOf(e, d);
      if |h| > 0 { assert SumDeltas(h, d) + Total(h[0], d) == Current(row, d) + ClosedGenerations(h, d); }
    }
  }

  /** One more ledger entry continues the history of its own row and no other. */
  lemma HistoryGrows(w: World, e: Entry, users: Users, b: string)
    requires b in w.birth && w.birth[b] <= |w.ledger|
    ensures History(World(users, w.ledger + [e], w.birth), b)
         == History(w, b) + if e.bindingId == b then [e] else []
  {
    assert (w.ledger + [e])[w.birth[b]..] == w.ledger[w.birth[b]..] + [e];
    OfAppend(w.ledger[w.birth[b]..], [e], b);
    assert [e][..0] == [];
    assert Of([e], b) == if e.bindingId == b then [e] else [];
  }

  predicate SameCounters(row: UserRow, after: UserRow) {
    && after.initialized == row.initialized && after.generation == row.generation
    && after.up == row.up && after.down == row.down
  }

  lemma RowInvCarries(w: World, v: World, b: string)
    requires RowInv(w, b) && b in v.users && b in v.birth && v.birth[b] <= |v.ledger|
    requires SameCounters(w.users[b], v.users[b]) && History(v, b) == History(w, b)
    ensures RowInv(v, b)
  {
    var h := History(w, b);
    forall d: Direction ensures Current(v.users[b], d) == Current(w.users[b], d) {}
  }

  lemma RowInvGrows(w: World, v: World, b: string, up: nat, down: nat, online: bool)
    requires RowInv(w, b) && b in v.users && b in v.birth && v.birth[b] <= |v.ledger|
    requires v.users[b] == Observed(w.users[b], up, down, online)
    requires History(v, b) == History(w, b) + [EntryFor(b, w.users[b], up, down)]
    ensures RowInv(v, b)
  {
    ObserveConserves(w.users[b], History(w, b), b, up, down, online);
  }

  lemma OneEntryConserves(w: World, b: string, c: Counter, online: bool)
    requires Inv(w) && b in w.users && w.users[b].email == c.email
    ensures var e := EntryFor(b, w.users[b], c.up, c.down);
            Inv(World(w.users[b := Observed(w.users[b], c.up, c.down, online)], w.ledger + [e], w.birth))
  {
    var e := EntryFor(b, w.users[b], c.up, c.down);
    var users := w.users[b := Observed(w.users[b], c.up, c.down, online)];
    var v := World(users, w.ledger + [e], w.birth);
    assert UniqueEmails(users) && users.Keys == w.users.Keys;
    OneEntryAllRows(w, v, b, c, online);
  }

  lemma OneEntryAllRows(w: World, v: World, b: string, c: Counter, online: bool)
    requires AllRows(w) && b in w.users && w.birth.Keys == w.users.Keys
    requires v == World(w.users[b := Observed(w.users[b], c.up, c.down, online)],
                        w.ledger + [EntryFor(b, w.users[b], c.up, c.down)], w.birth)
    ensures AllRows(v)
  {
    forall x | x in v.users ensures RowInv(v, x) { OneEntryOneRow(w, v, b, c, online, x); }
  }

  lemma OneEntryOneRow(w: World, v: World, b: string, c: Counter, online: bool, x: string)
    requires b in w.users && x in w.users && RowInv(w, x)
    requires v == World(w.users[b := Observed(w.users[b], c.up, c.down, online)],
                        w.ledger + [EntryFor(b, w.users[b], c.up, c.down)], w.birth)
    ensures RowInv(v, x)
  {
    HistoryGrows(w, EntryFor(b, w.users[b], c.up, c.down), v.users, x);
    if x == b {
      RowInvGrows(w, v, b, c.up, c.down, online);
    } else {
      assert History(w, x) + [] == History(w, x);
      RowInvCarries(w, v, x);
    }
  }

  lemma SampleOneShape(s: Sampled, c: Counter, online: bool)
    requires UniqueEmails(s.users)
    ensures var t := SampleOne(s, c, online);
            || t == s
            || exists b :: b in s.users && s.users[b].email == c.email && s.users[b].enabled
                 && t.users == s.users[b := Observed(s.users[b], c.up, c.down, online)]
                 && t.entries == s.entries + [EntryFor(b, s.users[b], c.up, c.down)]
  {
  }

  lemma SampleOneConserves(w: World, s: Sampled, c: Counter, online: bool, v: World, v2: World)
    requires UniqueEmails(s.users) && v == World(s.users, w.ledger + s.entries, w.birth) && Inv(v)
    requires v2 == World(SampleOne(s, c, online).users, w.ledger + SampleOne(s, c, online).entries, w.birth)
    ensures Inv(v2)
  {
    SampleOneShape(s, c, online);
    var t := SampleOne(s, c, online);
    if t == s {
      assert v2 == v;
    } else {
      var b :| b in s.users && s.users[b].email == c.email && s.users[b].enabled
           && t.users == s.users[b := Observed(s.users[b], c.up, c.down, online)]
           && t.entries == s.entries + [EntryFor(b, s.users[b], c.up, c.down)];
      AppendedEntry(w, s, t, b, c, online, v, v2);
      OneEntryConserves(v, b, c, online);
    }
  }

  lemma AppendedEntry(w: World, s: Sampled, t: Sampled, b: string, c: Counter, online: bool, v: World, v2: World)
    requires b in s.users && v == World(s.users, w.ledger + s.entries, w.birth)
    requires t.users == s.users[b := Observed(s.users[b], c.up, c.down, online)]
    requires t.entries == s.entries + [EntryFor(b, s.users[b], c.up, c.down)]
    requires v2 == World(t.users, w.ledger + t.entries, w.birth)
    ensures v2 == World(v.users[b := Observed(v.users[b], c.up, c.down, online)],
                        v.ledger + [EntryFor(b, v.users[b], c.up, c.down)], v.birth)
  {
    assert w.ledger + t.entries == v.ledger + [EntryFor(b, v.users[b], c.up, c.down)];
  }

  /** Row by row, a sample continues the histories it starts from. */
  lemma {:induction false} SampleConserves(w: World, cs: seq<Counter>, online: bool)
    requires Inv(w)
    ensures Inv(World(SampleAll(w.users, cs, online).users, w.ledger + SampleAll(w.users, cs, online).entries, w.birth))
  {
    if |cs| == 0 {
      assert w.ledger + [] == w.ledger;
      assert World(w.users, w.ledger, w.birth) == w;
    } else {
      SampleConserves(w, cs[..|cs| - 1], online);
      var s, t := SampleAll(w.users, cs[..|cs| - 1], online), SampleAll(w.users, cs, online);
      SampleOneConserves(w, s, Last(cs), online, World(s.users, w.ledger + s.entries, w.birth),
                         World(t.users, w.ledger + t.entries, w.birth));
    }
  }

  /** A new row, or the columns metering looks at unchanged. */
  predicate KeepsCounters(users: Users, after: Users) {
    forall b :: b in after ==>
      if b in users then SameCounters(users[b], after[b]) else !after[b].initialized
  }

  lemma {:induction false} UpsertAllKeepsCounters(users: Users, us: seq<DesiredUser>)
    requires UpsertAll(users, us).Some?
    ensures KeepsCounters(users, UpsertAll(users, us).value)
    ensures users.Keys <= UpsertAll(users, us).value.Keys
  {
    if |us| > 0 { UpsertAllKeepsCounters(users, us[..|us| - 1]); }
  }

  lemma {:induction false} RestoreAllKeepsCounters(users: Users, us: seq<DesiredUser>)
    ensures KeepsCounters(users, RestoreAll(users, us)) && RestoreAll(users, us).Keys == users.Keys
  {
    if |us| > 0 {
      RestoreAllKeepsCounters(users, us[..|us| - 1]);
      assert KeepsCounters(RestoreAll(users, us[..|us| - 1]), RestoreAll(users, us));
    }
  }

  lemma {:induction false} RestoreAllKeepsEmails(users: Users, us: seq<DesiredUser>)
    requires UniqueEmails(users)
    ensures UniqueEmails(RestoreAll(users, us))
    ensures forall b :: b in RestoreAll(users, us) ==> b in users && RestoreAll(users, us)[b].email == users[b].email
  {
    if |us| > 0 { RestoreAllKeepsEmails(users, us[..|us| - 1]); }
  }

  lemma OthersKeepCounters(users: Users, e: Event)
    requires UniqueEmails(users) && !e.Sample?
    ensures UniqueEmails(UsersAfter(users, e)) && KeepsCounters(users, UsersAfter(users, e))
  {
    match e {
      case Restore(us) => RestoreAllKeepsCounters(users, us); RestoreAllKeepsEmails(users, us);
      case Snapshot(us) => if UpsertAll(users, us).Some? { UpsertAllKeepsCounters(users, us); }
      case UpsertUser(u) => UpsertKeepsCounters(users, u);
      case _ => RowWritesKeepCounters(users, e);
    }
  }

  lemma UpsertKeepsCounters(users: Users, u: DesiredUser)
    requires UniqueEmails(users)
    ensures UniqueEmails(UsersAfter(users, UpsertUser(u))) && KeepsCounters(users, UsersAfter(users, UpsertUser(u)))
  {
  }

  lemma RowWritesKeepCounters(users: Users, e: Event)
    requires UniqueEmails(users) && !e.Sample? && !e.Restore? && !e.Snapshot? && !e.UpsertUser?
    ensures UniqueEmails(UsersAfter(users, e)) && KeepsCounters(users, UsersAfter(users, e))
  {
    var after := UsersAfter(users, e);
    forall b | b in after ensures b in users && after[b].email == users[b].email && SameCounters(users[b], after[b]) {
      match e
      case SetQuota(_, _, _) =>
      case SetEnabled(_, _, _) =>
      case SetFlow(_, _) =>
      case Delete(_) =>
    }
    NoNewRows(users, after);
  }

  lemma NoNewRows(users: Users, after: Users)
    requires UniqueEmails(users)
    requires forall b :: b in after ==> b in users && after[b].email == users[b].email && SameCounters(users[b], after[b])
    ensures UniqueEmails(after) && KeepsCounters(users, after)
  {
  }

  lemma NewRowInv(v: World, b: string)
    requires b in v.users && b in v.birth && v.birth[b] == |v.ledger| && !v.users[b].initialized
    ensures RowInv(v, b)
  {
    assert v.ledger[|v.ledger|..] == [];
  }

  lemma StepConserves(w: World, e: Event)
    requires Inv(w)
    ensures Inv(Next(w, e))
  {
    if e.Sample? {
      SampleConserves(w, e.counters, e.online);
      NextOfSample(w, e.counters, e.online);
    } else {
      OthersKeepCounters(w.users, e);
      OthersKeepRows(w, Next(w, e));
    }
  }

  lemma NextOfSample(w: World, cs: seq<Counter>, online: bool)
    requires Inv(w)
    ensures Next(w, Sample(cs, online))
         == World(SampleAll(w.users, cs, online).users, w.ledger + SampleAll(w.users, cs, online).entries, w.birth)
  {
    SameBirths(w, SampleAll(w.users, cs, online).users);
  }

  lemma SameBirths(w: World, users: Users)
    requires w.birth.Keys == w.users.Keys == users.Keys
    ensures (map b | b in users :: if b in w.birth && b in w.users then w.birth[b] else |w.ledger|) == w.birth
  {
  }

  lemma OthersKeepRows(w: World, v: World)
    requires AllRows(w) && w.birth.Keys == w.users.Keys && KeepsCounters(w.users, v.users)
    requires v == World(v.users, w.ledger, map b | b in v.users :: if b in w.birth && b in w.users then w.birth[b] else |w.ledger|)
    ensures AllRows(v)
  {
    forall b | b in v.users ensures RowInv(v, b) {
      if b in w.users { RowInvCarries(w, v, b); } else { NewRowInv(v, b); }
    }
  }

  function After(w: World, run: seq<Event>): (v: World)
    requires Inv(w)
    ensures Inv(v)
    decreases |run|
  {
    if |run| == 0 then w
    else
      var before := After(w, run[..|run| - 1]);
      StepConserves(before, Last(run));
      Next(before, Last(run))
  }

  /**
   * Conservation of metered traffic: over any run, for every row and direction, the deltas ever
   * put in batches add up to the current counter, plus the last counter of every earlier
   * generation, minus the first-seen baseline.
   */
  lemma Conservation(run: seq<Event>, b: string, d: Direction)
    ensures var w := After(EMPTY, run);
            b in w.users ==>
              var h := History(w, b);
              |h| > 0 ==> SumDeltas(h, d) == Current(w.users[b], d) + ClosedGenerations(h, d) - Total(h[0], d)
  {
    var w := After(EMPTY, run);
    if b in w.users { assert RowInv(w, b); }
  }

  // ----- Quota and offline allowance -----

  datatype RowEvent = Seen(up: nat, down: nat, online: bool) | Switched(enabled: bool)

  /** What a sample or a switch does to one row; a disabled row is not metered. */
  function RowNext(row: UserRow, e: RowEvent): UserRow {
    match e
    case Seen(up, down, online) => if row.enabled then Observed(row, up, down, online) else row
    case Switched(on) => row.(enabled := on)
  }

  function RowAfter(row: UserRow, run: seq<RowEvent>): UserRow {
    if |run| == 0 then row else RowNext(RowAfter(row, run[..|run| - 1]), Last(run))
  }

  /** The bytes the event at `i` adds to the row's usage. */
  function Metered(row: UserRow, run: seq<RowEvent>, i: nat): nat
    requires i < |run|
  {
    var before := RowAfter(row, run[..i]);
    match run[i]
    case Seen(up, down, _) =>
      if before.enabled then
        var e := EntryFor("", before, up, down);
        e.deltaUp + e.deltaDown
      else 0
    case Switched(_) => 0
  }

  function Usage(row: UserRow, run: seq<RowEvent>, from: nat, to: nat): nat
    requires from <= to <= |run|
  {
    if from == to then 0 else Usage(row, run, from, to - 1) + Metered(row, run, to - 1)
  }

  lemma {:induction false} UsagePrefix(row: UserRow, run: seq<RowEvent>, from: nat, to: nat, n: nat)
    requires from <= to <= n <= |run|
    ensures Usage(row, run[..n], from, to) == Usage(row, run, from, to)
  {
    if from < to {
      UsagePrefix(row, run, from, to - 1, n);
      assert run[..n][..to - 1] == run[..to - 1];
    }
  }

  /** Between quota writes, what remains is what was granted less what was used, and never below zero. */
  lemma {:induction false} QuotaLaw(row: UserRow, run: seq<RowEvent>)
    ensures RowAfter(row, run).quota == if row.quota > Usage(row, run, 0, |run|) then row.quota - Usage(row, run, 0, |run|) else 0
  {
    if |run| > 0 {
      var n := |run| - 1;
      QuotaLaw(row, run[..n]);
      UsagePrefix(row, run, 0, n, n);
    }
  }

  /** An event at which the row was metered with the backend reachable. */
  predicate MeteredOnline(row: UserRow, run: seq<RowEvent>, i: nat)
    requires i < |run|
  {
    run[i].Seen? && run[i].online && RowAfter(row, run[..i]).enabled
  }

  /** Where the current offline stretch began: just after the last online sample of the row. */
  function OfflineStart(row: UserRow, run: seq<RowEvent>): (k: nat)
    ensures k <= |run|
    ensures forall i :: k <= i < |run| ==> !MeteredOnline(row, run, i)
    ensures k > 0 ==> MeteredOnline(row, run, k - 1)
  {
    if |run| == 0 then 0
    else if MeteredOnline(row, run, |run| - 1) then |run|
    else
      var n := |run| - 1;
      var k := OfflineStart(row, run[..n]);
      assert forall i :: 0 <= i < n ==> run[..n][..i] == run[..i];
      assert forall i :: 0 <= i < n ==> MeteredOnline(row, run[..n], i) == MeteredOnline(row, run, i);
      k
  }

  /** Offline usage is what was metered since the last online sample, or since the start and what stood then. */
  lemma {:induction false} OfflineLaw(row: UserRow, run: seq<RowEvent>)
    ensures var k := OfflineStart(row, run);
            RowAfter(row, run).offlineUsed == Usage(row, run, k, |run|) + if k == 0 then row.offlineUsed else 0
  {
    if |run| > 0 {
      var n := |run| - 1;
      OfflineLaw(row, run[..n]);
      if !MeteredOnline(row, run, n) {
        UsagePrefix(row, run, OfflineStart(row, run), n, n);
      }
    }
  }

  /** The sample at `i` must cut the user off: the quota is used up, or the offline allowance is. */
  predicate Exhausts(row: UserRow, run: seq<RowEvent>, i: nat)
    requires i < |run| && run[i].Seen?
  {
    var k := OfflineStart(row, run[..i + 1]);
    || Usage(row, run, 0, i + 1) >= row.quota
    || (!run[i].online && Usage(row, run, k, i + 1) + (if k == 0 then row.offlineUsed else 0) >= row.allowance)
  }

  lemma ExhaustsPrefix(row: UserRow, run: seq<RowEvent>, n: nat, i: nat)
    requires i < n <= |run| && run[i].Seen?
    ensures Exhausts(row, run[..n], i) == Exhausts(row, run, i)
  {
    assert run[..n][..i + 1] == run[..i + 1];
    UsagePrefix(row, run, 0, i + 1, n);
    UsagePrefix(row, run, OfflineStart(row, run[..i + 1]), i + 1, n);
  }

  /** One metered sample leaves the row enabled exactly when it does not exhaust it. */
  lemma LastSampleDecides(row: UserRow, run: seq<RowEvent>)
    requires |run| > 0 && Last(run).Seen? && RowAfter(row, run[..|run| - 1]).enabled
    ensures RowAfter(row, run).enabled == !Exhausts(row, run, |run| - 1)
  {
    assert run[..|run|] == run;
    QuotaLaw(row, run);
    OfflineLaw(row, run);
    RowKeepsAllowance(row, run);
  }

  /** A user stays enabled through a run of samples exactly when none of them exhausts it: the first that does disables it. */
  lemma {:induction false} DisabledAtFirstExhaustion(row: UserRow, run: seq<RowEvent>)
    requires row.enabled && forall e <- run :: e.Seen?
    ensures RowAfter(row, run).enabled <==> forall i :: 0 <= i < |run| ==> !Exhausts(row, run, i)
  {
    if |run| > 0 {
      var n := |run| - 1;
      DisabledAtFirstExhaustion(row, run[..n]);
      forall i | 0 <= i < n ensures Exhausts(row, run[..n], i) == Exhausts(row, run, i) {
        ExhaustsPrefix(row, run, n, i);
      }
      if RowAfter(row, run[..n]).enabled {
        LastSampleDecides(row, run);
      } else {
        var i :| 0 <= i < n && Exhausts(row, run[..n], i);
        assert Exhausts(row, run, i);
      }
    }
  }

  lemma {:induction false} RowKeepsAllowance(row: UserRow, run: seq<RowEvent>)
    ensures RowAfter(row, run).allowance == row.allowance
  {
    if |run| > 0 { RowKeepsAllowance(row, run[..|run| - 1]); }
  }

  /** The counters of a sample that carry one email, as events of its row. */
  function EventsFor(cs: seq<Counter>, email: string, online: bool): seq<RowEvent> {
    if |cs| == 0 then []
    else
      EventsFor(cs[..|cs| - 1], email, online)
      + if Last(cs).email == email then [Seen(Last(cs).up, Last(cs).down, online)] else []
  }

  lemma SampleOneActsPerRow(s: Sampled, c: Counter, online: bool, b: string)
    requires UniqueEmails(s.users) && b in s.users
    ensures SampleOne(s, c, online).users[b]
         == if c.email == s.users[b].email then RowNext(s.users[b], Seen(c.up, c.down, online)) else s.users[b]
  {
    if c.email == s.users[b].email && s.users[b].enabled {
      assert exists x :: x in s.users && s.users[x].email == c.email && s.users[x].enabled;
    }
  }

  /** A sample of the whole table acts on each row as the samples of its own counters. */
  lemma {:induction false} SampleActsPerRow(users: Users, cs: seq<Counter>, online: bool, b: string)
    requires UniqueEmails(users) && b in users
    ensures SampleAll(users, cs, online).users[b] == RowAfter(users[b], EventsFor(cs, users[b].email, online))
  {
    if |cs| > 0 {
      var before := SampleAll(users, cs[..|cs| - 1], online);
      SampleActsPerRow(users, cs[..|cs| - 1], online, b);
      SampleOneActsPerRow(before, Last(cs), online, b);
      var past := EventsFor(cs[..|cs| - 1], users[b].email, online);
      var e := Seen(Last(cs).up, Last(cs).down, online);
      assert (past + [e])[..|past|] == past && past + [] == past;
    }
  }

  /** Restoring from the backend never raises a quota and never enables a user that has none. */
  lemma {:induction false} RestoreIsSafe(users: Users, us: seq<DesiredUser>, b: string)
    requires b in users
    ensures b in RestoreAll(users, us)
    ensures var row := RestoreAll(users, us)[b];
            && row.quota <= users[b].quota
            && (row != users[b] && row.enabled ==> row.quota > 0)
            && (b in Bindings(us) ==>
                  (row.offlineUsed == 0
                   && exists u :: u in us && u.bindingId == b && row.quota <= u.quota && (row.enabled ==> u.enabled)))
            && (b !in Bindings(us) ==> row == users[b])
  {
    if |us| > 0 {
      RestoreIsSafe(users, us[..|us| - 1], b);
      assert us == us[..|us| - 1] + [Last(us)];
      if Last(us).bindingId == b { assert Last(us) in us; }
    }
  }
}
