/** What samples, restores and writes do to one row, said of its columns. */
module RowRules {
  import opened Common
  import opened AgentTables
  import opened Metering

  // ----- Counters that only grow -----

  /** Samples whose counters never fall, neither below the row's nor below one another's. */
  predicate NeverFall(row: UserRow, run: seq<RowEvent>) {
    && (forall e <- run :: e.Seen?)
    && (|run| > 0 ==> row.up <= run[0].up && row.down <= run[0].down)
    && forall i :: 0 < i < |run| ==> run[i - 1].up <= run[i].up && run[i - 1].down <= run[i].down
  }

  /**
   * While its counters do not fall, a row stays in its generation and uses exactly what they grew
   * by, an idle one nothing: up to the last sample, or up to the one that cut it off.
   */
  lemma {:induction false} GrowingCounters(row: UserRow, run: seq<RowEvent>)
    requires row.initialized && NeverFall(row, run)
    ensures var a := RowAfter(row, run);
            var grown := a.up - row.up + a.down - row.down;
            && a.initialized && a.generation == row.generation
            && a.up >= row.up && a.down >= row.down
            && Usage(row, run, 0, |run|) == grown
            && a.quota == (if row.quota > grown then row.quota - grown else 0)
            && (|run| > 0 ==> a.up <= Last(run).up && a.down <= Last(run).down)
            && (|run| > 0 && RowAfter(row, run[..|run| - 1]).enabled ==> a.up == Last(run).up && a.down == Last(run).down)
  {
    QuotaLaw(row, run);
    if |run| > 0 {
      var n := |run| - 1;
      GrowingCounters(row, run[..n]);
      UsagePrefix(row, run, 0, n, n);
    }
  }

  /** An idle user stays enabled: samples that repeat the counters of a row with quota left change neither. */
  lemma IdleUserKeepsAccess(row: UserRow, run: seq<RowEvent>)
    requires row.initialized && row.enabled && row.quota > 0 && row.offlineUsed < row.allowance
    requires forall e <- run :: e.Seen? && e.up == row.up && e.down == row.down
    ensures RowAfter(row, run).enabled && RowAfter(row, run).quota == row.quota
  {
    forall i | 0 <= i < |run| ensures !Exhausts(row, run, i) { IdleExhaustsNothing(row, run, i); }
    DisabledAtFirstExhaustion(row, run);
    IdleUsesNothing(row, run, |run|);
    QuotaLaw(row, run);
  }

  lemma IdleExhaustsNothing(row: UserRow, run: seq<RowEvent>, i: nat)
    requires row.initialized && row.quota > 0 && row.offlineUsed < row.allowance
    requires i < |run| && forall e <- run :: e.Seen? && e.up == row.up && e.down == row.down
    ensures run[i] in run && !Exhausts(row, run, i)
  {
    var k := OfflineStart(row, run[..i + 1]);
    IdleUsesNothing(row, run, i + 1);
    UsageSplits(row, run, 0, k, i + 1);
  }

  lemma IdleUsesNothing(row: UserRow, run: seq<RowEvent>, i: nat)
    requires row.initialized && i <= |run| && forall e <- run :: e.Seen? && e.up == row.up && e.down == row.down
    ensures Usage(row, run, 0, i) == 0
  {
    forall e <- run[..i] ensures e in run {}
    GrowingCounters(row, run[..i]);
    UsagePrefix(row, run, 0, i, i);
  }

  lemma {:induction false} UsageSplits(row: UserRow, run: seq<RowEvent>, from: nat, k: nat, to: nat)
    requires from <= k <= to <= |run|
    ensures Usage(row, run, from, to) == Usage(row, run, from, k) + Usage(row, run, k, to)
  {
    if k < to { UsageSplits(row, run, from, k, to - 1); }
  }

  // ----- Rows a sample cuts off -----

  /** The emails a sample reports are those of the rows it has disabled. */
  lemma {:induction false} ReportedAreCutOff(users: Users, cs: seq<Counter>, online: bool, b: string)
    requires UniqueEmails(users) && b in users
    ensures var s := SampleAll(users, cs, online);
            users[b].email in s.disabled <==> users[b].enabled && !s.users[b].enabled
    ensures !users[b].enabled ==> !SampleAll(users, cs, online).users[b].enabled
  {
    if |cs| > 0 {
      var before := SampleAll(users, cs[..|cs| - 1], online);
      ReportedAreCutOff(users, cs[..|cs| - 1], online, b);
      ReportStep(before, Last(cs), online, b);
    }
  }

  lemma ReportStep(s: Sampled, c: Counter, online: bool, b: string)
    requires UniqueEmails(s.users) && b in s.users
    ensures var t := SampleOne(s, c, online);
            && (s.users[b].email in t.disabled <==>
                  s.users[b].email in s.disabled || (s.users[b].enabled && !t.users[b].enabled))
            && (!s.users[b].enabled ==> !t.users[b].enabled)
            && (forall e <- t.disabled :: e in s.disabled || e == c.email)
  {
    if x :| x in s.users && s.users[x].email == c.email {
      SampleOneAt(s, c, online, x);
    }
  }

  /** And only of such rows. */
  lemma {:induction false} OnlyRowsAreReported(users: Users, cs: seq<Counter>, online: bool, email: string)
    requires UniqueEmails(users) && email in SampleAll(users, cs, online).disabled
    ensures exists b :: b in users && users[b].email == email && users[b].enabled && !SampleAll(users, cs, online).users[b].enabled
  {
    var before := SampleAll(users, cs[..|cs| - 1], online);
    if b :| b in users && users[b].email == email {
      ReportedAreCutOff(users, cs, online, b);
    } else {
      if email in before.disabled { OnlyRowsAreReported(users, cs[..|cs| - 1], online, email); }
    }
  }

  /**
   * A row switched off after a sample counts as disabled for its usage exactly if that sample cut it
   * off, with one exception: an allowance of zero cuts off an offline user that has used nothing and
   * still has quota, and such a row is not recognised.
   */
  lemma UsageDisabledIffCutOff(row: UserRow, up: nat, down: nat, online: bool)
    requires row.enabled
    ensures var after := RowAfter(row, [Seen(up, down, online)]);
            UsageDisabled(after.(enabled := false)) <==>
            !after.enabled && !(after.quota > 0 && after.allowance == 0 && after.offlineUsed == 0)
  {
    assert [Seen(up, down, online)][..0] == [];
  }

  // ----- Restoring -----

  /** The least of a quota and those of the entries for row `b`. */
  ghost predicate Least(quota: nat, own: nat, us: seq<DesiredUser>, b: string) {
    && quota <= own && (forall u <- us :: u.bindingId == b ==> quota <= u.quota)
    && (quota == own || exists u :: u in us && u.bindingId == b && u.quota == quota)
  }

  /**
   * What a backend restore makes of a row it names: the least quota of all, the switch of the last
   * entry unless no quota is left, offline usage cleared, and nothing else.
   */
  lemma {:induction false} RestoreIsExact(users: Users, us: seq<DesiredUser>, b: string, i: nat)
    requires b in users && LastFor(us, b, i)
    ensures b in RestoreAll(users, us)
    ensures var row := RestoreAll(users, us)[b];
            && Least(row.quota, users[b].quota, us, b)
            && (row.enabled <==> us[i].enabled && row.quota > 0)
            && row == users[b].(quota := row.quota, enabled := row.enabled, offlineUsed := 0)
  {
    var n := |us| - 1;
    assert us == us[..n] + [us[n]];
    if i < n {
      RestoreIsExact(users, us[..n], b, i);
    } else {
      var before := RestoreAll(users, us[..n]);
      if j :| 0 <= j < n && us[j].bindingId == b {
        var k := LastBelow(us[..n], b, j);
        RestoreIsExact(users, us[..n], b, k);
      } else {
        NotNamed(users, us[..n], b);
      }
      assert us[n] in us;
      RestoredRow(before, us, b, n);
    }
  }

  lemma {:induction false} LastBelow(us: seq<DesiredUser>, b: string, j: nat) returns (k: nat)
    requires j < |us| && us[j].bindingId == b
    ensures LastFor(us, b, k)
    decreases |us| - j
  {
    k := j;
    if i :| j < i < |us| && us[i].bindingId == b { k := LastBelow(us, b, i); }
  }

  lemma NotNamed(users: Users, us: seq<DesiredUser>, b: string)
    requires b in users && forall u <- us :: u.bindingId != b
    ensures b in RestoreAll(users, us) && RestoreAll(users, us)[b] == users[b]
  {
    RestoreIsSafe(users, us, b);
  }

  lemma RestoredRow(before: Users, us: seq<DesiredUser>, b: string, n: nat)
    requires n < |us| && us[n].bindingId == b && b in before
    ensures var row, u := RestoreOne(before, us[n])[b], us[n];
            && row.quota == (if before[b].quota < u.quota then before[b].quota else u.quota)
            && (row.enabled <==> u.enabled && row.quota > 0)
            && row == before[b].(quota := row.quota, enabled := row.enabled, offlineUsed := 0)
  {
  }

  /** The rows of `after` are those of `users`, each restored as its entries say, or left alone if it has none. */
  ghost predicate RestoredBy(users: Users, us: seq<DesiredUser>, after: Users) {
    && after.Keys == users.Keys
    && (forall b :: b in users && (forall u <- us :: u.bindingId != b) ==> after[b] == users[b])
    && (forall b, i :: b in users && LastFor(us, b, i) ==>
          && Least(after[b].quota, users[b].quota, us, b)
          && (after[b].enabled <==> us[i].enabled && after[b].quota > 0)
          && after[b] == users[b].(quota := after[b].quota, enabled := after[b].enabled, offlineUsed := 0))
  }

  lemma RestoredExactly(users: Users, us: seq<DesiredUser>)
    ensures RestoredBy(users, us, RestoreAll(users, us))
  {
    RestoreAllKeepsCounters(users, us);
    forall b | b in users && (forall u <- us :: u.bindingId != b) ensures RestoreAll(users, us)[b] == users[b] {
      NotNamed(users, us, b);
    }
    forall b, i | b in users && LastFor(us, b, i)
      ensures var row := RestoreAll(users, us)[b];
              && Least(row.quota, users[b].quota, us, b)
              && (row.enabled <==> us[i].enabled && row.quota > 0)
              && row == users[b].(quota := row.quota, enabled := row.enabled, offlineUsed := 0)
    {
      RestoreIsExact(users, us, b, i);
    }
  }

  // ----- What an upsert leaves alone -----

  predicate SameMeter(row: UserRow, after: UserRow) { SameCounters(row, after) && after.offlineUsed == row.offlineUsed }

  predicate NewMeter(row: UserRow) {
    !row.initialized && row.generation == 0 && row.up == 0 && row.down == 0 && row.offlineUsed == 0
  }

  /** Upserts never touch counters or offline usage; a new row starts with none. */
  lemma {:induction false} UpsertsKeepMeters(users: Users, us: seq<DesiredUser>, b: string)
    requires UpsertAll(users, us).Some? && b in UpsertAll(users, us).value
    ensures var row := UpsertAll(users, us).value[b]; if b in users then SameMeter(users[b], row) else NewMeter(row)
    ensures users.Keys <= UpsertAll(users, us).value.Keys
  {
    if |us| > 0 {
      var before := UpsertAll(users, us[..|us| - 1]).value;
      if b in before { UpsertsKeepMeters(users, us[..|us| - 1], b); } else { UpsertAllKeepsCounters(users, us[..|us| - 1]); }
    }
  }
}
