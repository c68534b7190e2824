/** The agent's main loop (runner.ts): config refresh, recovery, sampling and the command handler. */
module Runner {
  import opened Common
  import opened AgentTables
  import opened AgentStore
  import opened Commands
  import opened Reconciliation
  import opened CommandProcessor
  import opened RowRules
  import Q = UploadQueue

  datatype ConfigSnapshot = ConfigSnapshot(revision: nat, mode: ControlMode, users: seq<DesiredUser>)

  datatype RefreshOutcome = Refreshed | KeptCurrent | Threw

  /** The last snapshot entry of a binding, as a Map built from the list holds it. */
  function Lookup(us: seq<DesiredUser>, b: string): Option<DesiredUser> {
    if |us| == 0 then None
    else if Last(us).bindingId == b then Some(Last(us))
    else Lookup(us[..|us| - 1], b)
  }

  /** The snapshot takes an enabled user away: traffic since the last sample must be metered first. */
  predicate RemovesEnabledUser(users: Users, us: seq<DesiredUser>) {
    exists b :: b in users && users[b].enabled && !(Lookup(us, b).Some? && Lookup(us, b).value.enabled)
  }

  /** Some stored enabled user is missing from the snapshot, or disabled by its last entry there. */
  ghost predicate TakesAccess(users: Users, us: seq<DesiredUser>) {
    exists b :: b in users && users[b].enabled && forall i :: LastFor(us, b, i) ==> !us[i].enabled
  }

  lemma {:induction false} LookupIsLast(us: seq<DesiredUser>, b: string)
    ensures Lookup(us, b).None? ==> forall i :: !LastFor(us, b, i)
    ensures Lookup(us, b).Some? ==> exists i :: LastFor(us, b, i) && us[i] == Lookup(us, b).value
  {
    if |us| > 0 {
      var n := |us| - 1;
      if us[n].bindingId == b {
        assert LastFor(us, b, n);
      } else {
        LookupIsLast(us[..n], b);
        forall i ensures LastFor(us, b, i) <==> LastFor(us[..n], b, i) {}
        if Lookup(us[..n], b).Some? {
          var i :| LastFor(us[..n], b, i) && us[..n][i] == Lookup(us[..n], b).value;
          assert LastFor(us, b, i) && us[i] == Lookup(us, b).value;
        }
      }
    }
  }

  lemma RemovesIffTakesAccess(users: Users, us: seq<DesiredUser>)
    ensures RemovesEnabledUser(users, us) <==> TakesAccess(users, us)
  {
    forall b ensures Lookup(us, b).Some? && Lookup(us, b).value.enabled <==> exists i :: LastFor(us, b, i) && us[i].enabled {
      LookupIsLast(us, b);
    }
  }

  predicate LocallyDisabled(users: Users, b: string) { b in users && !users[b].enabled }

  /** The snapshot's users, with every locally disabled one kept disabled. */
  function KeepDisabled(local: Users, us: seq<DesiredUser>): seq<DesiredUser> {
    seq(|us|, i requires 0 <= i < |us| => if LocallyDisabled(local, us[i].bindingId) then us[i].(enabled := false) else us[i])
  }

  /** `kept` are the snapshot's users as they are, but disabled where local disables are to be preserved. */
  ghost predicate KeptFrom(local: Users, preserved: bool, us: seq<DesiredUser>, kept: seq<DesiredUser>) {
    |kept| == |us| && forall i :: 0 <= i < |us| ==>
      kept[i] == us[i].(enabled := us[i].enabled && !(preserved && LocallyDisabled(local, us[i].bindingId)))
  }

  /** The stored users are what one transaction makes of the local ones with the snapshot's users, adjusted. */
  ghost predicate StoredAsSnapshot(local: Users, preserved: bool, us: seq<DesiredUser>, users: Users) {
    exists kept :: KeptFrom(local, preserved, us, kept) && Replace(local, kept) == Some(users)
  }

  /** Reconciling first makes no difference to what the snapshot leaves in the store. */
  lemma ReplacedOnce(local: Users, us: seq<DesiredUser>, provisioned: Users)
    requires provisioned == local || UpsertAll(local, us) == Some(provisioned)
    requires Replace(provisioned, us).Some?
    ensures Replace(local, us) == Replace(provisioned, us)
  {
    if provisioned != local {
      UpsertedAreIgnored(local, us);
      IgnoredUpsertsDoNothing(provisioned, us);
    }
  }

  lemma Kept(local: Users, preserved: bool, us: seq<DesiredUser>)
    ensures KeptFrom(local, preserved, us, if preserved then KeepDisabled(local, us) else us)
  {
  }

  /** No user disabled in `local` is enabled in `users`. */
  predicate StaysDisabled(local: Users, users: Users) {
    forall b :: b in users && LocallyDisabled(local, b) ==> !users[b].enabled
  }

  lemma {:induction false} UpsertsStayDisabled(local: Users, users: Users, us: seq<DesiredUser>)
    requires StaysDisabled(local, users) && UpsertAll(users, us).Some?
    requires forall u <- us :: LocallyDisabled(local, u.bindingId) ==> !u.enabled
    ensures StaysDisabled(local, UpsertAll(users, us).value)
  {
    if |us| > 0 {
      assert us == us[..|us| - 1] + [Last(us)];
      assert Last(us) in us;
      forall u | u in us[..|us| - 1] ensures u in us {}
      UpsertsStayDisabled(local, users, us[..|us| - 1]);
    }
  }

  lemma KeepDisabledEntries(local: Users, us: seq<DesiredUser>)
    ensures forall u <- KeepDisabled(local, us) :: LocallyDisabled(local, u.bindingId) ==> !u.enabled
  {
  }

  /** Applying the adjusted users, after reconciling with them or not, enables none of the disabled. */
  lemma PreservedSnapshot(local: Users, us: seq<DesiredUser>, reconciled: bool, users: Users)
    requires users == local || (reconciled && UpsertAll(local, KeepDisabled(local, us)) == Some(users))
    requires Replace(users, KeepDisabled(local, us)).Some?
    ensures StaysDisabled(local, Replace(users, KeepDisabled(local, us)).value)
  {
    KeepDisabledEntries(local, us);
    if users != local { UpsertsStayDisabled(local, local, KeepDisabled(local, us)); }
    UpsertsStayDisabled(local, users, KeepDisabled(local, us));
  }

  /** Every live account belongs to an enabled snapshot user that was not locally disabled. */
  ghost predicate NoDisabledLive(local: Users, live: Live, us: seq<DesiredUser>) {
    forall email :: email in live ==>
      exists i :: 0 <= i < |us| && us[i].email == email && us[i].enabled && !LocallyDisabled(local, us[i].bindingId)
                  && live[email] == Some(us[i].uuid)
  }

  /** The accounts are exactly those of the snapshot, with the locally disabled users kept out if they are to be preserved. */
  ghost predicate LiveAsDecided(local: Users, preserved: bool, us: seq<DesiredUser>, live: Live) {
    && (exists kept :: KeptFrom(local, preserved, us, kept) && ExactlyDecided(live, kept))
    && (preserved ==> NoDisabledLive(local, live, us) && forall b :: LocallyDisabled(local, b) ==> LiveIffShared(local, live, us, b))
  }

  /** The email of row `b` is live exactly if the last snapshot user with that email is enabled and not locally disabled. */
  ghost predicate LiveIffShared(local: Users, live: Live, us: seq<DesiredUser>, b: string)
    requires b in local
  {
    local[b].email in live <==>
    exists i :: Decides(us, i) && us[i].enabled && !LocallyDisabled(local, us[i].bindingId) && us[i].email == local[b].email
  }

  /** What the adjustment does not change: who decides an email. */
  lemma KeptDecides(local: Users, us: seq<DesiredUser>, i: int)
    ensures Decides(KeepDisabled(local, us), i) <==> Decides(us, i)
  {
    var kept := KeepDisabled(local, us);
    assert |kept| == |us| && forall j :: 0 <= j < |us| ==> kept[j].email == us[j].email;
  }

  /**
   * Exactly when the email of a locally disabled user stays live through a refresh that preserves
   * local disables: when the snapshot gives it to another user that decides it.
   */
  lemma DisabledEmailLiveIff(local: Users, us: seq<DesiredUser>, live: Live, b: string)
    requires ExactlyDecided(live, KeepDisabled(local, us)) && b in local && !local[b].enabled
    ensures local[b].email in live <==>
            exists i :: Decides(us, i) && us[i].enabled && !LocallyDisabled(local, us[i].bindingId) && us[i].email == local[b].email
  {
    var kept, email := KeepDisabled(local, us), local[b].email;
    if email in live {
      var i :| Decides(kept, i) && kept[i].enabled && kept[i].email == email;
      KeptDecides(local, us, i);
    }
    forall i | Decides(us, i) && us[i].enabled && !LocallyDisabled(local, us[i].bindingId) && us[i].email == email
      ensures email in live
    {
      KeptDecides(local, us, i);
      assert Decides(kept, i) && kept[i].enabled && kept[i].email == email;
    }
  }

  lemma ReconciledHidesDisabled(local: Users, us: seq<DesiredUser>, t: Tables)
    requires Reconciled(t, KeepDisabled(local, us)).ok
    ensures ExactlyDecided(Reconciled(t, KeepDisabled(local, us)).tables.live, KeepDisabled(local, us))
    ensures LiveAsDecided(local, true, us, Reconciled(t, KeepDisabled(local, us)).tables.live)
  {
    var kept := KeepDisabled(local, us);
    ReconcileByLast(t, kept);
    var live := Reconciled(t, kept).tables.live;
    forall email | email in live
      ensures exists i :: 0 <= i < |us| && us[i].email == email && us[i].enabled && !LocallyDisabled(local, us[i].bindingId)
                          && live[email] == Some(us[i].uuid)
    {
      var i :| Decides(kept, i) && kept[i].enabled && kept[i].email == email;
      assert us[i].email == email && us[i].enabled;
    }
    Kept(local, true, us);
    forall b | LocallyDisabled(local, b) ensures LiveIffShared(local, live, us, b) { DisabledEmailLiveIff(local, us, live, b); }
  }

  /** Reconciling with users none of which is newer than its row keeps the rows and installs who decides. */
  lemma OldUsersGoLive(t: Tables, us: seq<DesiredUser>, i: nat)
    requires AllIgnored(t.users, us) && Decides(us, i) && us[i].enabled
    ensures var o := Reconciled(t, us);
            o.ok && o.tables.users == t.users && us[i].email in o.tables.live && o.tables.live[us[i].email] == Some(us[i].uuid)
  {
    IgnoredUpsertsDoNothing(t.users, us);
    ProvisionUpserts(t, us);
    ReconcileByLast(t, us);
  }

  /** Two snapshot users under one email: a locally disabled user's email is live under the other one's uuid. */
  lemma SharedEmailStaysLive(a: DesiredUser, b: DesiredUser, rest: string, live: Live)
    requires a.bindingId != b.bindingId && a.email != rest && !a.enabled && b.enabled && a.email == b.email
    ensures var users := map[a.bindingId := UpsertedRow(map[], a), b.bindingId := UpsertedRow(map[], b.(email := rest))];
            var us := [a.(enabled := true), b];
            var o := Reconciled(Tables(users, live), KeepDisabled(users, us));
            && UniqueEmails(users) && LocallyDisabled(users, a.bindingId) && users[a.bindingId].email == a.email
            && o.ok && o.tables.users == users && a.email in o.tables.live && o.tables.live[a.email] == Some(b.uuid)
  {
    var users := map[a.bindingId := UpsertedRow(map[], a), b.bindingId := UpsertedRow(map[], b.(email := rest))];
    var us := [a.(enabled := true), b];
    var kept := KeepDisabled(users, us);
    assert kept == [a, b];
    OldUsersGoLive(Tables(users, live), kept, 1);
  }

  /**
   * Distinct snapshot emails do not rule it out: the snapshot has moved the email of a disabled row
   * to another user, and as both rows are as new as the snapshot, the store keeps it where it was.
   */
  lemma MovedEmailStaysLive(a: DesiredUser, b: DesiredUser, other: string, rest: string, live: Live)
    requires a.bindingId != b.bindingId && !a.enabled && b.enabled && a.email == b.email
    requires a.email != other && a.email != rest
    ensures var users := map[a.bindingId := UpsertedRow(map[], a), b.bindingId := UpsertedRow(map[], b.(email := rest))];
            var us := [a.(email := other, enabled := true), b];
            var o := Reconciled(Tables(users, live), KeepDisabled(users, us));
            && UniqueEmails(users) && DistinctEmails(us)
            && LocallyDisabled(users, a.bindingId) && users[a.bindingId].email == a.email
            && o.ok && o.tables.users == users && a.email in o.tables.live && o.tables.live[a.email] == Some(b.uuid)
  {
    var users := map[a.bindingId := UpsertedRow(map[], a), b.bindingId := UpsertedRow(map[], b.(email := rest))];
    var us := [a.(email := other, enabled := true), b];
    var kept := KeepDisabled(users, us);
    assert kept == [a.(email := other), b];
    OldUsersGoLive(Tables(users, live), kept, 1);
  }

  /** Xray's accounts are the enabled stored users, each with its uuid. */
  ghost predicate XrayEqualsStore(users: Users, live: Live) {
    && (forall email :: email in live <==> exists b :: b in users && users[b].enabled && users[b].email == email)
    && (forall b :: b in users && users[b].enabled && users[b].email in live ==> live[users[b].email] == Some(users[b].uuid))
  }

  /** A sample went into the store: its rows, and its batch if it metered anything. */
  ghost predicate SampleRecorded(before: Db, after: Db, counters: seq<Counter>, online: bool)
    requires UniqueEmails(before.users)
  {
    var s := SampleAll(before.users, counters, online);
    && after.users == s.users
    && after.batches == before.batches
         + (if s.entries == [] then [] else [Batch(before.boot, NextSequence(before.next, before.boot), s.entries)])
  }

  predicate IsTerminal(c: Command) { c.kind.DisableUser? || c.kind.RemoveUser? }

  /** Traffic since the last sample is metered before a user goes. */
  predicate SamplesFirst(mode: ControlMode, c: Command) { mode.DirectPrimary? && IsTerminal(c) }

  /** `us` lists the stored users but for those in `rest`, which all come later. */
  ghost predicate ListedBut(users: Users, rest: set<string>, us: seq<DesiredUser>)
    requires rest <= users.Keys
  {
    && (forall b :: b in users && b !in rest ==> ToDesiredUser(b, users[b]) in us)
    && (forall u <- us :: u.bindingId in users && u.bindingId !in rest && u == ToDesiredUser(u.bindingId, users[u.bindingId]))
    && (forall u <- us, b :: b in rest ==> Precedes(u.email, users[b].email))
    && (forall i, j :: 0 <= i < j < |us| ==> us[i].bindingId != us[j].bindingId)
    && InListingOrder(us)
  }

  lemma ListGrows(users: Users, rest: set<string>, us: seq<DesiredUser>, b: string)
    requires rest <= users.Keys && ListedBut(users, rest, us) && b in rest
    requires forall c :: c in rest && c != b ==> Precedes(users[b].email, users[c].email)
    ensures ListedBut(users, rest - {b}, us + [ToDesiredUser(b, users[b])])
  {
    var x := ToDesiredUser(b, users[b]);
    forall i | 0 <= i < |us| ensures us[i].bindingId != b && Precedes(us[i].email, x.email) { assert us[i] in us; }
    forall u | u in us + [x] ensures u in us || u == x {}
    assert x in us + [x] && forall u <- us :: u in us + [x];
  }

  /**
   * A refresh took `before` to `after`. `at` is the node at the point where it decides whether local
   * disables must be preserved, and `preserved` is that decision.
   */
  ghost predicate Follows(snapshot: ConfigSnapshot, before: Node, counters: Option<seq<Counter>>, online: bool,
                          at: Node, preserved: bool, after: Node, awaitingInbound: bool)
    requires UniqueEmails(before.db.users)
  {
    && after.db.revision == snapshot.revision && after.db.mode == snapshot.mode
    && (if snapshot.mode.DirectPrimary? && TakesAccess(before.db.users, snapshot.users) then
          counters.Some? && SampleRecorded(before.db, at.db, counters.value, online)
        else at == before)
    && StoredAsSnapshot(at.db.users, preserved, snapshot.users, after.db.users)
    && (if snapshot.mode.DirectPrimary? then
          && (preserved <==> at.db.batches != [] && HasUsageDisabled(at.db.users))
          && (preserved ==> StaysDisabled(at.db.users, after.db.users))
          && (!awaitingInbound ==> LiveAsDecided(at.db.users, preserved, snapshot.users, after.live))
        else !preserved && after.live == before.live)
  }

  class AgentRunner {
    const processor: Processor
    const store: Store
    const xray: XrayTable
    var mode: ControlMode
    /** No inbound to provision users into: defer every reconcile. */
    var awaitingInbound: bool
    var reconcilePending: bool
    var backendOnline: bool

    constructor (processor: Processor, awaitingInbound: bool)
      requires processor.Valid()
      ensures Valid() && this.processor == processor && this.awaitingInbound == awaitingInbound
    {
      this.processor, store, xray := processor, processor.store, processor.xray;
      mode := processor.store.mode;
      this.awaitingInbound, reconcilePending, backendOnline := awaitingInbound, false, false;
    }

    ghost predicate Valid()
      reads this, processor, store, xray
    {
      store == processor.store && xray == processor.xray && processor.Valid()
    }

    /** Of some stored users, the one a listing by email shows first. */
    method FirstListed(bindings: set<string>) returns (b: string)
      requires Valid() && bindings != {} && bindings <= store.users.Keys
      ensures b in bindings
      ensures forall c :: c in bindings && c != b ==> Precedes(store.users[b].email, store.users[c].email)
    {
      b :| b in bindings;
      var rest := bindings - {b};
      while rest != {}
        invariant rest <= bindings && b in bindings && b !in rest
        invariant forall c :: c in bindings && c !in rest && c != b ==> Precedes(store.users[b].email, store.users[c].email)
        decreases |rest|
      {
        var c :| c in rest;
        rest := rest - {c};
        if Precedes(store.users[c].email, store.users[b].email) {
          forall d | d in bindings && d !in rest && d != c ensures Precedes(store.users[c].email, store.users[d].email) {
            if d != b { PrecedesIsTransitive(store.users[c].email, store.users[b].email, store.users[d].email); }
          }
          b := c;
        } else {
          PrecedesIsTotal(store.users[b].email, store.users[c].email);
        }
      }
    }

    method ListDesiredUsers() returns (us: seq<DesiredUser>)
      requires Valid()
      ensures Lists(store.users, us) && InListingOrder(us)
    {
      us := [];
      var rest := store.users.Keys;
      while rest != {}
        invariant rest <= store.users.Keys && ListedBut(store.users, rest, us)
        decreases |rest|
      {
        var b := FirstListed(rest);
        ListGrows(store.users, rest, us, b);
        us := us + [ToDesiredUser(b, store.users[b])];
        rest := rest - {b};
      }
    }

    /** reconcileUsers(): remember the intent while there is no inbound, otherwise reconcile now. */
    method ReconcileUsers(us: seq<DesiredUser>) returns (r: ReconcileResult)
      requires Valid()
      modifies this`reconcilePending, processor`trace, store, xray
      ensures Valid() && store.Contents() == old(store.Contents()).(users := store.users)
      ensures awaitingInbound ==> r.Done? && reconcilePending && store.users == old(store.users) && xray.live == old(xray.live)
      ensures !awaitingInbound && r.Done? ==>
                Reconciled(Tables(old(store.users), old(xray.live)), us) == Outcome(Tables(store.users, xray.live), true)
    {
      if awaitingInbound {
        reconcilePending := true;
        return Done;
      }
      r := processor.Reconcile(us);
    }

    /** flushPendingReconcile(): the intent stays until a reconcile with the stored users completes. */
    method FlushPendingReconcile() returns (ok: bool)
      requires Valid()
      modifies this`reconcilePending, processor`trace, store, xray
      ensures Valid() && store.Contents() == old(store.Contents()).(users := store.users)
      ensures reconcilePending ==> old(reconcilePending)
      ensures ok ==> store.users == old(store.users)
      ensures old(reconcilePending) && !reconcilePending ==>
                ok && mode.DirectPrimary? && !awaitingInbound
                && store.users == old(store.users) && XrayEqualsStore(store.users, xray.live)
      ensures ok && mode.DirectPrimary? && !awaitingInbound ==> !reconcilePending
    {
      if !reconcilePending || !mode.DirectPrimary? || awaitingInbound { return true; }
      var us := ListDesiredUsers();
      ghost var before := Tables(store.users, xray.live);
      var r := processor.Reconcile(us);
      if !r.Done? { return false; }
      StoredReconcile(before, us);
      reconcilePending := false;
      return true;
    }

    /** One sample: recover a restarted Xray first, meter, then take exhausted users out of Xray. */
    method SampleWithinStateMutation(counters: Option<seq<Counter>>) returns (ok: bool)
      requires Valid()
      modifies this`reconcilePending, processor, store, xray
      ensures Valid() && store.revision == old(store.revision)
      ensures ok ==> counters.Some? && SampleRecorded(old(store.Contents()), store.Contents(), counters.value, backendOnline)
      ensures ok && mode.DirectPrimary? ==>
                forall email <- SampleAll(old(store.users), counters.value, backendOnline).disabled :: email !in xray.live
    {
      var restarted: bool := *;
      if restarted { reconcilePending := true; }
      ok := FlushPendingReconcile();
      if !ok { return; }
      if counters.None? { return false; }
      ghost var before := store.Contents();
      var batch, disabled := store.RecordSample(counters.value, backendOnline);
      processor.Rebase();
      assert SampleRecorded(before, store.Contents(), counters.value, backendOnline);
      if mode.DirectPrimary? { ok := RemoveExhausted(disabled); }
    }

    method RemoveExhausted(emails: seq<string>) returns (ok: bool)
      requires Valid()
      modifies processor`trace, xray
      ensures Valid() && store.Contents() == old(store.Contents())
      ensures ok ==> forall email <- emails :: email !in xray.live
    {
      for i := 0 to |emails|
        invariant Valid() && store.Contents() == old(store.Contents())
        invariant forall email <- emails[..i] :: email !in xray.live
      {
        ok := processor.RemoveUser(emails[i]);
        if !ok { return; }
        assert emails[..i + 1] == emails[..i] + [emails[i]];
      }
      assert emails[..|emails|] == emails;
      ok := true;
    }

    /** The part of a direct_primary refresh from the point where it decides about local disables. */
    method ApplyDirect(snapshot: ConfigSnapshot) returns (ok: bool, preserved: bool)
      requires Valid() && snapshot.revision >= store.revision && snapshot.mode.DirectPrimary?
      modifies this`reconcilePending, processor, store, xray
      ensures Valid()
      ensures preserved <==> old(store.batches) != [] && HasUsageDisabled(old(store.users))
      ensures ok ==> store.revision == snapshot.revision && store.mode == snapshot.mode
      ensures ok ==> StoredAsSnapshot(old(store.users), preserved, snapshot.users, store.users)
      ensures ok && preserved ==> StaysDisabled(old(store.users), store.users)
      ensures ok && !awaitingInbound ==> LiveAsDecided(old(store.users), preserved, snapshot.users, xray.live)
    {
      var disabled := store.HasUsageDisabledUsers();
      preserved := |store.batches| > 0 && disabled;
      var local := store.users;
      var us := if preserved then KeepDisabled(local, snapshot.users) else snapshot.users;
      ghost var before := Tables(local, xray.live);
      var r := ReconcileUsers(us);
      if !r.Done? { return false, preserved; }
      ghost var provisioned := store.users;
      assert provisioned == local || UpsertAll(local, us) == Some(provisioned) by { ProvisionUpserts(before, us); }
      Kept(local, preserved, snapshot.users);
      if !awaitingInbound {
        assert Reconciled(before, us).ok && Reconciled(before, us).tables.live == xray.live;
        if preserved { ReconciledHidesDisabled(local, snapshot.users, before); } else { ReconcileByLast(before, us); }
      }
      var applied := store.ApplyConfigSnapshot(snapshot.revision, snapshot.mode, us);
      processor.Rebase();
      ok := applied.Applied?;
      if ok { ReplacedOnce(local, us, provisioned); }
      if ok && preserved { PreservedSnapshot(local, snapshot.users, true, provisioned); }
    }

    /**
     * refreshConfig(), inside withStateMutation. `evaluated` is the node at the point where the
     * refresh decides whether local disables must be preserved, and `preserved` is that decision.
     */
    method RefreshConfig(snapshot: ConfigSnapshot, counters: Option<seq<Counter>>)
      returns (o: RefreshOutcome, ghost evaluated: Node, ghost preserved: bool)
      requires Valid()
      modifies this, processor, store, xray
      ensures Valid() && awaitingInbound == old(awaitingInbound)
      ensures o.KeptCurrent? <==> snapshot.revision < old(store.revision)
      ensures o.KeptCurrent? ==> store.Contents() == old(store.Contents()) && xray.live == old(xray.live)
      ensures o.KeptCurrent? || o.Threw? ==> mode == old(mode)
      ensures backendOnline == (old(backendOnline) || !o.Threw?)
      ensures o.Refreshed? ==> mode == snapshot.mode
      ensures o.Refreshed? ==>
                Follows(snapshot, old(processor.Now()), counters, old(backendOnline), evaluated, preserved, processor.Now(), awaitingInbound)
    {
      evaluated, preserved := processor.Now(), false;
      if snapshot.revision < store.revision {
        backendOnline := true;
        return KeptCurrent, evaluated, false;
      }
      var ok: bool;
      ok, evaluated, preserved := FollowSnapshot(snapshot, counters);
      if !ok { return Threw, evaluated, preserved; }
      mode, backendOnline := store.mode, true;
      return Refreshed, evaluated, preserved;
    }

    method FollowSnapshot(snapshot: ConfigSnapshot, counters: Option<seq<Counter>>)
      returns (ok: bool, ghost evaluated: Node, ghost preserved: bool)
      requires Valid() && snapshot.revision >= store.revision
      modifies this`reconcilePending, processor, store, xray
      ensures Valid()
      ensures ok ==>
                Follows(snapshot, old(processor.Now()), counters, backendOnline, evaluated, preserved, processor.Now(), awaitingInbound)
    {
      evaluated, preserved := processor.Now(), false;
      if snapshot.mode.DirectPrimary? {
        ok, evaluated, preserved := RefreshDirect(snapshot, counters);
      } else {
        ok := StoreSnapshot(snapshot);
      }
    }

    /** In every other mode only the store follows the snapshot. */
    method StoreSnapshot(snapshot: ConfigSnapshot) returns (ok: bool)
      requires Valid() && snapshot.revision >= store.revision
      modifies processor, store
      ensures Valid() && xray.live == old(xray.live)
      ensures ok ==> store.revision == snapshot.revision && store.mode == snapshot.mode
      ensures ok ==> StoredAsSnapshot(old(store.users), false, snapshot.users, store.users)
    {
      Kept(store.users, false, snapshot.users);
      var applied := store.ApplyConfigSnapshot(snapshot.revision, snapshot.mode, snapshot.users);
      processor.Rebase();
      ok := applied.Applied?;
    }

    /** The direct_primary part: meter first if the snapshot takes an enabled user away, then apply. */
    method RefreshDirect(snapshot: ConfigSnapshot, counters: Option<seq<Counter>>)
      returns (ok: bool, ghost evaluated: Node, ghost preserved: bool)
      requires Valid() && snapshot.revision >= store.revision && snapshot.mode.DirectPrimary?
      modifies this`reconcilePending, processor, store, xray
      ensures Valid()
      ensures ok ==> store.revision == snapshot.revision && store.mode == snapshot.mode
      ensures ok ==> (preserved <==> evaluated.db.batches != [] && HasUsageDisabled(evaluated.db.users))
      ensures ok ==>
                if TakesAccess(old(store.users), snapshot.users) then
                  counters.Some? && SampleRecorded(old(store.Contents()), evaluated.db, counters.value, backendOnline)
                else evaluated == old(processor.Now())
      ensures ok ==> StoredAsSnapshot(evaluated.db.users, preserved, snapshot.users, store.users)
      ensures ok && preserved ==> StaysDisabled(evaluated.db.users, store.users)
      ensures ok && !awaitingInbound ==> LiveAsDecided(evaluated.db.users, preserved, snapshot.users, xray.live)
    {
      evaluated, preserved := processor.Now(), false;
      RemovesIffTakesAccess(store.users, snapshot.users);
      if RemovesEnabledUser(store.users, snapshot.users) {
        ok := SampleWithinStateMutation(counters);
        if !ok { return; }
      }
      evaluated := processor.Now();
      var kept: bool;
      ok, kept := ApplyDirect(snapshot);
      preserved := kept;
    }

    /** Reconciling with what is stored: the store stays, and Xray follows it unless there is no inbound. */
    method ReconcileStored() returns (ok: bool)
      requires Valid()
      modifies this`reconcilePending, processor`trace, store, xray
      ensures Valid()
      ensures ok ==> store.Contents() == old(store.Contents())
      ensures ok && !awaitingInbound ==> XrayEqualsStore(store.users, xray.live)
    {
      var us := ListDesiredUsers();
      StoredReconcile(Tables(store.users, xray.live), us);
      var r := ReconcileUsers(us);
      ok := r.Done?;
    }

    /** recoverBackendConfirmedUsers(): only once everything is acknowledged, and never beyond the backend's word. */
    method RecoverBackendConfirmedUsers(snapshot: ConfigSnapshot) returns (ok: bool)
      requires Valid()
      modifies this, processor, store, xray
      ensures Valid()
      ensures ok ==>
                store.users == if old(store.batches) == [] && HasUsageDisabled(old(store.users)) then RestoreAll(old(store.users), snapshot.users)
                               else old(store.users)
      ensures ok && old(store.batches) == [] && HasUsageDisabled(old(store.users)) ==>
                RestoredBy(old(store.users), snapshot.users, store.users)
      ensures old(store.batches) != [] || !HasUsageDisabled(old(store.users)) ==> ok && xray.live == old(xray.live)
      ensures ok && old(store.batches) == [] && HasUsageDisabled(old(store.users)) && mode.DirectPrimary? && !awaitingInbound ==>
                XrayEqualsStore(store.users, xray.live)
    {
      var disabled := store.HasUsageDisabledUsers();
      if |store.batches| != 0 || !disabled { return true; }
      RestoredExactly(store.users, snapshot.users);
      store.RestoreBackendConfirmedUsers(snapshot.users);
      processor.Rebase();
      mode := store.mode;
      if !mode.DirectPrimary? { return true; }
      ok := ReconcileStored();
    }

    /**
     * The handler of one user command: sample before a disable or remove, execute, attach the
     * watermarks. `at` is the node the command starts from, `fault` the Xray call that threw.
     */
    method HandleCommand(c: Command, counters: Option<seq<Counter>>)
      returns (result: Option<CommandResult>, marks: map<string, nat>, ghost at: Node, ghost fault: Option<nat>)
      requires Valid()
      modifies this, processor, store, xray
      ensures Valid()
      ensures result.Some? ==> UniqueEmails(at.db.users)
      ensures result.Some? ==> result.value == ResultOf(at, c, old(mode).DirectPrimary?, fault)
      ensures result.Some? ==> processor.Now() == PerformAll(at, Execution(at, c, old(mode).DirectPrimary?, fault))
      ensures result.Some? && old(mode).DirectPrimary? && (c.kind.DisableUser? || c.kind.RemoveUser?) ==>
                counters.Some? && SampleRecorded(old(store.Contents()), at.db, counters.value, old(backendOnline))
      ensures result.Some? && !(old(mode).DirectPrimary? && (c.kind.DisableUser? || c.kind.RemoveUser?)) ==> at == old(processor.Now())
      ensures result.Some? && result.value.Completed? && (c.kind.DisableUser? || c.kind.RemoveUser?) ==> Q.Marks(store.Queue(), marks)
    {
      marks, at, fault := map[], processor.Now(), None;
      if SamplesFirst(mode, c) {
        var ok := SampleWithinStateMutation(counters);
        if !ok { return None, marks, at, fault; }
      }
      at := processor.Now();
      ghost var origin, past := processor.origin, processor.trace;
      var r: CommandResult;
      r, fault := processor.Execute(c, mode.DirectPrimary?);
      PerformAppend(origin, past, Execution(at, c, mode.DirectPrimary?, fault));
      if r.Completed? && IsTerminal(c) { marks := store.PendingBatchWatermarks(); }
      mode := store.mode;
      result := Some(r);
    }
  }
}
