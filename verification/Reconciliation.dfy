/** What reconcile() makes of the user table and Xray's accounts when every Xray call succeeds. */
module Reconciliation {
  import opened Common
  import opened AgentTables
  import opened Commands

  datatype Tables = Tables(users: Users, live: Live)

  /** `ok` is false when an upsert hit UNIQUE(email); what was done before it stays done. */
  datatype Outcome = Outcome(tables: Tables, ok: bool)

  function Accounted(live: Live, u: DesiredUser): Live {
    if u.enabled then live[u.email := Some(u.uuid)] else live - {u.email}
  }

  /** The loop over the desired users. */
  function ProvisionAll(t: Tables, us: seq<DesiredUser>): Outcome {
    if |us| == 0 then Outcome(t, true)
    else
      var before := ProvisionAll(t, us[..|us| - 1]);
      if !before.ok then before
      else
        match Upsert(before.tables.users, Last(us))
        case None => Outcome(before.tables, false)
        case Some(users) => Outcome(Tables(users, Accounted(before.tables.live, Last(us))), true)
  }

  function Emails(us: seq<DesiredUser>): set<string> { set u | u in us :: u.email }

  /** Provision the desired users, then remove every account that was live and is not desired. */
  function Reconciled(t: Tables, us: seq<DesiredUser>): Outcome {
    var o := ProvisionAll(t, us);
    if o.ok then o.(tables := o.tables.(live := o.tables.live - (t.live.Keys - Emails(us)))) else o
  }

  predicate DistinctEmails(us: seq<DesiredUser>) {
    forall i, j :: 0 <= i < j < |us| ==> us[i].email != us[j].email
  }

  /** The accounts are exactly the enabled users, each with its uuid. */
  ghost predicate ExactlyEnabled(live: Live, us: seq<DesiredUser>) {
    && (forall email :: email in live <==> exists i :: 0 <= i < |us| && us[i].enabled && us[i].email == email)
    && (forall i :: 0 <= i < |us| && us[i].enabled ==> us[i].email in live && live[us[i].email] == Some(us[i].uuid))
  }

  // ----- Users -----

  lemma {:induction false} ProvisionUpserts(t: Tables, us: seq<DesiredUser>)
    ensures ProvisionAll(t, us).ok <==> UpsertAll(t.users, us).Some?
    ensures ProvisionAll(t, us).ok ==> Some(ProvisionAll(t, us).tables.users) == UpsertAll(t.users, us)
  {
    if |us| > 0 { ProvisionUpserts(t, us[..|us| - 1]); }
  }

  lemma {:induction false} ProvisionLeavesOthers(t: Tables, us: seq<DesiredUser>, email: string)
    requires ProvisionAll(t, us).ok && email !in Emails(us)
    ensures var live := ProvisionAll(t, us).tables.live;
            (email in live <==> email in t.live) && (email in live ==> live[email] == t.live[email])
  {
    if |us| > 0 {
      assert us == us[..|us| - 1] + [Last(us)];
      assert Last(us) in us;
      forall u | u in us[..|us| - 1] ensures u in us {}
      ProvisionLeavesOthers(t, us[..|us| - 1], email);
    }
  }

  /** User `i` is the last of the list with its email. */
  predicate Decides(us: seq<DesiredUser>, i: int) {
    0 <= i < |us| && forall j :: i < j < |us| ==> us[j].email != us[i].email
  }

  /** The accounts are exactly the enabled ones among the users that decide, each with its uuid. */
  ghost predicate ExactlyDecided(live: Live, us: seq<DesiredUser>) {
    && (forall email :: email in live <==> exists i :: Decides(us, i) && us[i].enabled && us[i].email == email)
    && (forall i :: Decides(us, i) && us[i].enabled && us[i].email in live ==> live[us[i].email] == Some(us[i].uuid))
  }

  /** The last desired user with an email decides its account. */
  lemma {:induction false} ProvisionAccounts(t: Tables, us: seq<DesiredUser>, i: nat)
    requires ProvisionAll(t, us).ok && Decides(us, i)
    ensures var live := ProvisionAll(t, us).tables.live;
            (us[i].email in live <==> us[i].enabled) && (us[i].enabled ==> live[us[i].email] == Some(us[i].uuid))
  {
    var n := |us| - 1;
    if i < n {
      assert Decides(us[..n], i);
      ProvisionAccounts(t, us[..n], i);
    }
  }

  lemma {:induction false} SomeoneDecides(us: seq<DesiredUser>, email: string) returns (i: nat)
    requires email in Emails(us)
    ensures Decides(us, i) && us[i].email == email
  {
    var n := |us| - 1;
    if us[n].email == email {
      i := n;
    } else {
      assert us == us[..n] + [us[n]];
      i := SomeoneDecides(us[..n], email);
    }
  }

  /** Whatever was live before, a reconcile that completes leaves exactly the enabled deciding users live. */
  lemma ReconcileByLast(t: Tables, us: seq<DesiredUser>)
    requires Reconciled(t, us).ok
    ensures ExactlyDecided(Reconciled(t, us).tables.live, us)
  {
    var live := Reconciled(t, us).tables.live;
    forall i | Decides(us, i)
      ensures us[i].email in Emails(us)
      ensures (us[i].email in live <==> us[i].enabled) && (us[i].enabled ==> live[us[i].email] == Some(us[i].uuid))
    {
      assert us[i] in us;
      ProvisionAccounts(t, us, i);
    }
    forall email ensures email in live <==> exists i :: Decides(us, i) && us[i].enabled && us[i].email == email {
      if email in Emails(us) {
        var i := SomeoneDecides(us, email);
      } else {
        ProvisionLeavesOthers(t, us, email);
      }
    }
  }

  lemma DistinctDecide(us: seq<DesiredUser>, live: Live)
    requires DistinctEmails(us) && ExactlyDecided(live, us)
    ensures ExactlyEnabled(live, us)
  {
    forall i | 0 <= i < |us| ensures Decides(us, i) {}
  }

  /** With distinct emails everyone decides: exactly the enabled users are live. */
  lemma ReconcileIsExact(t: Tables, us: seq<DesiredUser>)
    requires Reconciled(t, us).ok && DistinctEmails(us)
    ensures ExactlyEnabled(Reconciled(t, us).tables.live, us)
  {
    ReconcileByLast(t, us);
    DistinctDecide(us, Reconciled(t, us).tables.live);
  }

  /** With every Xray call succeeding, the only way to fail is an email held by another row. */
  lemma ReconcileFailsIff(t: Tables, us: seq<DesiredUser>)
    ensures Reconciled(t, us).ok <==> UpsertAll(t.users, us).Some?
  {
    ProvisionUpserts(t, us);
  }

  /** And that can happen: two users swapping emails are refused although the emails stay distinct. */
  lemma SwappedEmailsConflict(a: DesiredUser, b: DesiredUser, live: Live)
    requires a.bindingId != b.bindingId && a.email != b.email
    ensures var users := map[a.bindingId := UpsertedRow(map[], a), b.bindingId := UpsertedRow(map[], b)];
            var swapped := [a.(email := b.email, revision := a.revision + 1), b.(email := a.email, revision := b.revision + 1)];
            UniqueEmails(users) && DistinctEmails(swapped) && !Reconciled(Tables(users, live), swapped).ok
  {
    var users := map[a.bindingId := UpsertedRow(map[], a), b.bindingId := UpsertedRow(map[], b)];
    var first := a.(email := b.email, revision := a.revision + 1);
    var swapped := [first, b.(email := a.email, revision := b.revision + 1)];
    assert swapped[..1] == [first] && [first][..0] == [];
    assert b.bindingId in users && users[b.bindingId].email == first.email;
    assert EmailTaken(users, first);
    assert UpsertAll(users, [first]).None?;
    ReconcileFailsIff(Tables(users, live), swapped);
  }

  // ----- Running it again -----

  predicate AllIgnored(users: Users, us: seq<DesiredUser>) { forall u <- us :: Ignored(users, u) }

  lemma {:induction false} UpsertedAreIgnored(users: Users, us: seq<DesiredUser>)
    requires UpsertAll(users, us).Some?
    ensures AllIgnored(UpsertAll(users, us).value, us)
  {
    if |us| > 0 {
      UpsertedAreIgnored(users, us[..|us| - 1]);
      assert us == us[..|us| - 1] + [Last(us)];
    }
  }

  lemma {:induction false} IgnoredUpsertsDoNothing(users: Users, us: seq<DesiredUser>)
    requires AllIgnored(users, us)
    ensures UpsertAll(users, us) == Some(users)
  {
    if |us| > 0 {
      assert us == us[..|us| - 1] + [Last(us)];
      IgnoredUpsertsDoNothing(users, us[..|us| - 1]);
    }
  }

  /** The calls ensureUser and removeUser make for one user, given what is live. */
  function CallsFor(live: Live, u: DesiredUser): seq<Effect> {
    if u.enabled then EnsureLive(live, u.email, u.uuid) else RemoveIfLive(live, u.email)
  }

  /** A second reconcile with the same users succeeds, changes neither table, and asks Xray to change nothing. */
  lemma ReconcileTwice(t: Tables, us: seq<DesiredUser>)
    requires Reconciled(t, us).ok && DistinctEmails(us)
    ensures Reconciled(Reconciled(t, us).tables, us) == Reconciled(t, us)
    ensures forall u <- us :: CallsFor(Reconciled(t, us).tables.live, u) == []
    ensures Reconciled(t, us).tables.live.Keys - Emails(us) == {}
  {
    var r := Reconciled(t, us).tables;
    ReconcileIsExact(t, us);
    ProvisionUpserts(t, us);
    UpsertedAreIgnored(t.users, us);
    NothingToCall(r.live, us);
    NothingToRemove(r.live, us);
    QuietProvision(r, us);
    assert r.live - {} == r.live;
  }

  lemma NothingToCall(live: Live, us: seq<DesiredUser>)
    requires DistinctEmails(us) && ExactlyEnabled(live, us)
    ensures forall u <- us :: CallsFor(live, u) == []
  {
    forall u <- us ensures CallsFor(live, u) == [] {
      var i :| 0 <= i < |us| && us[i] == u;
      if u.email in live {
        var k :| 0 <= k < |us| && us[k].enabled && us[k].email == u.email;
        assert k == i;
      }
    }
  }

  lemma NothingToRemove(live: Live, us: seq<DesiredUser>)
    requires ExactlyEnabled(live, us)
    ensures live.Keys - Emails(us) == {}
  {
    forall email | email in live.Keys ensures email in Emails(us) {
      var k :| 0 <= k < |us| && us[k].enabled && us[k].email == email;
      assert us[k] in us;
    }
  }

  lemma {:induction false} QuietProvision(t: Tables, us: seq<DesiredUser>)
    requires AllIgnored(t.users, us) && forall u <- us :: CallsFor(t.live, u) == []
    ensures ProvisionAll(t, us) == Outcome(t, true)
  {
    if |us| > 0 {
      var last := Last(us);
      assert us == us[..|us| - 1] + [last];
      QuietProvision(t, us[..|us| - 1]);
      assert last in us && CallsFor(t.live, last) == [];
      assert Accounted(t.live, last) == t.live;
    }
  }

  // ----- Reconciling with what is stored -----

  /** A listing of the stored users, in any order. */
  ghost predicate Lists(users: Users, us: seq<DesiredUser>) {
    && (forall b :: b in users ==> ToDesiredUser(b, users[b]) in us)
    && (forall u <- us :: u.bindingId in users && u == ToDesiredUser(u.bindingId, users[u.bindingId]))
    && (forall i, j :: 0 <= i < j < |us| ==> us[i].bindingId != us[j].bindingId)
  }

  /** Reconciling with the stored users cannot conflict, keeps the store, and makes Xray equal to it. */
  lemma StoredReconcile(t: Tables, us: seq<DesiredUser>)
    requires UniqueEmails(t.users) && Lists(t.users, us)
    ensures Reconciled(t, us).ok && Reconciled(t, us).tables.users == t.users
    ensures DistinctEmails(us)
    ensures forall email :: email in Reconciled(t, us).tables.live <==> exists b :: b in t.users && t.users[b].enabled && t.users[b].email == email
    ensures forall b :: b in t.users && t.users[b].enabled ==> t.users[b].email in Reconciled(t, us).tables.live
    ensures forall b :: b in t.users && t.users[b].enabled && t.users[b].email in Reconciled(t, us).tables.live ==>
              Reconciled(t, us).tables.live[t.users[b].email] == Some(t.users[b].uuid)
  {
    forall u <- us ensures Ignored(t.users, u) {}
    IgnoredUpsertsDoNothing(t.users, us);
    ProvisionUpserts(t, us);
    forall i, j | 0 <= i < j < |us| ensures us[i].email != us[j].email {
      assert us[i] in us && us[j] in us;
    }
    ReconcileIsExact(t, us);
    var live := Reconciled(t, us).tables.live;
    forall email ensures email in live <==> exists b :: b in t.users && t.users[b].enabled && t.users[b].email == email {
      if email in live {
        var i :| 0 <= i < |us| && us[i].enabled && us[i].email == email;
        assert us[i] in us;
      }
      if b :| b in t.users && t.users[b].enabled && t.users[b].email == email {
        var i :| 0 <= i < |us| && us[i] == ToDesiredUser(b, t.users[b]);
      }
    }
    forall b | b in t.users && t.users[b].enabled && t.users[b].email in live ensures live[t.users[b].email] == Some(t.users[b].uuid) {
      var i :| 0 <= i < |us| && us[i] == ToDesiredUser(b, t.users[b]);
    }
  }
}
