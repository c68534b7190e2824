/**
 * Exactly when a list of desired users runs into UNIQUE(email). reconcile() and
 * replaceDesiredUsers() both upsert before they delete, so a row that is about to go, or to take
 * another email later in the list, still holds the old one. Lists may repeat bindings and emails.
 */
module EmailConflicts {
  import opened Common
  import opened AgentTables
  import opened Commands
  import opened Reconciliation

  // ----- Which entry of a list ends up in a row -----

  /** None of the first `n` users rewrites row `b`: it is not among them, or the row is as new already. */
  predicate Stays(users: Users, us: seq<DesiredUser>, n: nat, b: string)
    requires n <= |us|
  {
    forall j :: 0 <= j < n && us[j].bindingId == b ==> Ignored(users, us[j])
  }

  /** User `i` is written when its turn comes: it is newer than the row and than every earlier entry for it. */
  predicate Applied(users: Users, us: seq<DesiredUser>, i: nat)
    requires i < |us|
  {
    !Ignored(users, us[i]) && forall k :: 0 <= k < i && us[k].bindingId == us[i].bindingId ==> us[k].revision < us[i].revision
  }

  /** After the first `n` users, row `b` is what user `j` made it: no later entry for it is newer. */
  predicate Wins(users: Users, us: seq<DesiredUser>, n: nat, b: string, j: nat)
    requires n <= |us|
  {
    && j < n && us[j].bindingId == b && Applied(users, us, j)
    && forall k :: j < k < n && us[k].bindingId == b ==> us[k].revision <= us[j].revision
  }

  /** The entry row `b` stems from after the first `n` users, if they rewrite it at all. */
  function Winner(users: Users, us: seq<DesiredUser>, n: nat, b: string): (w: Option<nat>)
    requires n <= |us|
    ensures w.Some? ==> Wins(users, us, n, b, w.value)
    ensures w.None? ==> Stays(users, us, n, b)
  {
    if n == 0 then None
    else
      var before := Winner(users, us, n - 1, b);
      if us[n - 1].bindingId == b && Newer(users, us, before, us[n - 1]) then
        EarlierAreOlder(users, us, n - 1, b, before);
        Some(n - 1)
      else before
  }

  /** Newer than the row as it then is. */
  predicate Newer(users: Users, us: seq<DesiredUser>, w: Option<nat>, u: DesiredUser)
    requires w.Some? ==> w.value < |us|
  {
    match w
    case None => !Ignored(users, u)
    case Some(j) => us[j].revision < u.revision
  }

  lemma EarlierAreOlder(users: Users, us: seq<DesiredUser>, n: nat, b: string, w: Option<nat>)
    requires n < |us| && us[n].bindingId == b && (w.Some? ==> Wins(users, us, n, b, w.value)) && (w.None? ==> Stays(users, us, n, b))
    ensures Newer(users, us, w, us[n]) <==> Applied(users, us, n)
  {
    if w.Some? {
      assert us[w.value].bindingId == b;
      WinnerIsNewest(users, us, n, b, w.value);
    }
  }

  lemma WinnerIsNewest(users: Users, us: seq<DesiredUser>, n: nat, b: string, j: nat)
    requires n <= |us| && Wins(users, us, n, b, j)
    ensures forall k :: 0 <= k < n && us[k].bindingId == b ==> us[k].revision <= us[j].revision
    ensures b in users ==> users[b].revision < us[j].revision
  {
  }

  /** What row `b` is after the first `n` users. */
  predicate RowIs(users: Users, us: seq<DesiredUser>, n: nat, b: string, rows: Users)
    requires n <= |us|
  {
    match Winner(users, us, n, b)
    case None => (b in rows <==> b in users) && (b in users ==> rows[b] == users[b])
    case Some(j) => b in rows && ToDesiredUser(b, rows[b]) == us[j]
  }

  /** A row not rewritten is as it was; a row rewritten reads back as the entry that wins it. */
  lemma {:induction false} RowsAfter(users: Users, us: seq<DesiredUser>, n: nat, b: string)
    requires n <= |us| && UpsertAll(users, us[..n]).Some?
    ensures RowIs(users, us, n, b, UpsertAll(users, us[..n]).value)
  {
    if n > 0 {
      assert us[..n][..n - 1] == us[..n - 1];
      RowsAfter(users, us, n - 1, b);
      RowStep(users, us, n - 1, b, UpsertAll(users, us[..n - 1]).value, UpsertAll(users, us[..n]).value);
    }
  }

  lemma RowStep(users: Users, us: seq<DesiredUser>, n: nat, b: string, rows: Users, next: Users)
    requires n < |us| && RowIs(users, us, n, b, rows) && Upsert(rows, us[n]) == Some(next)
    ensures RowIs(users, us, n + 1, b, next)
  {
    if us[n].bindingId == b { NextIsNewer(users, us, n, rows); }
  }

  lemma NextIsNewer(users: Users, us: seq<DesiredUser>, n: nat, rows: Users)
    requires n < |us| && RowIs(users, us, n, us[n].bindingId, rows)
    ensures Ignored(rows, us[n]) <==> !Newer(users, us, Winner(users, us, n, us[n].bindingId), us[n])
  {
  }

  // ----- Conflicts -----

  /** After the first `n` users, row `b` holds this email. */
  predicate HoldsEmail(users: Users, us: seq<DesiredUser>, n: nat, b: string, email: string)
    requires n <= |us|
  {
    match Winner(users, us, n, b)
    case None => b in users && users[b].email == email
    case Some(j) => us[j].email == email
  }

  /** User `i` is to be written while another row holds its email. */
  ghost predicate Blocked(users: Users, us: seq<DesiredUser>, i: nat)
    requires i < |us|
  {
    Applied(users, us, i) && exists b :: b != us[i].bindingId && HoldsEmail(users, us, i, b, us[i].email)
  }

  /** The next upsert fails exactly if its user is blocked. */
  lemma NextConflict(users: Users, us: seq<DesiredUser>, n: nat)
    requires n < |us| && UpsertAll(users, us[..n]).Some?
    ensures UpsertAll(users, us[..n + 1]).None? <==> Blocked(users, us, n)
  {
    var rows, u := UpsertAll(users, us[..n]).value, us[n];
    assert us[..n + 1][..n] == us[..n];
    RowsAfter(users, us, n, u.bindingId);
    NextIsNewer(users, us, n, rows);
    EarlierAreOlder(users, us, n, u.bindingId, Winner(users, us, n, u.bindingId));
    forall b ensures HoldsEmail(users, us, n, b, u.email) <==> b in rows && rows[b].email == u.email {
      RowsAfter(users, us, n, b);
      HoldsIffRow(users, us, n, b, u.email, rows);
    }
    TakenIffHeld(users, us, n, rows);
  }

  lemma HoldsIffRow(users: Users, us: seq<DesiredUser>, n: nat, b: string, email: string, rows: Users)
    requires n <= |us| && RowIs(users, us, n, b, rows)
    ensures HoldsEmail(users, us, n, b, email) <==> b in rows && rows[b].email == email
  {
  }

  lemma TakenIffHeld(users: Users, us: seq<DesiredUser>, n: nat, rows: Users)
    requires n < |us|
    requires forall b :: HoldsEmail(users, us, n, b, us[n].email) <==> b in rows && rows[b].email == us[n].email
    ensures EmailTaken(rows, us[n])
            <==> exists b :: b != us[n].bindingId && HoldsEmail(users, us, n, b, us[n].email)
  {
    if EmailTaken(rows, us[n]) {
      var b :| b in rows && b != us[n].bindingId && rows[b].email == us[n].email;
      assert HoldsEmail(users, us, n, b, us[n].email);
    }
  }

  lemma {:induction false} ConflictsBelow(users: Users, us: seq<DesiredUser>, n: nat)
    requires n <= |us|
    ensures UpsertAll(users, us[..n]).Some? <==> forall i :: 0 <= i < n ==> !Blocked(users, us, i)
  {
    if n > 0 {
      ConflictsBelow(users, us, n - 1);
      assert us[..n][..n - 1] == us[..n - 1];
      if UpsertAll(users, us[..n - 1]).Some? { NextConflict(users, us, n - 1); }
    }
  }

  /**
   * A caller can tell beforehand, from the rows and the list alone: a reconcile with working Xray
   * calls, and a snapshot, go through if and only if no user of the list is blocked.
   */
  lemma ConflictsExactly(t: Tables, us: seq<DesiredUser>)
    ensures Reconciled(t, us).ok <==> forall i :: 0 <= i < |us| ==> !Blocked(t.users, us, i)
    ensures Replace(t.users, us).Some? <==> forall i :: 0 <= i < |us| ==> !Blocked(t.users, us, i)
  {
    assert us[..|us|] == us;
    ConflictsBelow(t.users, us, |us|);
    ProvisionUpserts(t, us);
  }

  /**
   * A snapshot that goes through leaves exactly the bindings it names; each row reads back as the
   * newest entry for it, the first of equals, unless the row was as new already and stayed as it was.
   */
  lemma SnapshotReadsBack(users: Users, us: seq<DesiredUser>, b: string)
    requires Replace(users, us).Some?
    ensures b in Replace(users, us).value <==> b in Bindings(us)
    ensures b in Bindings(us) ==> b in Replace(users, us).value && RowIs(users, us, |us|, b, Replace(users, us).value)
  {
    assert us[..|us|] == us;
    RowsAfter(users, us, |us|, b);
    if b in Bindings(us) {
      var u :| u in us && u.bindingId == b;
      var k :| 0 <= k < |us| && us[k] == u;
      assert Winner(users, us, |us|, b).None? ==> Ignored(users, us[k]);
    }
  }
}
