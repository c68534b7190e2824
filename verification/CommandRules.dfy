/**
 * What one command leaves behind and how it is answered, said of rows, accounts and the fields of
 * the payload.
 */
module CommandRules {
  import opened Common
  import opened AgentTables
  import opened AgentStore
  import opened Commands
  import opened CommandRuns

  // ----- Every command -----

  predicate IsBookkeeping(e: Effect) { e.Begin? || e.Advance? || e.Complete? }

  /** Only the end of a command and a snapshot move the revision. */
  lemma {:induction false} TableEffectsKeepRevision(n: Node, es: seq<Effect>)
    requires forall e <- es :: !e.Advance? && !e.ApplySnapshot?
    ensures PerformAll(n, es).db.revision == n.db.revision
    decreases |es|
  {
    if |es| > 0 {
      forall e <- es[1..] ensures e in es {}
      TableEffectsKeepRevision(Perform(n, es[0]), es[1..]);
    }
  }

  lemma PlanHasNoSnapshot(n: Node, c: Command, writable: bool)
    requires UniqueEmails(n.db.users)
    ensures forall e <- CommandPlan(n, c, writable).effects :: !e.ApplySnapshot? && !e.Begin? && !e.Advance? && !e.Complete?
  {
  }

  /** The result answered is the one recorded, and only a completed command raises the revision. */
  lemma ResultIsRecorded(n: Node, c: Command, writable: bool, fault: Option<nat>)
    requires UniqueEmails(n.db.users) && !IsCompleted(n.db, c.id)
    ensures var m, r := PerformAll(n, Execution(n, c, writable, fault)), ResultOf(n, c, writable, fault);
            && c.id in m.db.commands && m.db.commands[c.id] == Some(r)
            && m.db.revision == (if r.Completed? && c.revision > n.db.revision then c.revision else n.db.revision)
            && (r.Completed? ==> r == Completed(c.revision))
  {
    var p := CommandPlan(n, c, writable);
    var es, ok, begun := DoneOf(p, fault), Succeeds(p, fault), Perform(n, Begin(c.id));
    PlanHasNoSnapshot(n, c, writable);
    TableEffectsKeepRevision(begun, es);
    TableEffectsKeepCommands(begun, es);
    PerformAppend(n, [Begin(c.id)] + es, Ending(c, ok));
    PerformAppend(n, [Begin(c.id)], es);
    PerformOne(n, Begin(c.id));
    Concludes(PerformAll(begun, es), c, ok);
  }

  lemma Concludes(m: Node, c: Command, ok: bool)
    requires c.id in m.db.commands
    ensures var v := PerformAll(m, Ending(c, ok));
            && c.id in v.db.commands && v.db.commands[c.id] == Some(if ok then Completed(c.revision) else Failed)
            && v.db.revision == (if ok && c.revision > m.db.revision then c.revision else m.db.revision)
  {
    if ok {
      PerformTwo(m, Advance(c.revision), Complete(c.id, Completed(c.revision)));
    } else {
      PerformOne(m, Complete(c.id, Failed));
    }
  }

  /** A command answered as completed has done all it does when no Xray call throws. */
  lemma CompletedMeansDone(n: Node, c: Command, writable: bool, fault: Option<nat>)
    requires UniqueEmails(n.db.users) && ResultOf(n, c, writable, fault).Completed?
    ensures Execution(n, c, writable, fault) == Execution(n, c, writable, None)
    ensures ResultOf(n, c, writable, None) == ResultOf(n, c, writable, fault)
  {
  }

  /** Without write permission every command but REFRESH_QUOTA leaves users, accounts and revision alone, and fails. */
  lemma ReadOnlyTouchesNothing(n: Node, c: Command, fault: Option<nat>, survived: nat)
    requires UniqueEmails(n.db.users) && !c.kind.RefreshQuota? && !IsCompleted(n.db, c.id)
    ensures var m := Step(n, Execute(c, false, fault, survived));
            m.db.users == n.db.users && m.live == n.live && m.db.revision == n.db.revision
    ensures ResultOf(n, c, false, fault) == Failed
    ensures c.id in PerformAll(n, Execution(n, c, false, fault)).db.commands
            && PerformAll(n, Execution(n, c, false, fault)).db.commands[c.id] == Some(Failed)
  {
    var es := Survivors(Execution(n, c, false, fault), survived);
    assert CommandPlan(n, c, false).effects == [];
    forall e <- es ensures IsBookkeeping(e) && !e.Advance? {}
    BookkeepingTouchesNothing(n, es);
    TableEffectsKeepRevision(n, es);
    ResultIsRecorded(n, c, false, fault);
  }

  // ----- Calls to Xray -----

  /** What happens at one effect: an account is added only where none is, and removed only where one is. */
  predicate CallNeeded(live: Live, e: Effect) {
    && (e.AddLive? ==> e.email !in live)
    && (e.RemoveLive? ==> e.email in live)
  }

  lemma {:induction false} TableEffectsKeepLive(n: Node, es: seq<Effect>)
    requires forall e <- es :: !e.AddLive? && !e.RemoveLive?
    ensures PerformAll(n, es).live == n.live
    decreases |es|
  {
    if |es| > 0 {
      forall e <- es[1..] ensures e in es {}
      TableEffectsKeepLive(Perform(n, es[0]), es[1..]);
    }
  }

  /** ensureUser asks Xray for nothing if the account is right, and never adds over an account. */
  lemma EnsureCallsAreNeeded(n: Node, email: string, uuid: string, i: nat)
    requires i < |EnsureLive(n.live, email, uuid)|
    ensures !(email in n.live && n.live[email] == Some(uuid))
    ensures CallNeeded(PerformAll(n, EnsureLive(n.live, email, uuid)[..i]).live, EnsureLive(n.live, email, uuid)[i])
  {
    var es := EnsureLive(n.live, email, uuid);
    if i == 0 {
      assert es[..0] == [];
    } else {
      assert es[..1] == [es[0]];
      PerformOne(n, es[0]);
    }
  }

  /** Every call a command makes to Xray is needed when it is made. */
  lemma CallsAreNeeded(n: Node, c: Command, writable: bool, fault: Option<nat>, i: nat)
    requires UniqueEmails(n.db.users) && i < |Execution(n, c, writable, fault)|
    ensures CallNeeded(PerformAll(n, Execution(n, c, writable, fault)[..i]).live, Execution(n, c, writable, fault)[i])
  {
    var p := CommandPlan(n, c, writable);
    if !IsCompleted(n.db, c.id) && 1 <= i <= |DoneOf(p, fault)| {
      EffectAt(Begin(c.id), p.effects, fault, Ending(c, Succeeds(p, fault)), i, Execution(n, c, writable, fault), p);
      PerformAppend(n, [Begin(c.id)], p.effects[..i - 1]);
      PerformOne(n, Begin(c.id));
      PlannedCallsAreNeeded(n, Perform(n, Begin(c.id)), c, writable, i - 1);
    }
  }

  lemma EffectAt(first: Effect, es: seq<Effect>, fault: Option<nat>, end: seq<Effect>, i: nat, full: seq<Effect>, p: Plan)
    requires es == p.effects && full == [first] + DoneOf(p, fault) + end && 1 <= i <= |DoneOf(p, fault)|
    ensures full[i] == es[i - 1] && full[..i] == [first] + es[..i - 1]
  {
  }

  lemma PlannedCallsAreNeeded(n: Node, begun: Node, c: Command, writable: bool, i: nat)
    requires UniqueEmails(n.db.users) && i < |CommandPlan(n, c, writable).effects| && begun.live == n.live
    ensures CallNeeded(PerformAll(begun, CommandPlan(n, c, writable).effects[..i]).live, CommandPlan(n, c, writable).effects[i])
  {
    var es := CommandPlan(n, c, writable).effects;
    if IsEnsure(c) {
      if i > 0 {
        var u := ResolveUser(n.db, c).value.(enabled := true, revision := c.revision);
        var put, calls := Perform(begun, PutUser(u)), EnsureLive(n.live, u.email, u.uuid);
        assert es == [PutUser(u)] + calls;
        assert es[..i] == [PutUser(u)] + calls[..i - 1];
        PerformAppend(begun, [PutUser(u)], calls[..i - 1]);
        PerformOne(begun, PutUser(u));
        EnsureCallsAreNeeded(put, u.email, u.uuid, i - 1);
      }
    } else if i == 0 {
      assert es[..0] == [];
    }
  }

  // ----- Cut anywhere, store and Xray -----

  predicate IsTerminating(c: Command) { c.kind.DisableUser? || c.kind.RemoveUser? }

  /** An ENSURE or ENABLE stores its user before Xray is asked for anything: cut anywhere, no account has changed that the store does not know. */
  lemma StoreComesFirst(n: Node, c: Command, u: DesiredUser, j: nat)
    requires UniqueEmails(n.db.users) && IsEnsure(c) && Puts(n.db, c, u) && j <= |CommandPlan(n, c, true).effects|
    ensures var m := PerformAll(n, CommandPlan(n, c, true).effects[..j]);
            m.live != n.live ==> Some(m.db.users) == Upsert(n.db.users, u)
  {
    EnsurePlanned(n, c, u);
    EnsurePartway(n, u, j);
  }

  /** A DISABLE or REMOVE takes the account out first: cut anywhere, a row switched off or dropped has no account left. */
  lemma XrayComesFirst(n: Node, c: Command, b: string, j: nat)
    requires UniqueEmails(n.db.users) && IsTerminating(c) && FindStored(n.db.users, c.payload) == Some(b) && b in n.db.users
    requires j <= |CommandPlan(n, c, true).effects|
    ensures var m := PerformAll(n, CommandPlan(n, c, true).effects[..j]);
            m.db.users != n.db.users ==> n.db.users[b].email !in m.live
  {
    var es := CommandPlan(n, c, true).effects;
    if j == 1 {
      assert es[..1] == [es[0]];
      PerformOne(n, es[0]);
    } else if j == 2 {
      assert es[..2] == [es[0], es[1]];
      PerformTwo(n, es[0], es[1]);
    }
  }

  // ----- ENSURE and ENABLE -----

  /** A command without effects of its own, whole. */
  lemma IdleOutcome(n: Node, c: Command, writable: bool)
    requires UniqueEmails(n.db.users) && !IsCompleted(n.db, c.id) && CommandPlan(n, c, writable).effects == []
    ensures Untouched(n, PerformAll(n, Execution(n, c, writable, None)))
    ensures ResultOf(n, c, writable, None).Completed? <==> CommandPlan(n, c, writable).ok
  {
    IdleExecutes(n, c, writable);
  }

  /** An ENSURE or ENABLE that comes too late is answered as completed and changes nothing. */
  lemma LateEnsure(n: Node, c: Command, stored: Option<string>)
    requires UniqueEmails(n.db.users) && IsEnsure(c) && !IsCompleted(n.db, c.id) && stored == FindStored(n.db.users, c.payload)
    requires || c.revision < n.db.revision
             || (stored.Some? && stored.value in n.db.users && c.revision < n.db.users[stored.value].revision)
             || (stored.Some? && stored.value in n.db.users && c.revision == n.db.users[stored.value].revision
                 && !n.db.users[stored.value].enabled)
    ensures ResultOf(n, c, true, None).Completed? && Untouched(n, PerformAll(n, Execution(n, c, true, None)))
  {
    IdleOutcome(n, c, true);
  }

  /** The user a payload describes that names no stored row; fields left out take their defaults. */
  function NewRow(p: Item, revision: nat): UserRow
    requires p.account.Some? && p.uuid.Some?
  {
    UserRow(p.account.value, p.uuid.value, if p.flow.Given? then p.flow.flow else NoFlow, true, revision,
            if p.quota.Some? then p.quota.value else 0,
            if p.allowance.Some? then p.allowance.value else 67_108_864, 0, 0, false, 0, 0)
  }

  /** An ENSURE or ENABLE in time, of a user not stored yet. */
  lemma EnsureOfNewUser(n: Node, c: Command)
    requires UniqueEmails(n.db.users) && IsEnsure(c) && !IsCompleted(n.db, c.id)
    requires FindStored(n.db.users, c.payload).None? && c.revision >= n.db.revision
    ensures var p, m := c.payload, PerformAll(n, Execution(n, c, true, None));
            && (ResultOf(n, c, true, None).Completed? <==>
                  p.bindingId.Some? && p.account.Some? && p.uuid.Some? && !p.flow.Unsupported?)
            && (ResultOf(n, c, true, None).Completed? ==>
                  && m.db.users == n.db.users[p.bindingId.value := NewRow(p, c.revision)]
                  && m.live == n.live[p.account.value := p.uuid])
            && (!ResultOf(n, c, true, None).Completed? ==> Untouched(n, m))
  {
    var p := c.payload;
    FindStoredIsFirstMatch(n.db.users, p);
    if p.bindingId.Some? && p.account.Some? && p.uuid.Some? && !p.flow.Unsupported? {
      assert !Matches(n.db.users, p, p.bindingId.value);
      forall b | b in n.db.users ensures n.db.users[b].email != p.account.value { assert !Matches(n.db.users, p, b); }
      var u := ResolveUser(n.db, c).value.(enabled := true, revision := c.revision);
      assert Puts(n.db, c, u);
      EnsureExecutes(n, c, u);
    } else {
      IdleOutcome(n, c, true);
    }
  }

  /** The stored row `b` with what the payload says differently. */
  function ChangedRow(row: UserRow, p: Item, revision: nat): UserRow {
    row.(email := if p.account.Some? then p.account.value else row.email,
         uuid := if p.uuid.Some? then p.uuid.value else row.uuid,
         flow := if p.flow.Given? then p.flow.flow else row.flow,
         enabled := true, revision := revision)
  }

  /** An ENSURE or ENABLE in time, of a stored user: at the row's own revision only Xray follows the payload. */
  lemma EnsureOfStoredUser(n: Node, c: Command, b: string)
    requires UniqueEmails(n.db.users) && IsEnsure(c) && !IsCompleted(n.db, c.id)
    requires FindStored(n.db.users, c.payload) == Some(b) && b in n.db.users && c.revision >= n.db.revision
    requires c.revision > n.db.users[b].revision || (c.revision == n.db.users[b].revision && n.db.users[b].enabled)
    ensures var p, row, m := c.payload, n.db.users[b], PerformAll(n, Execution(n, c, true, None));
            var after := ChangedRow(row, p, c.revision);
            && (ResultOf(n, c, true, None).Completed? <==>
                  !p.flow.Unsupported?
                  && (c.revision == row.revision || forall x :: x in n.db.users && x != b ==> n.db.users[x].email != after.email))
            && (ResultOf(n, c, true, None).Completed? ==>
                  && m.db.users == (if c.revision == row.revision then n.db.users else n.db.users[b := after])
                  && m.live == n.live[after.email := Some(after.uuid)])
            && (!ResultOf(n, c, true, None).Completed? ==> Untouched(n, m))
  {
    var p, row := c.payload, n.db.users[b];
    if p.flow.Unsupported? {
      IdleOutcome(n, c, true);
    } else {
      var u := ResolveUser(n.db, c).value.(enabled := true, revision := c.revision);
      StoredResolves(n, c, b, u);
      if Upsert(n.db.users, u).Some? {
        assert Puts(n.db, c, u);
        EnsureExecutes(n, c, u);
      } else {
        IdleOutcome(n, c, true);
      }
    }
  }

  lemma StoredResolves(n: Node, c: Command, b: string, u: DesiredUser)
    requires UniqueEmails(n.db.users) && FindStored(n.db.users, c.payload) == Some(b) && b in n.db.users
    requires !c.payload.flow.Unsupported? && u == ResolveUser(n.db, c).value.(enabled := true, revision := c.revision)
    requires c.revision >= n.db.users[b].revision
    ensures var after := ChangedRow(n.db.users[b], c.payload, c.revision);
            && u.bindingId == b && u.email == after.email && u.uuid == after.uuid && UpsertedRow(n.db.users, u) == after
            && (Ignored(n.db.users, u) <==> c.revision == n.db.users[b].revision)
  {
  }

  // ----- DISABLE and REMOVE -----

  /** A DISABLE or REMOVE older than the stored row is answered as completed and changes nothing, wherever it is cut. */
  lemma LateTerminate(n: Node, c: Command, b: string, fault: Option<nat>, survived: nat)
    requires UniqueEmails(n.db.users) && IsTerminating(c) && !IsCompleted(n.db, c.id)
    requires FindStored(n.db.users, c.payload) == Some(b) && b in n.db.users && c.revision < n.db.users[b].revision
    ensures Untouched(n, Step(n, Execute(c, true, fault, survived)))
    ensures ResultOf(n, c, true, None).Completed?
  {
    var es := Survivors(Execution(n, c, true, fault), survived);
    assert CommandPlan(n, c, true).effects == [];
    forall e <- es ensures IsBookkeeping(e) {}
    BookkeepingTouchesNothing(n, es);
  }

  /** A DISABLE or REMOVE in time fails only if it names neither a stored user nor a binding and an account. */
  lemma TerminateFailsIff(n: Node, c: Command)
    requires UniqueEmails(n.db.users) && IsTerminating(c) && !IsCompleted(n.db, c.id)
    ensures ResultOf(n, c, true, None) == Failed <==>
              FindStored(n.db.users, c.payload).None? && (c.payload.bindingId.None? || c.payload.account.None?)
    ensures ResultOf(n, c, true, None) == Failed ==> Untouched(n, PerformAll(n, Execution(n, c, true, None)))
  {
    FindStoredIsFirstMatch(n.db.users, c.payload);
    if ResultOf(n, c, true, None) == Failed { IdleOutcome(n, c, true); }
  }

  // ----- REFRESH_QUOTA -----

  /** The one command a read-only node obeys: new quota and revision, offline usage cleared, unless the row is newer. */
  lemma RefreshQuotaSets(n: Node, c: Command, writable: bool)
    requires UniqueEmails(n.db.users) && c.kind.RefreshQuota? && !IsCompleted(n.db, c.id)
    ensures var p, m := c.payload, PerformAll(n, Execution(n, c, writable, None));
            && m.live == n.live
            && (ResultOf(n, c, writable, None).Completed? <==> p.bindingId.Some? && p.quota.Some?)
            && (if p.bindingId.Some? && p.quota.Some? && p.bindingId.value in n.db.users
                   && n.db.users[p.bindingId.value].revision <= c.revision then
                  var row := n.db.users[p.bindingId.value];
                  m.db.users == n.db.users[p.bindingId.value := row.(quota := p.quota.value, revision := c.revision, offlineUsed := 0)]
                else m.db.users == n.db.users)
  {
    var p := c.payload;
    if p.bindingId.None? || p.quota.None? {
      IdleOutcome(n, c, writable);
    } else {
      ExecutionOf(n, c, writable);
      PerformOne(Perform(n, Begin(c.id)), PutQuota(p.bindingId.value, p.quota.value, c.revision));
    }
  }
}
