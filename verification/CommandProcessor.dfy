/** Command execution step by step, on the store object and Xray's user table. */
module CommandProcessor {
  import opened Common
  import opened AgentTables
  import opened AgentStore
  import opened Commands
  import opened Reconciliation

  datatype ReconcileResult = Done | XrayFailed | EmailConflict

  lemma {:induction false} ProvisionFailureStays(t: Tables, us: seq<DesiredUser>, i: nat)
    requires 0 < i <= |us| && !ProvisionAll(t, us[..i]).ok
    ensures ProvisionAll(t, us) == ProvisionAll(t, us[..i])
    decreases |us| - i
  {
    if i < |us| {
      assert us[..i + 1][..i] == us[..i];
      ProvisionFailureStays(t, us, i + 1);
    } else {
      assert us[..i] == us;
    }
  }

  /** The live user table behind gRPC: any call may throw, changing nothing. */
  class XrayTable {
    var live: Live

    constructor (live: Live)
      ensures this.live == live
    {
      this.live := live;
    }

    method RemoveUser(email: string) returns (ok: bool)
      modifies this
      ensures live == if ok then old(live) - {email} else old(live)
    {
      var throws: bool := *;
      if throws { return false; }
      live := live - {email};
      return true;
    }

    method AddUser(email: string, uuid: string) returns (ok: bool)
      modifies this
      ensures live == if ok then old(live)[email := Some(uuid)] else old(live)
    {
      var throws: bool := *;
      if throws { return false; }
      live := live[email := Some(uuid)];
      return true;
    }
  }

  class Processor {
    const store: Store
    const xray: XrayTable
    /** The effects so far, in order; they explain how the node got here from `origin`. */
    ghost var origin: Node
    ghost var trace: seq<Effect>

    constructor (store: Store, xray: XrayTable)
      requires store.Valid()
      ensures Valid() && this.store == store && this.xray == xray && trace == [] && origin == Now()
    {
      this.store, this.xray := store, xray;
      origin, trace := Node(store.Contents(), xray.live), [];
    }

    function Now(): Node
      reads store, xray
    {
      Node(store.Contents(), xray.live)
    }

    ghost predicate Valid()
      reads this, store, xray
    {
      store.Valid() && Now() == PerformAll(origin, trace)
    }

    /** One more effect happened: the state and the trace both say so. */
    ghost method Note(e: Effect)
      requires store.Valid() && Now() == Perform(PerformAll(origin, trace), e)
      modifies this`trace
      ensures Valid() && trace == old(trace) + [e]
    {
      PerformAppend(origin, trace, [e]);
      assert PerformAll(PerformAll(origin, trace), [e]) == Perform(PerformAll(origin, trace), e) by {
        assert [e][1..] == [];
      }
      trace := trace + [e];
    }

    /** Start explaining afresh, after a change that is not one of the effects. */
    ghost method Rebase()
      requires store.Valid()
      modifies this
      ensures Valid() && trace == [] && origin == Now()
    {
      origin, trace := Now(), [];
    }

    method RemoveUser(email: string) returns (ok: bool)
      requires Valid()
      modifies this`trace, xray
      ensures Valid() && store.Contents() == old(store.Contents())
      ensures xray.live == if ok then old(xray.live) - {email} else old(xray.live)
      ensures if ok then trace == old(trace) + RemoveIfLive(old(xray.live), email) else trace == old(trace)
    {
      var throws: bool := *;
      if throws { return false; }
      if email !in xray.live {
        assert xray.live - {email} == xray.live;
        return true;
      }
      ok := xray.RemoveUser(email);
      if ok { Note(RemoveLive(email)); }
    }

    method EnsureUser(email: string, uuid: string) returns (ok: bool)
      requires Valid()
      modifies this`trace, xray
      ensures Valid() && store.Contents() == old(store.Contents())
      ensures old(trace) <= trace <= old(trace) + EnsureLive(old(xray.live), email, uuid)
      ensures ok ==> trace == old(trace) + EnsureLive(old(xray.live), email, uuid)
      ensures ok ==> xray.live == old(xray.live)[email := Some(uuid)]
    {
      ghost var past, planned := trace, EnsureLive(xray.live, email, uuid);
      var throws: bool := *;
      if throws { return false; }
      if email in xray.live && xray.live[email] == Some(uuid) { return true; }
      if email in xray.live {
        ok := RemoveUser(email);
        if !ok { return; }
        assert trace == past + planned[..1];
      }
      ok := xray.AddUser(email, uuid);
      if ok {
        Note(AddLive(email, uuid));
        assert trace == past + planned;
      }
    }

    /** One turn of the provisioning loop. */
    method ProvisionUser(u: DesiredUser) returns (r: ReconcileResult)
      requires Valid()
      modifies this`trace, store, xray
      ensures Valid() && store.Contents() == old(store.Contents()).(users := store.users)
      ensures r.EmailConflict? ==> Upsert(old(store.users), u).None? && store.users == old(store.users) && xray.live == old(xray.live)
      ensures r.Done? ==> Upsert(old(store.users), u) == Some(store.users) && xray.live == Accounted(old(xray.live), u)
    {
      var ok := store.UpsertDesiredUser(u);
      if !ok { return EmailConflict; }
      Note(PutUser(u));
      if u.enabled { ok := EnsureUser(u.email, u.uuid); } else { ok := RemoveUser(u.email); }
      return if ok then Done else XrayFailed;
    }

    method RemoveUnwanted(unwanted: set<string>) returns (ok: bool)
      requires Valid()
      modifies this`trace, xray
      ensures Valid() && store.Contents() == old(store.Contents())
      ensures ok ==> xray.live == old(xray.live) - unwanted
    {
      var rest := unwanted;
      while rest != {}
        invariant Valid() && store.Contents() == old(store.Contents())
        invariant rest <= unwanted && xray.live == old(xray.live) - (unwanted - rest)
        decreases |rest|
      {
        var email :| email in rest;
        ok := RemoveUser(email);
        if !ok { return; }
        rest := rest - {email};
      }
      assert unwanted - {} == unwanted;
      ok := true;
    }

    /** reconcile(): provision every desired user, then remove the accounts nobody desires. */
    method Reconcile(us: seq<DesiredUser>) returns (r: ReconcileResult)
      requires Valid()
      modifies this`trace, store, xray
      ensures Valid() && store.Contents() == old(store.Contents()).(users := store.users)
      ensures r.Done? ==>
                Reconciled(Tables(old(store.users), old(xray.live)), us) == Outcome(Tables(store.users, xray.live), true)
      ensures r.EmailConflict? ==>
                Reconciled(Tables(old(store.users), old(xray.live)), us) == Outcome(Tables(store.users, xray.live), false)
    {
      ghost var before := Tables(store.users, xray.live);
      var actual := xray.live.Keys;
      for i := 0 to |us|
        invariant Valid() && store.Contents() == old(store.Contents()).(users := store.users)
        invariant ProvisionAll(before, us[..i]) == Outcome(Tables(store.users, xray.live), true)
      {
        assert us[..i + 1][..i] == us[..i];
        r := ProvisionUser(us[i]);
        if r.EmailConflict? { ProvisionFailureStays(before, us, i + 1); }
        if !r.Done? { return; }
      }
      assert us[..|us|] == us;
      var unwanted := set email | email in actual && forall u <- us :: u.email != email;
      assert unwanted == before.live.Keys - Emails(us);
      var ok := RemoveUnwanted(unwanted);
      r := if ok then Done else XrayFailed;
    }

    method Ensure(c: Command) returns (ok: bool, ghost fault: Option<nat>)
      requires Valid()
      modifies this`trace, store, xray
      ensures Valid()
      ensures var p := EnsurePlan(old(Now()), c);
              trace == old(trace) + DoneOf(p, fault) && ok == Succeeds(p, fault)
    {
      ghost var p, past := EnsurePlan(Now(), c), trace;
      fault := None;
      var db := store.Contents();
      if Superseded(db, c) {
        assert trace == past + p.effects;
        return true, None;
      }
      var resolved := ResolveUser(db, c);
      if resolved.None? {
        assert trace == past + p.effects;
        return false, None;
      }
      var u := resolved.value.(enabled := true, revision := c.revision);
      var stored := store.UpsertDesiredUser(u);
      if !stored {
        assert trace == past + p.effects;
        return false, None;
      }
      Note(PutUser(u));
      ghost var calls := EnsureLive(xray.live, u.email, u.uuid);
      ok := EnsureUser(u.email, u.uuid);
      fault := if ok then None else Some(|trace| - |past|);
      PrefixDone(past, PutUser(u), calls, trace, p, fault);
    }

    method Terminate(c: Command) returns (ok: bool, ghost fault: Option<nat>)
      requires Valid() && (c.kind.DisableUser? || c.kind.RemoveUser?)
      modifies this`trace, store, xray
      ensures Valid()
      ensures var p := TerminalPlan(old(Now()), c);
              trace == old(trace) + DoneOf(p, fault) && ok == Succeeds(p, fault)
    {
      ghost var p, past := TerminalPlan(Now(), c), trace;
      fault := None;
      var stored := FindStored(store.users, c.payload);
      var found := stored.Some? && stored.value in store.users;
      if found && c.revision < store.users[stored.value].revision {
        assert trace == past + p.effects;
        return true, None;
      }
      if !found && (c.payload.bindingId.None? || c.payload.account.None?) {
        assert trace == past + p.effects;
        return false, None;
      }
      var email := if found then store.users[stored.value].email else c.payload.account.value;
      ok := RemoveUser(email);
      if !ok {
        assert trace == past + p.effects[..0];
        return false, Some(0);
      }
      if found { EndRow(c, stored.value); }
      assert trace == past + p.effects;
    }

    /** What DISABLE and REMOVE do to the stored row. */
    method EndRow(c: Command, b: string)
      requires Valid() && (c.kind.DisableUser? || c.kind.RemoveUser?)
      modifies this`trace, store
      ensures Valid()
      ensures trace == old(trace) + [if c.kind.DisableUser? then SwitchOff(b, c.revision) else DropUser(b)]
    {
      if c.kind.DisableUser? {
        store.SetUserEnabled(b, false, c.revision);
        Note(SwitchOff(b, c.revision));
      } else {
        store.DeleteUser(b);
        Note(DropUser(b));
      }
    }

    method Apply(c: Command, writable: bool) returns (ok: bool, ghost fault: Option<nat>)
      requires Valid()
      modifies this`trace, store, xray
      ensures Valid()
      ensures var p := CommandPlan(old(Now()), c, writable);
              trace == old(trace) + DoneOf(p, fault) && ok == Succeeds(p, fault)
    {
      ghost var p, past := CommandPlan(Now(), c, writable), trace;
      fault := None;
      if !writable && !c.kind.RefreshQuota? {
        assert trace == past + p.effects;
        return false, None;
      }
      match c.kind {
        case EnsureUser => ok, fault := Ensure(c);
        case EnableUser => ok, fault := Ensure(c);
        case DisableUser => ok, fault := Terminate(c);
        case RemoveUser => ok, fault := Terminate(c);
        case RefreshQuota =>
          if c.payload.bindingId.None? || c.payload.quota.None? {
            assert trace == past + p.effects;
            return false, None;
          }
          store.UpdateQuota(c.payload.bindingId.value, c.payload.quota.value, c.revision);
          Note(PutQuota(c.payload.bindingId.value, c.payload.quota.value, c.revision));
          ok := true;
      }
    }

    /** Advance the revision after a success, and record the result either way. */
    method Conclude(c: Command, ok: bool) returns (result: CommandResult)
      requires Valid()
      modifies this`trace, store
      ensures Valid() && trace == old(trace) + Ending(c, ok)
      ensures result == if ok then Completed(c.revision) else Failed
    {
      ghost var past := trace;
      if ok {
        store.AdvanceConfigRevision(c.revision);
        Note(Advance(c.revision));
        result := Completed(c.revision);
      } else {
        result := Failed;
      }
      store.CompleteCommand(c.id, result);
      Note(Complete(c.id, result));
      assert trace == past + Ending(c, ok);
    }

    /** The body of execute() between beginCommand and the answer. */
    method ApplyAndConclude(c: Command, writable: bool) returns (result: CommandResult, ghost fault: Option<nat>)
      requires Valid()
      modifies this`trace, store, xray
      ensures Valid()
      ensures var p := CommandPlan(old(Now()), c, writable);
              && trace == old(trace) + (DoneOf(p, fault) + Ending(c, Succeeds(p, fault)))
              && result == if Succeeds(p, fault) then Completed(c.revision) else Failed
    {
      ghost var past, p := trace, CommandPlan(Now(), c, writable);
      var ok: bool;
      ok, fault := Apply(c, writable);
      result := Conclude(c, ok);
      assert trace == past + (DoneOf(p, fault) + Ending(c, ok));
    }

    /** execute(): the effects, in order, are those of Execution for the Xray call that threw, if one did. */
    method Execute(c: Command, writable: bool) returns (result: CommandResult, ghost fault: Option<nat>)
      requires Valid()
      modifies this`trace, store, xray
      ensures Valid()
      ensures trace == old(trace) + Execution(old(Now()), c, writable, fault)
      ensures result == ResultOf(old(Now()), c, writable, fault)
    {
      ghost var past, start := trace, Now();
      var done := store.BeginCommand(c.id);
      if done.Some? {
        assert past + [] == past;
        return done.value, None;
      }
      Note(Begin(c.id));
      PlanIgnoresCommands(start, Now(), c, writable);
      result, fault := ApplyAndConclude(c, writable);
      ghost var p := CommandPlan(start, c, writable);
      TraceOf(past, Begin(c.id), DoneOf(p, fault), Ending(c, Succeeds(p, fault)));
    }
  }

  /** A trace that got through the first effect of a plan and some of its calls to Xray. */
  lemma PrefixDone(past: seq<Effect>, first: Effect, calls: seq<Effect>, trace: seq<Effect>, p: Plan, fault: Option<nat>)
    requires p == Plan([first] + calls, true) && past + [first] <= trace <= past + [first] + calls
    requires fault == if trace == past + [first] + calls && fault.None? then None else Some(|trace| - |past|)
    ensures trace == past + DoneOf(p, fault) && Succeeds(p, fault) == fault.None?
  {
    ConcatAssociates(past, [first], calls);
  }

  lemma TraceOf(past: seq<Effect>, first: Effect, middle: seq<Effect>, end: seq<Effect>)
    ensures past + [first] + (middle + end) == past + ([first] + middle + end)
  {
  }

  /** What a command does does not depend on the command table. */
  lemma PlanIgnoresCommands(n: Node, m: Node, c: Command, writable: bool)
    requires UniqueEmails(n.db.users) && m == n.(db := n.db.(commands := m.db.commands))
    ensures CommandPlan(m, c, writable) == CommandPlan(n, c, writable)
  {
  }
}
