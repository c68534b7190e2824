/** Commands delivered at least once, in any order, with crashes and failures: what stays true. */
module CommandRuns {
  import opened Common
  import opened AgentTables
  import opened AgentStore
  import opened Commands

  // ----- Runs of a node -----

  /**
   * A user command, cut off after `survived` effects by a crash; one effect of a reconcile or a
   * config refresh; or any rewriting of users and accounts: metering, recovery, an Xray restart.
   */
  datatype Event =
    | Execute(command: Command, writable: bool, fault: Option<nat>, survived: nat)
    | Other(effect: Effect)
    | Provision(users: Users, live: Live)

  /** A command is begun only while not completed, and completed only while begun. */
  predicate Allowed(n: Node, e: Event) {
    match e
    case Execute(_, _, _, _) => true
    case Other(Begin(id)) => !IsCompleted(n.db, id)
    case Other(Complete(id, _)) => id in n.db.commands && n.db.commands[id].None?
    case Other(_) => true
    case Provision(users, _) => UniqueEmails(users)
  }

  function Survivors(es: seq<Effect>, survived: nat): seq<Effect> {
    if survived < |es| then es[..survived] else es
  }

  function Step(n: Node, e: Event): (m: Node)
    requires UniqueEmails(n.db.users) && Allowed(n, e)
    ensures UniqueEmails(m.db.users)
  {
    match e
    case Execute(c, writable, fault, survived) =>
      var es := Survivors(Execution(n, c, writable, fault), survived);
      PerformAllKeepsUnique(n, es);
      PerformAll(n, es)
    case Other(x) => PerformKeepsUnique(n, x); Perform(n, x)
    case Provision(users, live) => Node(n.db.(users := users), live)
  }

  predicate Legal(n: Node, run: seq<Event>)
    requires UniqueEmails(n.db.users)
    decreases |run|
  {
    |run| > 0 ==> Allowed(n, run[0]) && Legal(Step(n, run[0]), run[1..])
  }

  function After(n: Node, run: seq<Event>): (m: Node)
    requires UniqueEmails(n.db.users) && Legal(n, run)
    ensures UniqueEmails(m.db.users)
    decreases |run|
  {
    if |run| == 0 then n else After(Step(n, run[0]), run[1..])
  }

  // ----- The config revision never decreases -----

  lemma {:induction false} PerformAllRaisesRevision(n: Node, es: seq<Effect>)
    ensures PerformAll(n, es).db.revision >= n.db.revision
    decreases |es|
  {
    if |es| > 0 { PerformAllRaisesRevision(Perform(n, es[0]), es[1..]); }
  }

  lemma {:induction false} RevisionNeverFalls(n: Node, run: seq<Event>)
    requires UniqueEmails(n.db.users) && Legal(n, run)
    ensures After(n, run).db.revision >= n.db.revision
    decreases |run|
  {
    if |run| > 0 {
      var e := run[0];
      if e.Execute? {
        PerformAllRaisesRevision(n, Survivors(Execution(n, e.command, e.writable, e.fault), e.survived));
      }
      RevisionNeverFalls(Step(n, e), run[1..]);
    }
  }

  // ----- No resurrection -----

  /** A completed execution leaves the node at its revision or above. */
  lemma CompletionRaisesRevision(n: Node, c: Command, writable: bool, fault: Option<nat>)
    requires UniqueEmails(n.db.users) && !IsCompleted(n.db, c.id)
    requires ResultOf(n, c, writable, fault).Completed?
    ensures PerformAll(n, Execution(n, c, writable, fault)).db.revision >= c.revision
  {
    var body := [Begin(c.id)] + DoneOf(CommandPlan(n, c, writable), fault);
    PerformAppend(n, body, Ending(c, true));
    EndingRaisesRevision(PerformAll(n, body), c);
  }

  lemma EndingRaisesRevision(m: Node, c: Command)
    ensures PerformAll(m, Ending(c, true)).db.revision >= c.revision
  {
    PerformTwo(m, Advance(c.revision), Complete(c.id, Completed(c.revision)));
  }

  /** Users and live accounts are what they were. */
  predicate Untouched(n: Node, m: Node) { m.db.users == n.db.users && m.live == n.live }

  /** An ENSURE or ENABLE that is superseded has no effect on users or accounts, wherever it is cut off. */
  lemma SupersededDoesNothing(n: Node, c: Command, writable: bool, fault: Option<nat>, survived: nat)
    requires UniqueEmails(n.db.users) && (c.kind.EnsureUser? || c.kind.EnableUser?) && Superseded(n.db, c)
    ensures Untouched(n, Step(n, Execute(c, writable, fault, survived)))
  {
    var es := Survivors(Execution(n, c, writable, fault), survived);
    assert CommandPlan(n, c, writable).effects == [];
    forall e <- es ensures e.Begin? || e.Advance? || e.Complete? {}
    BookkeepingTouchesNothing(n, es);
  }

  lemma {:induction false} BookkeepingTouchesNothing(n: Node, es: seq<Effect>)
    requires forall e <- es :: e.Begin? || e.Advance? || e.Complete?
    ensures Untouched(n, PerformAll(n, es))
    decreases |es|
  {
    if |es| > 0 {
      assert es[0] in es;
      forall e <- es[1..] ensures e in es {}
      BookkeepingTouchesNothing(Perform(n, es[0]), es[1..]);
    }
  }

  /**
   * No resurrection: once a DISABLE or REMOVE at revision r has completed, then after any further
   * run, no ENSURE or ENABLE below r changes a user or an account.
   */
  lemma NoResurrection(n: Node, terminal: Command, writable: bool, fault: Option<nat>, run: seq<Event>,
                       late: Command, writable2: bool, fault2: Option<nat>, survived: nat)
    requires UniqueEmails(n.db.users) && !IsCompleted(n.db, terminal.id)
    requires terminal.kind.DisableUser? || terminal.kind.RemoveUser?
    requires ResultOf(n, terminal, writable, fault).Completed?
    requires var m := PerformAll(n, Execution(n, terminal, writable, fault));
             UniqueEmails(m.db.users) && Legal(m, run)
    requires (late.kind.EnsureUser? || late.kind.EnableUser?) && late.revision < terminal.revision
    ensures var v := After(PerformAll(n, Execution(n, terminal, writable, fault)), run);
            Untouched(v, Step(v, Execute(late, writable2, fault2, survived)))
  {
    var m := PerformAll(n, Execution(n, terminal, writable, fault));
    CompletionRaisesRevision(n, terminal, writable, fault);
    RevisionNeverFalls(m, run);
    SupersededDoesNothing(After(m, run), late, writable2, fault2, survived);
  }

  /** The same at revision r itself, for a stored row still disabled at r. */
  lemma NoResurrectionAtSameRevision(n: Node, late: Command, b: string, writable: bool, fault: Option<nat>, survived: nat)
    requires UniqueEmails(n.db.users) && (late.kind.EnsureUser? || late.kind.EnableUser?)
    requires FindStored(n.db.users, late.payload) == Some(b) && b in n.db.users
    requires n.db.users[b].revision == late.revision && !n.db.users[b].enabled
    ensures Untouched(n, Step(n, Execute(late, writable, fault, survived)))
  {
    SupersededDoesNothing(n, late, writable, fault, survived);
  }

  // ----- A completed command -----

  lemma {:induction false} OthersKeepCompleted(n: Node, es: seq<Effect>, id: string)
    requires IsCompleted(n.db, id)
    requires forall e <- es :: (e.Begin? ==> e.id != id) && (e.Complete? ==> e.id != id)
    ensures IsCompleted(PerformAll(n, es).db, id) && PerformAll(n, es).db.commands[id] == n.db.commands[id]
    decreases |es|
  {
    if |es| > 0 {
      assert es[0] in es;
      forall e <- es[1..] ensures e in es {}
      OthersKeepCompleted(Perform(n, es[0]), es[1..], id);
    }
  }

  lemma PlanEffects(n: Node, c: Command, writable: bool)
    requires UniqueEmails(n.db.users)
    ensures forall e <- CommandPlan(n, c, writable).effects :: !e.Begin? && !e.Complete? && !e.Advance?
  {
  }

  lemma {:induction false} CompletedForever(n: Node, run: seq<Event>, id: string)
    requires UniqueEmails(n.db.users) && Legal(n, run) && IsCompleted(n.db, id)
    ensures IsCompleted(After(n, run).db, id) && After(n, run).db.commands[id] == n.db.commands[id]
    decreases |run|
  {
    if |run| > 0 {
      var e := run[0];
      if e.Execute? {
        var es := Survivors(Execution(n, e.command, e.writable, e.fault), e.survived);
        PlanEffects(n, e.command, e.writable);
        OthersKeepCompleted(n, es, id);
      }
      CompletedForever(Step(n, e), run[1..], id);
    }
  }

  /** Once completed, a command id is answered with that result forever, with no effect at all. */
  lemma CompletedIsAnswered(n: Node, run: seq<Event>, c: Command, writable: bool, fault: Option<nat>)
    requires UniqueEmails(n.db.users) && Legal(n, run) && IsCompleted(n.db, c.id)
    ensures Execution(After(n, run), c, writable, fault) == []
    ensures ResultOf(After(n, run), c, writable, fault) == n.db.commands[c.id].value
  {
    CompletedForever(n, run, c.id);
  }

  // ----- Re-running a command that crashed -----

  function Completion(db: Db, c: Command): Db {
    db.(revision := Larger(db.revision, c.revision), commands := db.commands[c.id := Some(Completed(c.revision))])
  }

  /** The bookkeeping around the effects of a successful apply(). */
  lemma ExecutionOf(n: Node, c: Command, writable: bool)
    requires UniqueEmails(n.db.users) && !IsCompleted(n.db, c.id) && CommandPlan(n, c, writable).ok
    ensures var es := CommandPlan(n, c, writable).effects;
            var m := PerformAll(Perform(n, Begin(c.id)), es);
            PerformAll(n, Execution(n, c, writable, None)) == m.(db := Completion(m.db, c))
  {
    var es := CommandPlan(n, c, writable).effects;
    var begun := Perform(n, Begin(c.id));
    PlanEffects(n, c, writable);
    TableEffectsKeepCommands(begun, es);
    ExecutionSplits(n, c, es);
    ConcludesWith(PerformAll(begun, es), c);
  }

  lemma ExecutionSplits(n: Node, c: Command, es: seq<Effect>)
    ensures PerformAll(n, [Begin(c.id)] + es + Ending(c, true))
         == PerformAll(PerformAll(Perform(n, Begin(c.id)), es), Ending(c, true))
  {
    PerformAppend(n, [Begin(c.id)] + es, Ending(c, true));
    PerformAppend(n, [Begin(c.id)], es);
    PerformOne(n, Begin(c.id));
  }

  lemma ConcludesWith(m: Node, c: Command)
    requires c.id in m.db.commands
    ensures PerformAll(m, Ending(c, true)) == m.(db := Completion(m.db, c))
  {
    PerformTwo(m, Advance(c.revision), Complete(c.id, Completed(c.revision)));
  }

  lemma {:induction false} TableEffectsKeepCommands(n: Node, es: seq<Effect>)
    requires forall e <- es :: !e.Begin? && !e.Complete?
    ensures PerformAll(n, es).db.commands == n.db.commands
    decreases |es|
  {
    if |es| > 0 {
      forall e <- es[1..] ensures e in es {}
      TableEffectsKeepCommands(Perform(n, es[0]), es[1..]);
    }
  }

  /** ensureUser lands on the same account whatever was live under that email. */
  lemma EnsureLiveLands(n: Node, email: string, uuid: string)
    ensures PerformAll(n, EnsureLive(n.live, email, uuid)) == n.(live := n.live[email := Some(uuid)])
  {
    var es := EnsureLive(n.live, email, uuid);
    if email in n.live && n.live[email] == Some(uuid) {
      assert n.live[email := Some(uuid)] == n.live;
    } else if email in n.live {
      assert es == [RemoveLive(email), AddLive(email, uuid)];
      PerformTwo(n, RemoveLive(email), AddLive(email, uuid));
      assert (n.live - {email})[email := Some(uuid)] == n.live[email := Some(uuid)];
    } else {
      assert es == [AddLive(email, uuid)];
      PerformOne(n, AddLive(email, uuid));
    }
  }

  lemma PutThenEnsure(n: Node, u: DesiredUser)
    ensures PerformAll(n, [PutUser(u)] + EnsureLive(n.live, u.email, u.uuid))
         == Perform(n, PutUser(u)).(live := n.live[u.email := Some(u.uuid)])
  {
    var es := [PutUser(u)] + EnsureLive(n.live, u.email, u.uuid);
    assert es[1..] == EnsureLive(n.live, u.email, u.uuid);
    EnsureLiveLands(Perform(n, PutUser(u)), u.email, u.uuid);
  }

  predicate IsEnsure(c: Command) { c.kind.EnsureUser? || c.kind.EnableUser? }

  /** The user an ENSURE or ENABLE that is not superseded puts in place. */
  predicate Puts(db: Db, c: Command, u: DesiredUser)
    requires UniqueEmails(db.users)
  {
    && !Superseded(db, c)
    && ResolveUser(db, c).Some?
    && u == ResolveUser(db, c).value.(enabled := true, revision := c.revision)
    && Upsert(db.users, u).Some?
  }

  /** Resolving again after the upsert finds the row it wrote, and asks for the same account. */
  lemma PutsAgain(db: Db, c: Command, u: DesiredUser, after: Db)
    requires UniqueEmails(db.users) && Puts(db, c, u)
    requires after.users == Upsert(db.users, u).value && db.revision <= after.revision <= c.revision
    ensures ResolveUser(after, c).Some?
    ensures var v := ResolveUser(after, c).value.(enabled := true, revision := c.revision);
            Puts(after, c, v) && v.email == u.email && v.uuid == u.uuid && Upsert(after.users, v) == Some(after.users)
  {
    var users, next := db.users, after.users;
    assert u.bindingId in next && next[u.bindingId].revision == c.revision && next[u.bindingId].enabled;
    assert FindStored(next, c.payload) == Some(u.bindingId) by { FindsWhatItPut(db, c, u); }
  }

  lemma FindsWhatItPut(db: Db, c: Command, u: DesiredUser)
    requires UniqueEmails(db.users) && Puts(db, c, u)
    ensures FindStored(Upsert(db.users, u).value, c.payload) == Some(u.bindingId)
  {
    var users, next := db.users, Upsert(db.users, u).value;
    var p := c.payload;
    var stored := FindStored(users, p);
    FindStoredIsFirstMatch(users, p);
    if stored.None? {
      assert u.bindingId !in users;
      forall b | Matches(next, p, b) ensures b == u.bindingId {}
      FindStoredIsFirstMatch(next, p);
      assert Matches(next, p, u.bindingId);
    } else if Ignored(users, u) {
      assert next == users;
    } else {
      assert u.bindingId == stored.value;
      forall b | b in next && b != u.bindingId ensures next[b] == users[b] {}
      FindStoredIsFirstMatch(next, p);
      if p.account.Some? { assert next[u.bindingId].email == p.account.value; }
      else { assert next[u.bindingId].email == users[u.bindingId].email; }
      assert Matches(next, p, u.bindingId);
      forall b | Matches(next, p, b) ensures b == u.bindingId || next[b].email == users[b].email {}
    }
  }

  /** Where an uninterrupted ENSURE or ENABLE ends. */
  function EnsureEnd(n: Node, c: Command, u: DesiredUser): Node {
    Node(Completion(n.db.(users := Upsert(n.db.users, u).GetOr(n.db.users)), c), n.live[u.email := Some(u.uuid)])
  }

  function EnsureEffects(n: Node, u: DesiredUser): seq<Effect> { [PutUser(u)] + EnsureLive(n.live, u.email, u.uuid) }

  lemma EnsurePlanned(n: Node, c: Command, u: DesiredUser)
    requires UniqueEmails(n.db.users) && IsEnsure(c) && Puts(n.db, c, u)
    ensures CommandPlan(n, c, true) == Plan(EnsureEffects(n, u), true)
  {
  }

  lemma EnsureExecutes(n: Node, c: Command, u: DesiredUser)
    requires UniqueEmails(n.db.users) && IsEnsure(c) && Puts(n.db, c, u) && !IsCompleted(n.db, c.id)
    ensures CommandPlan(n, c, true) == Plan(EnsureEffects(n, u), true)
    ensures PerformAll(n, Execution(n, c, true, None)) == EnsureEnd(n, c, u)
  {
    EnsurePlanned(n, c, u);
    ExecutionOf(n, c, true);
    PutThenEnsure(Perform(n, Begin(c.id)), u);
    Overwritten(n.db.commands, c.id, None, Some(Completed(c.revision)));
  }

  /** The node after a crash that lost everything from effect `k` on. */
  lemma CrashPoint(n: Node, c: Command, es: seq<Effect>, k: nat)
    requires 1 <= k <= |es| + 2
    ensures PerformAll(n, ([Begin(c.id)] + es + Ending(c, true))[..k])
         == if k <= |es| + 1 then PerformAll(Perform(n, Begin(c.id)), es[..k - 1])
            else Perform(PerformAll(Perform(n, Begin(c.id)), es), Advance(c.revision))
  {
    var full := [Begin(c.id)] + es + Ending(c, true);
    PerformOne(n, Begin(c.id));
    if k <= |es| + 1 {
      assert full[..k] == [Begin(c.id)] + es[..k - 1];
      PerformAppend(n, [Begin(c.id)], es[..k - 1]);
    } else {
      assert full[..k] == [Begin(c.id)] + es + [Advance(c.revision)];
      PerformAppend(n, [Begin(c.id)] + es, [Advance(c.revision)]);
      PerformAppend(n, [Begin(c.id)], es);
      PerformOne(PerformAll(PerformAll(n, [Begin(c.id)]), es), Advance(c.revision));
    }
  }

  /** Partway through, the row is as before or already written, and the account not further than planned. */
  lemma EnsurePartway(n: Node, u: DesiredUser, j: nat)
    requires j <= |EnsureEffects(n, u)|
    ensures var x := PerformAll(n, EnsureEffects(n, u)[..j]);
            && x.db == (if j == 0 then n.db else Perform(n, PutUser(u)).db)
            && x.live[u.email := Some(u.uuid)] == n.live[u.email := Some(u.uuid)]
  {
    var es, put := EnsureEffects(n, u), Perform(n, PutUser(u));
    if j == 1 {
      assert es[..1] == [PutUser(u)];
      PerformOne(n, PutUser(u));
    } else if j == 2 {
      assert es[..2] == [PutUser(u), es[1]];
      PerformTwo(n, PutUser(u), es[1]);
    } else if j == 3 {
      assert es[..3] == [PutUser(u)] + [es[1], es[2]];
      PerformAppend(n, [PutUser(u)], [es[1], es[2]]);
      PerformOne(n, PutUser(u));
      PerformTwo(put, es[1], es[2]);
    }
  }

  /** A node a crashed ENSURE may have left. */
  predicate EnsureLeft(n: Node, c: Command, u: DesiredUser, x: Node)
    requires UniqueEmails(n.db.users)
  {
    && Upsert(n.db.users, u).Some?
    && (x.db.users == n.db.users || x.db.users == Upsert(n.db.users, u).value)
    && n.db.revision <= x.db.revision <= Larger(n.db.revision, c.revision)
    && x.db == n.db.(users := x.db.users, revision := x.db.revision, commands := n.db.commands[c.id := None])
    && x.live[u.email := Some(u.uuid)] == n.live[u.email := Some(u.uuid)]
  }

  lemma EnsureEndsAgree(n: Node, c: Command, u: DesiredUser, x: Node, v: DesiredUser)
    requires UniqueEmails(n.db.users) && EnsureLeft(n, c, u, x)
    requires v.email == u.email && v.uuid == u.uuid && Upsert(x.db.users, v) == Upsert(n.db.users, u)
    ensures EnsureEnd(x, c, v) == EnsureEnd(n, c, u)
  {
    Overwritten(n.db.commands, c.id, None, Some(Completed(c.revision)));
  }

  lemma EnsureRerun(n: Node, c: Command, u: DesiredUser, x: Node)
    requires UniqueEmails(n.db.users) && IsEnsure(c) && Puts(n.db, c, u) && EnsureLeft(n, c, u, x)
    ensures UniqueEmails(x.db.users) && PerformAll(x, Execution(x, c, true, None)) == EnsureEnd(n, c, u)
  {
    assert !IsCompleted(x.db, c.id);
    if x.db.users == n.db.users {
      assert Puts(x.db, c, u);
      EnsureExecutes(x, c, u);
      EnsureEndsAgree(n, c, u, x, u);
    } else {
      PutsAgain(n.db, c, u, x.db);
      var v := ResolveUser(x.db, c).value.(enabled := true, revision := c.revision);
      EnsureExecutes(x, c, v);
      EnsureEndsAgree(n, c, u, x, v);
    }
  }

  lemma EnsureCrashes(n: Node, c: Command, u: DesiredUser, k: nat)
    requires UniqueEmails(n.db.users) && IsEnsure(c) && Puts(n.db, c, u) && !IsCompleted(n.db, c.id)
    requires 1 <= k < |Execution(n, c, true, None)|
    ensures var x := PerformAll(n, Execution(n, c, true, None)[..k]);
            UniqueEmails(x.db.users) && PerformAll(x, Execution(x, c, true, None)) == EnsureEnd(n, c, u)
  {
    EnsureExecutes(n, c, u);
    var es := EnsureEffects(n, u);
    var begun := Perform(n, Begin(c.id));
    CrashPoint(n, c, es, k);
    var j := if k <= |es| + 1 then k - 1 else |es|;
    var y := PerformAll(begun, es[..j]);
    EnsurePartway(begun, u, j);
    PartwayIsLeft(n, c, u, y);
    assert es[..|es|] == es;
    if k <= |es| + 1 {
      EnsureRerun(n, c, u, y);
    } else {
      AdvancedIsLeft(n, c, u, y);
      EnsureRerun(n, c, u, Perform(y, Advance(c.revision)));
    }
  }

  lemma PartwayIsLeft(n: Node, c: Command, u: DesiredUser, y: Node)
    requires UniqueEmails(n.db.users) && Upsert(n.db.users, u).Some?
    requires var begun := Perform(n, Begin(c.id));
             && (y.db == begun.db || y.db == Perform(begun, PutUser(u)).db)
             && y.live[u.email := Some(u.uuid)] == begun.live[u.email := Some(u.uuid)]
    ensures EnsureLeft(n, c, u, y)
  {
  }

  lemma AdvancedIsLeft(n: Node, c: Command, u: DesiredUser, y: Node)
    requires UniqueEmails(n.db.users) && EnsureLeft(n, c, u, y)
    ensures EnsureLeft(n, c, u, Perform(y, Advance(c.revision)))
  {
  }

  // ----- The same for DISABLE -----

  function DisableEffects(n: Node, stored: Option<string>, email: string, revision: nat): seq<Effect> {
    RemoveIfLive(n.live, email) + if stored.Some? then [SwitchOff(stored.value, revision)] else []
  }

  function DisableEnd(n: Node, c: Command, stored: Option<string>, email: string): Node {
    Node(Completion(if stored.Some? then n.db.(users := WithEnabled(n.db.users, stored.value, false, c.revision)) else n.db, c),
         n.live - {email})
  }

  /** A DISABLE that is not outdated, and the account it takes away. */
  predicate Disables(db: Db, c: Command, stored: Option<string>, email: string)
    requires UniqueEmails(db.users)
  {
    && c.kind.DisableUser?
    && stored == FindStored(db.users, c.payload)
    && (if stored.Some? then
          stored.value in db.users && db.users[stored.value].revision <= c.revision && email == db.users[stored.value].email
        else c.payload.bindingId.Some? && c.payload.account == Some(email))
  }

  lemma DisablePartway(n: Node, stored: Option<string>, email: string, revision: nat, j: nat)
    requires j <= |DisableEffects(n, stored, email, revision)|
    ensures var x := PerformAll(n, DisableEffects(n, stored, email, revision)[..j]);
            && x.live - {email} == n.live - {email}
            && (j == |DisableEffects(n, stored, email, revision)| ==> x.live == n.live - {email})
            && x.db == (if stored.Some? && j == |DisableEffects(n, stored, email, revision)|
                        then n.db.(users := WithEnabled(n.db.users, stored.value, false, revision)) else n.db)
  {
    assert email !in n.live ==> n.live - {email} == n.live;
    if j == 1 {
      DisableFirst(n, stored, email, revision);
    } else if j == 2 {
      DisableBoth(n, stored, email, revision);
    }
  }

  lemma DisableFirst(n: Node, stored: Option<string>, email: string, revision: nat)
    requires |DisableEffects(n, stored, email, revision)| >= 1
    ensures var x := PerformAll(n, DisableEffects(n, stored, email, revision)[..1]);
            if email in n.live then x == Node(n.db, n.live - {email})
            else stored.Some? && x == Node(n.db.(users := WithEnabled(n.db.users, stored.value, false, revision)), n.live)
  {
    var es := DisableEffects(n, stored, email, revision);
    assert es[..1] == [es[0]];
    PerformOne(n, es[0]);
  }

  lemma DisableBoth(n: Node, stored: Option<string>, email: string, revision: nat)
    requires |DisableEffects(n, stored, email, revision)| == 2
    ensures var x := PerformAll(n, DisableEffects(n, stored, email, revision)[..2]);
            stored.Some? && x == Node(n.db.(users := WithEnabled(n.db.users, stored.value, false, revision)), n.live - {email})
  {
    var es := DisableEffects(n, stored, email, revision);
    assert es[..2] == [es[0], es[1]];
    PerformTwo(n, es[0], es[1]);
  }

  lemma DisablePlan(n: Node, c: Command, stored: Option<string>, email: string)
    requires UniqueEmails(n.db.users) && Disables(n.db, c, stored, email)
    ensures CommandPlan(n, c, true) == Plan(DisableEffects(n, stored, email, c.revision), true)
  {
    var es := RemoveIfLive(n.live, email);
    assert es + [] == es;
  }

  lemma DisableExecutes(n: Node, c: Command, stored: Option<string>, email: string)
    requires UniqueEmails(n.db.users) && Disables(n.db, c, stored, email) && !IsCompleted(n.db, c.id)
    ensures PerformAll(n, Execution(n, c, true, None)) == DisableEnd(n, c, stored, email)
  {
    var es := DisableEffects(n, stored, email, c.revision);
    DisablePlan(n, c, stored, email);
    var begun := Perform(n, Begin(c.id));
    var m := PerformAll(begun, es);
    assert es == DisableEffects(begun, stored, email, c.revision) && es[..|es|] == es;
    DisablePartway(begun, stored, email, c.revision, |es|);
    assert PerformAll(n, Execution(n, c, true, None)) == m.(db := Completion(m.db, c)) by { ExecutionOf(n, c, true); }
    DisableEnds(n, c, stored, email, m);
  }

  lemma DisableEnds(n: Node, c: Command, stored: Option<string>, email: string, m: Node)
    requires m.live == n.live - {email}
    requires var begun := Perform(n, Begin(c.id)).db;
             m.db == if stored.Some? then begun.(users := WithEnabled(begun.users, stored.value, false, c.revision)) else begun
    ensures m.(db := Completion(m.db, c)) == DisableEnd(n, c, stored, email)
  {
    Overwritten(n.db.commands, c.id, None, Some(Completed(c.revision)));
  }

  /** Switching a row off moves no email and no binding, so the payload still names it. */
  lemma StillFound(users: Users, p: Item, b: string, revision: nat)
    requires UniqueEmails(users)
    ensures UniqueEmails(WithEnabled(users, b, false, revision))
    ensures FindStored(WithEnabled(users, b, false, revision), p) == FindStored(users, p)
  {
    SameEmailsSameFind(users, WithEnabled(users, b, false, revision), p);
  }

  lemma SameEmailsSameFind(users: Users, after: Users, p: Item)
    requires UniqueEmails(users) && after.Keys == users.Keys && forall x :: x in users ==> after[x].email == users[x].email
    ensures UniqueEmails(after) && FindStored(after, p) == FindStored(users, p)
  {
    if p.account.Some? {
      assert ByEmail(after, p.account.value) == ByEmail(users, p.account.value) by {
        SameEmailsSameRow(users, after, p.account.value);
      }
    }
  }

  lemma SameEmailsSameRow(users: Users, after: Users, email: string)
    requires UniqueEmails(users) && UniqueEmails(after)
    requires after.Keys == users.Keys && forall x :: x in users ==> after[x].email == users[x].email
    ensures ByEmail(after, email) == ByEmail(users, email)
  {
    if x :| x in users && users[x].email == email { assert after[x].email == email; }
  }

  /** A node a crashed DISABLE may have left. */
  predicate DisableLeft(n: Node, c: Command, stored: Option<string>, email: string, x: Node) {
    && (x.db.users == n.db.users
        || (stored.Some? && x.db.users == WithEnabled(n.db.users, stored.value, false, c.revision)))
    && n.db.revision <= x.db.revision <= Larger(n.db.revision, c.revision)
    && x.db == n.db.(users := x.db.users, revision := x.db.revision, commands := n.db.commands[c.id := None])
    && x.live - {email} == n.live - {email}
  }

  lemma StillDisables(n: Node, c: Command, stored: Option<string>, email: string, x: Node)
    requires UniqueEmails(n.db.users) && Disables(n.db, c, stored, email) && DisableLeft(n, c, stored, email, x)
    ensures UniqueEmails(x.db.users) && Disables(x.db, c, stored, email)
  {
    if stored.Some? { StillFound(n.db.users, c.payload, stored.value, c.revision); }
  }

  lemma DisableEndsAgree(n: Node, c: Command, stored: Option<string>, email: string, x: Node)
    requires DisableLeft(n, c, stored, email, x)
    ensures DisableEnd(x, c, stored, email) == DisableEnd(n, c, stored, email)
  {
    Overwritten(n.db.commands, c.id, None, Some(Completed(c.revision)));
  }

  lemma DisableRerun(n: Node, c: Command, stored: Option<string>, email: string, x: Node)
    requires UniqueEmails(n.db.users) && Disables(n.db, c, stored, email) && DisableLeft(n, c, stored, email, x)
    ensures UniqueEmails(x.db.users) && PerformAll(x, Execution(x, c, true, None)) == DisableEnd(n, c, stored, email)
  {
    StillDisables(n, c, stored, email, x);
    assert !IsCompleted(x.db, c.id);
    DisableExecutes(x, c, stored, email);
    DisableEndsAgree(n, c, stored, email, x);
  }

  lemma DisableCrashes(n: Node, c: Command, stored: Option<string>, email: string, k: nat)
    requires UniqueEmails(n.db.users) && Disables(n.db, c, stored, email) && !IsCompleted(n.db, c.id)
    requires 1 <= k < |Execution(n, c, true, None)|
    ensures var x := PerformAll(n, Execution(n, c, true, None)[..k]);
            UniqueEmails(x.db.users) && PerformAll(x, Execution(x, c, true, None)) == DisableEnd(n, c, stored, email)
  {
    DisablePlan(n, c, stored, email);
    var es := DisableEffects(n, stored, email, c.revision);
    var begun := Perform(n, Begin(c.id));
    CrashPoint(n, c, es, k);
    DisablePartway(begun, stored, email, c.revision, if k <= |es| + 1 then k - 1 else |es|);
    assert es == DisableEffects(begun, stored, email, c.revision) && es[..|es|] == es;
    var x := PerformAll(n, Execution(n, c, true, None)[..k]);
    DisableRerun(n, c, stored, email, x);
  }

  // ----- Commands that do nothing to the tables -----

  lemma IdleExecution(n: Node, c: Command, writable: bool)
    requires UniqueEmails(n.db.users) && !IsCompleted(n.db, c.id) && CommandPlan(n, c, writable).effects == []
    ensures Execution(n, c, writable, None) == [Begin(c.id)] + Ending(c, CommandPlan(n, c, writable).ok)
  {
    ConcatEmpty([Begin(c.id)]);
  }

  lemma FailsIdly(n: Node, c: Command)
    ensures PerformAll(n, [Begin(c.id)] + Ending(c, false)) == n.(db := n.db.(commands := n.db.commands[c.id := Some(Failed)]))
  {
    PerformTwo(n, Begin(c.id), Complete(c.id, Failed));
    assert [Begin(c.id)] + Ending(c, false) == [Begin(c.id), Complete(c.id, Failed)];
    Overwritten(n.db.commands, c.id, None, Some(Failed));
  }

  lemma IdleExecutes(n: Node, c: Command, writable: bool)
    requires UniqueEmails(n.db.users) && !IsCompleted(n.db, c.id) && CommandPlan(n, c, writable).effects == []
    ensures PerformAll(n, Execution(n, c, writable, None))
         == if CommandPlan(n, c, writable).ok then n.(db := Completion(n.db, c))
            else n.(db := n.db.(commands := n.db.commands[c.id := Some(Failed)]))
  {
    if CommandPlan(n, c, writable).ok {
      ExecutionOf(n, c, writable);
      Overwritten(n.db.commands, c.id, None, Some(Completed(c.revision)));
    } else {
      IdleExecution(n, c, writable);
      FailsIdly(n, c);
    }
  }

  /** Raising the revision to the command's own leaves an idle plan idle. */
  lemma StillIdle(n: Node, x: Node, c: Command, writable: bool)
    requires UniqueEmails(n.db.users) && (IsEnsure(c) || c.kind.DisableUser?)
    requires CommandPlan(n, c, writable).effects == []
    requires x.db == n.db.(revision := x.db.revision, commands := x.db.commands) && x.live == n.live
    requires n.db.revision <= x.db.revision && (!CommandPlan(n, c, writable).ok ==> x.db.revision == n.db.revision)
    ensures CommandPlan(x, c, writable) == CommandPlan(n, c, writable)
  {
  }

  predicate IdleLeft(n: Node, c: Command, ok: bool, x: Node) {
    && n.db.revision <= x.db.revision <= Larger(n.db.revision, c.revision)
    && (!ok ==> x.db.revision == n.db.revision)
    && x == n.(db := n.db.(revision := x.db.revision, commands := n.db.commands[c.id := None]))
  }

  lemma IdleRerun(n: Node, c: Command, writable: bool, x: Node)
    requires UniqueEmails(n.db.users) && (IsEnsure(c) || c.kind.DisableUser?) && !IsCompleted(n.db, c.id)
    requires CommandPlan(n, c, writable).effects == [] && IdleLeft(n, c, CommandPlan(n, c, writable).ok, x)
    ensures PerformAll(x, Execution(x, c, writable, None)) == PerformAll(n, Execution(n, c, writable, None))
  {
    StillIdle(n, x, c, writable);
    IdleExecutes(n, c, writable);
    IdleExecutes(x, c, writable);
    Overwritten(n.db.commands, c.id, None, Some(Failed));
    Overwritten(n.db.commands, c.id, None, Some(Completed(c.revision)));
  }

  lemma CrashesIdly(n: Node, c: Command, ok: bool, k: nat)
    requires 1 <= k < 1 + |Ending(c, ok)|
    ensures IdleLeft(n, c, ok, PerformAll(n, ([Begin(c.id)] + Ending(c, ok))[..k]))
  {
    var full := [Begin(c.id)] + Ending(c, ok);
    if k == 1 {
      assert full[..1] == [Begin(c.id)];
      PerformOne(n, Begin(c.id));
    } else {
      assert full[..2] == [Begin(c.id), Advance(c.revision)];
      PerformTwo(n, Begin(c.id), Advance(c.revision));
    }
  }

  lemma IdleCrashes(n: Node, c: Command, writable: bool, k: nat)
    requires UniqueEmails(n.db.users) && (IsEnsure(c) || c.kind.DisableUser?) && !IsCompleted(n.db, c.id)
    requires CommandPlan(n, c, writable).effects == [] && 1 <= k < |Execution(n, c, writable, None)|
    ensures IdleLeft(n, c, CommandPlan(n, c, writable).ok, PerformAll(n, Execution(n, c, writable, None)[..k]))
  {
    IdleExecution(n, c, writable);
    CrashesIdly(n, c, CommandPlan(n, c, writable).ok, k);
  }

  /**
   * Immediately re-running an ENSURE, ENABLE or DISABLE that crashed anywhere before its result
   * was recorded ends in the same store and live table as one uninterrupted run.
   */
  lemma RerunAfterCrash(n: Node, c: Command, writable: bool, k: nat)
    requires UniqueEmails(n.db.users) && (IsEnsure(c) || c.kind.DisableUser?)
    requires k < |Execution(n, c, writable, None)|
    ensures var x := PerformAll(n, Execution(n, c, writable, None)[..k]);
            UniqueEmails(x.db.users)
            && PerformAll(x, Execution(x, c, writable, None)) == PerformAll(n, Execution(n, c, writable, None))
  {
    var p := CommandPlan(n, c, writable);
    if k == 0 {
      assert Execution(n, c, writable, None)[..0] == [];
    } else if p.effects == [] {
      IdleCrashes(n, c, writable, k);
      IdleRerun(n, c, writable, PerformAll(n, Execution(n, c, writable, None)[..k]));
    } else if IsEnsure(c) {
      var u := ResolveUser(n.db, c).value.(enabled := true, revision := c.revision);
      EnsureExecutes(n, c, u);
      EnsureCrashes(n, c, u, k);
    } else {
      var stored := FindStored(n.db.users, c.payload);
      var email := if stored.Some? then n.db.users[stored.value].email else c.payload.account.value;
      assert Disables(n.db, c, stored, email);
      DisablePlan(n, c, stored, email);
      DisableExecutes(n, c, stored, email);
      DisableCrashes(n, c, stored, email, k);
    }
  }

  // ----- What completed commands leave behind -----

  lemma UpsertReadsBack(users: Users, u: DesiredUser)
    requires Upsert(users, u).Some?
    ensures var rows := Upsert(users, u).value;
            && u.bindingId in rows && rows - {u.bindingId} == users - {u.bindingId}
            && (ToDesiredUser(u.bindingId, rows[u.bindingId]) == u
                <==> !Ignored(users, u) || ToDesiredUser(u.bindingId, users[u.bindingId]) == u)
  {
  }

  /**
   * An ENSURE or ENABLE that goes through makes its user live under its uuid and touches no other
   * row or account. The row agrees with it if and only if the stored row was older, or agreed
   * already: at the row's own revision the upsert is skipped and Xray changed all the same.
   */
  lemma EnsureInstalls(n: Node, c: Command, u: DesiredUser)
    requires UniqueEmails(n.db.users) && IsEnsure(c) && Puts(n.db, c, u) && !IsCompleted(n.db, c.id)
    ensures var m, b := PerformAll(n, Execution(n, c, true, None)), u.bindingId;
            && u.enabled && u.revision == c.revision
            && u.email in m.live && m.live[u.email] == Some(u.uuid) && m.live - {u.email} == n.live - {u.email}
            && b in m.db.users && m.db.users - {b} == n.db.users - {b}
            && (ToDesiredUser(b, m.db.users[b]) == u
                <==> !Ignored(n.db.users, u) || ToDesiredUser(b, n.db.users[b]) == u)
  {
    EnsureExecutes(n, c, u);
    UpsertReadsBack(n.db.users, u);
    assert n.live[u.email := Some(u.uuid)] - {u.email} == n.live - {u.email};
  }

  /** The input that shows it: a stored user, enabled, and an ENABLE at its revision with another uuid. */
  lemma SameRevisionDiverges(id: string, b: string, row: UserRow, uuid: string)
    requires row.enabled && row.uuid != uuid
    ensures var n := Node(Db(map[b := row], [], map[], "", 0, DirectPrimary, map[]), map[]);
            var c := Command(id, EnableUser, row.revision, Item(Some(b), None, Some(uuid), Absent, None, true, None, None));
            var m := PerformAll(n, Execution(n, c, true, None));
            && ResultOf(n, c, true, None).Completed?
            && m.live == map[row.email := Some(uuid)] && m.db.users == map[b := row]
  {
    var n := Node(Db(map[b := row], [], map[], "", 0, DirectPrimary, map[]), map[]);
    var c := Command(id, EnableUser, row.revision, Item(Some(b), None, Some(uuid), Absent, None, true, None, None));
    var u := ToDesiredUser(b, row).(uuid := uuid);
    assert ResolveUser(n.db, c) == Some(u);
    assert Ignored(n.db.users, u) && Upsert(n.db.users, u) == Some(n.db.users);
    assert Puts(n.db, c, u);
    EnsureExecutes(n, c, u);
  }

  /** The account a DISABLE or REMOVE is about. */
  function TargetEmail(db: Db, c: Command): string
    requires UniqueEmails(db.users)
  {
    var stored := FindStored(db.users, c.payload);
    if stored.Some? && stored.value in db.users then db.users[stored.value].email else c.payload.account.GetOr("")
  }

  /** A DISABLE or REMOVE that goes through takes exactly its account out of Xray, and switches off or drops exactly its row. */
  lemma TerminateTakesOut(n: Node, c: Command)
    requires UniqueEmails(n.db.users) && (c.kind.DisableUser? || c.kind.RemoveUser?) && !IsCompleted(n.db, c.id)
    requires ResultOf(n, c, true, None).Completed?
    requires var stored := FindStored(n.db.users, c.payload);
             stored.Some? ==> stored.value in n.db.users && n.db.users[stored.value].revision <= c.revision
    ensures var m := PerformAll(n, Execution(n, c, true, None));
            var stored := FindStored(n.db.users, c.payload);
            && m.live == n.live - {TargetEmail(n.db, c)}
            && m.db.users == if stored.None? then n.db.users
                             else if c.kind.RemoveUser? then n.db.users - {stored.value}
                             else n.db.users[stored.value := n.db.users[stored.value].(enabled := false, revision := c.revision)]
  {
    var begun := Perform(n, Begin(c.id));
    ExecutionOf(n, c, true);
    TerminalPlanTakesOut(n, begun, c, FindStored(n.db.users, c.payload), TargetEmail(n.db, c));
  }

  lemma TerminalPlanTakesOut(n: Node, begun: Node, c: Command, stored: Option<string>, email: string)
    requires UniqueEmails(n.db.users) && (c.kind.DisableUser? || c.kind.RemoveUser?) && TerminalPlan(n, c).ok
    requires begun.db.users == n.db.users && begun.live == n.live
    requires stored == FindStored(n.db.users, c.payload) && email == TargetEmail(n.db, c)
    requires stored.Some? ==> stored.value in n.db.users && n.db.users[stored.value].revision <= c.revision
    ensures var m := PerformAll(begun, TerminalPlan(n, c).effects);
            && m.live == n.live - {email}
            && m.db.users == if stored.None? then n.db.users
                             else if c.kind.RemoveUser? then n.db.users - {stored.value}
                             else WithEnabled(n.db.users, stored.value, false, c.revision)
  {
    var es := TerminalPlan(n, c).effects;
    assert email !in n.live ==> n.live - {email} == n.live;
    if |es| == 1 {
      assert es == [es[0]];
      PerformOne(begun, es[0]);
    } else if |es| == 2 {
      assert es == [es[0], es[1]];
      PerformTwo(begun, es[0], es[1]);
    }
  }
}
