/**
 * User commands (command-processor.ts) applied to the store and to Xray's live user table.
 *
 * One execution is a sequence of effects; it stops early when an Xray call throws, and a
 * process crash leaves any prefix of it.
 */
module Commands {
  import opened Common
  import opened AgentTables
  import opened AgentStore

  /** Xray's accounts of the inbound, by email; an account of another protocol has no uuid. */
  type Live = map<string, Option<string>>

  datatype Node = Node(db: Db, live: Live)

  datatype FlowField = Absent | Given(flow: Flow) | Unsupported

  /** A user payload. `account` is the email field, or the userKey field when that is missing. */
  datatype Item = Item(
    bindingId: Option<string>, account: Option<string>, uuid: Option<string>, flow: FlowField,
    revision: Option<nat>, enabled: bool, quota: Option<nat>, allowance: Option<nat>)

  datatype Kind = EnsureUser | EnableUser | DisableUser | RemoveUser | RefreshQuota

  datatype Command = Command(id: string, kind: Kind, revision: nat, payload: Item)

  const DEFAULT_ALLOWANCE: nat := 64 * 1024 * 1024

  function ParseDesiredUser(p: Item, revision: nat): Option<DesiredUser> {
    if p.bindingId.None? || p.account.None? || p.uuid.None? || p.flow.Unsupported? then None
    else Some(DesiredUser(p.bindingId.value, p.revision.GetOr(revision), p.account.value, p.uuid.value,
                          if p.flow.Given? then p.flow.flow else NoFlow, p.enabled, p.quota.GetOr(0),
                          p.allowance.GetOr(DEFAULT_ALLOWANCE)))
  }

  function ToDesiredUser(b: string, row: UserRow): DesiredUser {
    DesiredUser(b, row.revision, row.email, row.uuid, row.flow, row.enabled, row.quota, row.allowance)
  }

  // ----- Finding the stored user a payload names -----

  /** Listing order: by email, character by character. */
  predicate Precedes(a: string, b: string) {
    |b| > 0 && (|a| == 0 || a[0] < b[0] || (a[0] == b[0] && Precedes(a[1..], b[1..])))
  }

  predicate Matches(users: Users, p: Item, b: string) {
    b in users && (p.bindingId == Some(b) || p.account == Some(users[b].email))
  }

  function ByEmail(users: Users, email: string): Option<string>
    requires UniqueEmails(users)
  {
    if b :| b in users && users[b].email == email then Some(b) else None
  }

  /** The first listed user with the payload's binding or email: at most one row matches by each. */
  function FindStored(users: Users, p: Item): Option<string>
    requires UniqueEmails(users)
  {
    var byBinding := if p.bindingId.Some? && p.bindingId.value in users then p.bindingId else None;
    var byEmail := if p.account.Some? then ByEmail(users, p.account.value) else None;
    if byBinding.None? then byEmail
    else if byEmail.None? then byBinding
    else if Precedes(users[byEmail.value].email, users[byBinding.value].email) then byEmail
    else byBinding
  }

  lemma {:induction false} PrecedesIsTotal(a: string, b: string)
    ensures a == b || Precedes(a, b) || Precedes(b, a)
  {
    if |a| > 0 && |b| > 0 && a[0] == b[0] {
      PrecedesIsTotal(a[1..], b[1..]);
      assert a == [a[0]] + a[1..] && b == [b[0]] + b[1..];
    }
  }

  lemma {:induction false} PrecedesIsTransitive(a: string, b: string, c: string)
    requires Precedes(a, b) && Precedes(b, c)
    ensures Precedes(a, c)
  {
    if |a| > 0 && a[0] == b[0] && b[0] == c[0] { PrecedesIsTransitive(a[1..], b[1..], c[1..]); }
  }

  /** A listing by email. */
  predicate InListingOrder(us: seq<DesiredUser>) {
    forall i, j :: 0 <= i < j < |us| ==> Precedes(us[i].email, us[j].email)
  }

  /** The row found is the match listed first; none is found only when nothing matches. */
  lemma FindStoredIsFirstMatch(users: Users, p: Item)
    requires UniqueEmails(users)
    ensures FindStored(users, p).None? ==> forall b :: !Matches(users, p, b)
    ensures FindStored(users, p).Some? ==>
              var b := FindStored(users, p).value;
              Matches(users, p, b) && forall c :: Matches(users, p, c) && c != b ==> Precedes(users[b].email, users[c].email)
  {
    forall b, c | b in users && c in users && b != c
      ensures Precedes(users[b].email, users[c].email) || Precedes(users[c].email, users[b].email)
    {
      PrecedesIsTotal(users[b].email, users[c].email);
    }
    if p.account.Some? {
      forall b | b in users && users[b].email == p.account.value ensures ByEmail(users, p.account.value) == Some(b) {}
    }
  }

  // ----- Effects -----

  datatype Effect =
    | Begin(id: string)
    | PutUser(user: DesiredUser)
    | SwitchOff(binding: string, revision: nat)
    | DropUser(binding: string)
    | PutQuota(binding: string, quota: nat, revision: nat)
    | AddLive(email: string, uuid: string)
    | RemoveLive(email: string)
    | ApplySnapshot(revision: nat, mode: ControlMode, users: seq<DesiredUser>)
    | Advance(revision: nat)
    | Complete(id: string, result: CommandResult)

  function Larger(a: nat, b: nat): nat { if a > b then a else b }

  function Perform(n: Node, e: Effect): Node {
    var db := n.db;
    match e
    case Begin(id) => n.(db := db.(commands := db.commands[id := None]))
    case PutUser(u) => n.(db := db.(users := Upsert(db.users, u).GetOr(db.users)))
    case SwitchOff(b, r) => n.(db := db.(users := WithEnabled(db.users, b, false, r)))
    case DropUser(b) => n.(db := db.(users := db.users - {b}))
    case PutQuota(b, q, r) => n.(db := db.(users := WithQuota(db.users, b, q, r)))
    case AddLive(email, uuid) => n.(live := n.live[email := Some(uuid)])
    case RemoveLive(email) => n.(live := n.live - {email})
    case ApplySnapshot(r, mode, us) =>
      if r < db.revision || Replace(db.users, us).None? then n
      else n.(db := db.(users := Replace(db.users, us).value, mode := mode, revision := r))
    case Advance(r) => n.(db := db.(revision := Larger(db.revision, r)))
    case Complete(id, result) =>
      if id in db.commands then n.(db := db.(commands := db.commands[id := Some(result)])) else n
  }

  function PerformAll(n: Node, es: seq<Effect>): Node
    decreases |es|
  {
    if |es| == 0 then n else PerformAll(Perform(n, es[0]), es[1..])
  }

  lemma PerformOne(n: Node, e: Effect)
    ensures PerformAll(n, [e]) == Perform(n, e)
  {
    assert [e][1..] == [];
  }

  lemma PerformTwo(n: Node, e: Effect, f: Effect)
    ensures PerformAll(n, [e, f]) == Perform(Perform(n, e), f)
  {
    assert [e, f][1..] == [f];
    PerformOne(Perform(n, e), f);
  }

  lemma {:induction false} PerformAppend(n: Node, es: seq<Effect>, fs: seq<Effect>)
    ensures PerformAll(n, es + fs) == PerformAll(PerformAll(n, es), fs)
    decreases |es|
  {
    if |es| == 0 {
      assert es + fs == fs;
    } else {
      PerformAppend(Perform(n, es[0]), es[1..], fs);
      assert (es + fs)[1..] == es[1..] + fs;
    }
  }

  // ----- What a command does -----

  /** ensureUser on the live table: nothing when the uuid matches, otherwise remove and add. */
  function EnsureLive(live: Live, email: string, uuid: string): seq<Effect> {
    if email in live && live[email] == Some(uuid) then []
    else (if email in live then [RemoveLive(email)] else []) + [AddLive(email, uuid)]
  }

  function RemoveIfLive(live: Live, email: string): seq<Effect> {
    if email in live then [RemoveLive(email)] else []
  }

  datatype Plan = Plan(effects: seq<Effect>, ok: bool)

  /** Outdated, or a stored row that this very revision disabled. */
  predicate Superseded(db: Db, c: Command)
    requires UniqueEmails(db.users)
  {
    var stored := FindStored(db.users, c.payload);
    || c.revision < db.revision
    || (stored.Some? && stored.value in db.users
        && (c.revision < db.users[stored.value].revision
            || (c.revision == db.users[stored.value].revision && !db.users[stored.value].enabled)))
  }

  function ResolveUser(db: Db, c: Command): Option<DesiredUser>
    requires UniqueEmails(db.users)
  {
    var stored := FindStored(db.users, c.payload);
    if stored.Some? && stored.value in db.users then
      var row := db.users[stored.value];
      if c.payload.flow.Unsupported? then None
      else Some(ToDesiredUser(stored.value, row).(
                  email := c.payload.account.GetOr(row.email),
                  uuid := c.payload.uuid.GetOr(row.uuid),
                  flow := if c.payload.flow.Given? then c.payload.flow.flow else row.flow))
    else ParseDesiredUser(c.payload, c.revision)
  }

  function EnsurePlan(n: Node, c: Command): Plan
    requires UniqueEmails(n.db.users)
  {
    if Superseded(n.db, c) then Plan([], true)
    else
      var resolved := ResolveUser(n.db, c);
      if resolved.None? then Plan([], false)
      else
        var u := resolved.value.(enabled := true, revision := c.revision);
        if Upsert(n.db.users, u).None? then Plan([], false)
        else Plan([PutUser(u)] + EnsureLive(n.live, u.email, u.uuid), true)
  }

  /** DISABLE and REMOVE: take the account out of Xray, then switch off or drop the stored row. */
  function TerminalPlan(n: Node, c: Command): Plan
    requires UniqueEmails(n.db.users)
  {
    var stored := FindStored(n.db.users, c.payload);
    if stored.Some? && stored.value in n.db.users then
      var row := n.db.users[stored.value];
      if c.revision < row.revision then Plan([], true)
      else Plan(RemoveIfLive(n.live, row.email)
                + [if c.kind.DisableUser? then SwitchOff(stored.value, c.revision) else DropUser(stored.value)], true)
    else if c.payload.bindingId.None? || c.payload.account.None? then Plan([], false)
    else Plan(RemoveIfLive(n.live, c.payload.account.value), true)
  }

  function CommandPlan(n: Node, c: Command, writable: bool): Plan
    requires UniqueEmails(n.db.users)
  {
    if !writable && !c.kind.RefreshQuota? then Plan([], false)
    else
      match c.kind
      case EnsureUser => EnsurePlan(n, c)
      case EnableUser => EnsurePlan(n, c)
      case DisableUser => TerminalPlan(n, c)
      case RemoveUser => TerminalPlan(n, c)
      case RefreshQuota =>
        if c.payload.bindingId.None? || c.payload.quota.None? then Plan([], false)
        else Plan([PutQuota(c.payload.bindingId.value, c.payload.quota.value, c.revision)], true)
  }

  predicate IsCompleted(db: Db, id: string) {
    id in db.commands && db.commands[id].Some? && db.commands[id].value.Completed?
  }

  /** The effects of apply(): all of them, or those before the Xray call that threw. */
  function DoneOf(p: Plan, fault: Option<nat>): seq<Effect> {
    if fault.Some? && fault.value <= |p.effects| then p.effects[..fault.value] else p.effects
  }

  predicate Succeeds(p: Plan, fault: Option<nat>) { p.ok && (fault.None? || fault.value > |p.effects|) }

  function Ending(c: Command, ok: bool): seq<Effect> {
    if ok then [Advance(c.revision), Complete(c.id, Completed(c.revision))] else [Complete(c.id, Failed)]
  }

  /** execute(): begin, apply, advance the revision, record the result. */
  function Execution(n: Node, c: Command, writable: bool, fault: Option<nat>): seq<Effect>
    requires UniqueEmails(n.db.users)
  {
    if IsCompleted(n.db, c.id) then []
    else
      var p := CommandPlan(n, c, writable);
      [Begin(c.id)] + DoneOf(p, fault) + Ending(c, Succeeds(p, fault))
  }

  /** The result a caller sees: the stored one, or the one just recorded. */
  function ResultOf(n: Node, c: Command, writable: bool, fault: Option<nat>): CommandResult
    requires UniqueEmails(n.db.users)
  {
    if IsCompleted(n.db, c.id) then n.db.commands[c.id].value
    else if Succeeds(CommandPlan(n, c, writable), fault) then Completed(c.revision)
    else Failed
  }

  lemma PerformKeepsUnique(n: Node, e: Effect)
    requires UniqueEmails(n.db.users)
    ensures UniqueEmails(Perform(n, e).db.users)
  {
  }

  lemma {:induction false} PerformAllKeepsUnique(n: Node, es: seq<Effect>)
    requires UniqueEmails(n.db.users)
    ensures UniqueEmails(PerformAll(n, es).db.users)
    decreases |es|
  {
    if |es| > 0 {
      PerformKeepsUnique(n, es[0]);
      PerformAllKeepsUnique(Perform(n, es[0]), es[1..]);
    }
  }
}
