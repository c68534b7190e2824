/**
 * The agent's tables (store.ts) as values, and what one transaction does to them.
 * Counters, quotas, revisions and sequences are decimal strings read as BigInt: natural numbers.
 */
module AgentTables {
  import opened Common

  datatype ControlMode = XuiPrimary | ShadowDirect | DirectPrimary | RollbackPending
  datatype Flow = Vision | NoFlow

  datatype DesiredUser = DesiredUser(
    bindingId: string, revision: nat, email: string, uuid: string, flow: Flow, enabled: bool,
    quota: nat, allowance: nat)

  datatype UserRow = UserRow(
    email: string, uuid: string, flow: Flow, enabled: bool, revision: nat, quota: nat, allowance: nat,
    offlineUsed: nat, generation: nat, initialized: bool, up: nat, down: nat)

  type Users = map<string, UserRow>

  /** The UNIQUE constraint on the email column. */
  predicate UniqueEmails(users: Users) {
    forall a, b :: a in users && b in users && users[a].email == users[b].email ==> a == b
  }

  // ----- Users -----

  predicate EmailTaken(users: Users, u: DesiredUser) {
    exists b :: b in users && b != u.bindingId && users[b].email == u.email
  }

  predicate Ignored(users: Users, u: DesiredUser) {
    u.bindingId in users && users[u.bindingId].revision >= u.revision
  }

  /** An insert starts with no counters; an update keeps the row's counters and offline usage. */
  function UpsertedRow(users: Users, u: DesiredUser): UserRow {
    if u.bindingId in users then
      users[u.bindingId].(email := u.email, uuid := u.uuid, flow := u.flow, enabled := u.enabled,
                          revision := u.revision, quota := u.quota, allowance := u.allowance)
    else
      UserRow(u.email, u.uuid, u.flow, u.enabled, u.revision, u.quota, u.allowance, 0, 0, false, 0, 0)
  }

  /** upsertDesiredUser; None is the UNIQUE(email) failure. */
  function Upsert(users: Users, u: DesiredUser): (r: Option<Users>)
    ensures UniqueEmails(users) && r.Some? ==> UniqueEmails(r.value)
  {
    if Ignored(users, u) then Some(users)
    else if EmailTaken(users, u) then None
    else Some(users[u.bindingId := UpsertedRow(users, u)])
  }

  function UpsertAll(users: Users, us: seq<DesiredUser>): (r: Option<Users>)
    ensures UniqueEmails(users) && r.Some? ==> UniqueEmails(r.value)
  {
    if |us| == 0 then Some(users)
    else
      match UpsertAll(users, us[..|us| - 1])
      case None => None
      case Some(before) => Upsert(before, Last(us))
  }

  function Bindings(us: seq<DesiredUser>): set<string> { set u | u in us :: u.bindingId }

  /** Entry `i` of a list is the last one for row `b`. */
  predicate LastFor(us: seq<DesiredUser>, b: string, i: int) {
    0 <= i < |us| && us[i].bindingId == b && forall j :: i < j < |us| ==> us[j].bindingId != b
  }

  /** replaceDesiredUsers: every upsert first, then the deletions. */
  function Replace(users: Users, us: seq<DesiredUser>): (r: Option<Users>)
    ensures UniqueEmails(users) && r.Some? ==> UniqueEmails(r.value)
  {
    match UpsertAll(users, us)
    case None => None
    case Some(all) => Some(map b | b in all && b in Bindings(us) :: all[b])
  }

  function WithQuota(users: Users, b: string, quota: nat, revision: nat): Users {
    if b !in users || users[b].revision > revision then users
    else users[b := users[b].(quota := quota, revision := revision, offlineUsed := 0)]
  }

  function WithEnabled(users: Users, b: string, enabled: bool, revision: nat): Users {
    if b !in users || users[b].revision > revision then users
    else users[b := users[b].(enabled := enabled, revision := revision)]
  }

  function WithFlow(users: Users, b: string, flow: Flow): Users {
    if b !in users then users else users[b := users[b].(flow := flow)]
  }

  /** Backend restore keeps the smaller quota, and never enables a user without one. */
  function RestoreOne(users: Users, u: DesiredUser): Users {
    if u.bindingId !in users then users
    else
      var row := users[u.bindingId];
      var confirmed := if row.quota < u.quota then row.quota else u.quota;
      users[u.bindingId := row.(enabled := u.enabled && confirmed > 0, quota := confirmed, offlineUsed := 0)]
  }

  function RestoreAll(users: Users, us: seq<DesiredUser>): Users {
    if |us| == 0 then users else RestoreOne(RestoreAll(users, us[..|us| - 1]), Last(us))
  }

  predicate UsageDisabled(row: UserRow) {
    !row.enabled && (row.quota == 0 || (row.offlineUsed > 0 && row.offlineUsed >= row.allowance))
  }

  /** Some user was switched off for what it used up. */
  predicate HasUsageDisabled(users: Users) { exists b :: b in users && UsageDisabled(users[b]) }

  // ----- Metering -----

  datatype Counter = Counter(email: string, up: nat, down: nat)

  datatype Entry = Entry(bindingId: string, generation: nat, up: nat, down: nat, deltaUp: nat, deltaDown: nat)

  datatype Batch = Batch(boot: string, sequence: nat, samples: seq<Entry>)

  predicate RolledBack(row: UserRow, up: nat, down: nat) {
    row.initialized && (up < row.up || down < row.down)
  }

  /** The first sight of a counter is a baseline; after a rollback the whole new value counts. */
  function Delta(row: UserRow, rolledBack: bool, current: nat, previous: nat): nat
    requires row.initialized && !rolledBack ==> previous <= current
  {
    if !row.initialized then 0 else if rolledBack then current else current - previous
  }

  function EntryFor(b: string, row: UserRow, up: nat, down: nat): Entry {
    var rolled := RolledBack(row, up, down);
    Entry(b, row.generation + (if rolled then 1 else 0), up, down,
          Delta(row, rolled, up, row.up), Delta(row, rolled, down, row.down))
  }

  function Observed(row: UserRow, up: nat, down: nat, online: bool): UserRow {
    var e := EntryFor("", row, up, down);
    var delta := e.deltaUp + e.deltaDown;
    var quota := if row.quota > delta then row.quota - delta else 0;
    var offline := if online then 0 else row.offlineUsed + delta;
    row.(generation := e.generation, initialized := true, up := up, down := down, quota := quota,
         offlineUsed := offline, enabled := !(quota == 0 || (!online && offline >= row.allowance)))
  }

  datatype Sampled = Sampled(users: Users, entries: seq<Entry>, disabled: seq<string>)

  /** One counter of a sample: the enabled row with its email, if there is one. */
  function SampleOne(s: Sampled, c: Counter, online: bool): (r: Sampled)
    requires UniqueEmails(s.users)
    ensures UniqueEmails(r.users) && r.users.Keys == s.users.Keys
    ensures forall b :: b in s.users ==> r.users[b].email == s.users[b].email
  {
    if b :| b in s.users && s.users[b].email == c.email && s.users[b].enabled then
      var row := Observed(s.users[b], c.up, c.down, online);
      Sampled(s.users[b := row], s.entries + [EntryFor(b, s.users[b], c.up, c.down)],
              if row.enabled then s.disabled else s.disabled + [row.email])
    else s
  }

  /** Which row a counter meters: the enabled one with its email, the email being unique. */
  lemma SampleOneAt(s: Sampled, c: Counter, online: bool, b: string)
    requires UniqueEmails(s.users) && b in s.users && s.users[b].email == c.email
    ensures SampleOne(s, c, online)
         == if !s.users[b].enabled then s
            else
              var row := Observed(s.users[b], c.up, c.down, online);
              Sampled(s.users[b := row], s.entries + [EntryFor(b, s.users[b], c.up, c.down)],
                      if row.enabled then s.disabled else s.disabled + [row.email])
  {
  }

  function SampleAll(users: Users, cs: seq<Counter>, online: bool): (r: Sampled)
    requires UniqueEmails(users)
    ensures UniqueEmails(r.users) && r.users.Keys == users.Keys
    ensures forall b :: b in users ==> r.users[b].email == users[b].email
  {
    if |cs| == 0 then Sampled(users, [], [])
    else SampleOne(SampleAll(users, cs[..|cs| - 1], online), Last(cs), online)
  }

  // ----- Batches -----

  function NextSequence(next: map<string, nat>, boot: string): nat { if boot in next then next[boot] else 1 }

  /** ackThrough: the batches that stay. */
  function Unacked(batches: seq<Batch>, boot: string, through: nat): seq<Batch> {
    if |batches| == 0 then []
    else
      Unacked(batches[..|batches| - 1], boot, through)
      + if Last(batches).boot == boot && Last(batches).sequence <= through then [] else [Last(batches)]
  }

  /** The batches one boot still has to upload, in the order they were written. */
  function PendingOf(batches: seq<Batch>, boot: string): seq<Batch> {
    if |batches| == 0 then []
    else PendingOf(batches[..|batches| - 1], boot) + if Last(batches).boot == boot then [Last(batches)] else []
  }
}
