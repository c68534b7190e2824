/** The agent's state database (store.ts): one object whose methods are the transactions. */
module AgentStore {
  import opened Common
  import opened AgentTables
  import Q = UploadQueue

  datatype CommandResult = Completed(appliedRevision: nat) | Failed

  datatype SnapshotOutcome = Applied | Stale | Conflicted

  /** The whole database as a value. A command maps to None while it has no result. */
  datatype Db = Db(
    users: Users, batches: seq<Batch>, next: map<string, nat>, boot: string, revision: nat,
    mode: ControlMode, commands: map<string, Option<CommandResult>>)

  class Store {
    var users: Users
    var batches: seq<Batch>
    var nextSequence: map<string, nat>
    var boot: string
    var revision: nat
    var mode: ControlMode
    var commands: map<string, Option<CommandResult>>

    /** A fresh database: nothing stored, revision 0, and the first boot's sequence at 1. */
    constructor (bootId: string)
      ensures Valid()
      ensures Contents() == Db(map[], [], map[bootId := 1], bootId, 0, ShadowDirect, map[])
    {
      users, batches, nextSequence := map[], [], map[bootId := 1];
      boot, revision, mode, commands := bootId, 0, ShadowDirect, map[];
    }

    predicate Valid()
      reads this
    {
      UniqueEmails(users)
    }

    function Contents(): Db
      reads this
    {
      Db(users, batches, nextSequence, boot, revision, mode, commands)
    }

    /** The upload queue inside the database. */
    function Queue(): Q.Queue
      reads this
    {
      Q.Queue(batches, nextSequence, boot)
    }

    /** A restart on the same database; a boot id seen before keeps counting where it stopped. */
    method InitializeBoot(bootId: string)
      requires Valid()
      modifies this
      ensures Valid()
      ensures Contents() == old(Contents()).(boot := bootId, next := old(nextSequence)[bootId := NextSequence(old(nextSequence), bootId)])
      ensures Queue() == Q.Next(old(Queue()), Q.Reboot(bootId))
    {
      boot := bootId;
      if bootId !in nextSequence { nextSequence := nextSequence[bootId := 1]; }
      assert nextSequence == old(nextSequence)[bootId := NextSequence(old(nextSequence), bootId)];
    }

    method AdvanceConfigRevision(next: nat)
      requires Valid()
      modifies this
      ensures Valid()
      ensures Contents() == old(Contents()).(revision := if next > old(revision) then next else old(revision))
    {
      if next > revision { revision := next; }
    }

    method UpsertDesiredUser(u: DesiredUser) returns (ok: bool)
      requires Valid()
      modifies this
      ensures Valid()
      ensures ok == Upsert(old(users), u).Some?
      ensures Contents() == if ok then old(Contents()).(users := Upsert(old(users), u).value) else old(Contents())
    {
      if u.bindingId in users && users[u.bindingId].revision >= u.revision { return true; }
      if exists b :: b in users && b != u.bindingId && users[b].email == u.email { return false; }
      var row := if u.bindingId in users then users[u.bindingId]
        else UserRow(u.email, u.uuid, u.flow, u.enabled, u.revision, u.quota, u.allowance, 0, 0, false, 0, 0);
      row := row.(email := u.email, uuid := u.uuid, flow := u.flow, enabled := u.enabled,
                  revision := u.revision, quota := u.quota, allowance := u.allowance);
      users := users[u.bindingId := row];
      ok := true;
    }

    method UpdateQuota(b: string, quota: nat, rev: nat)
      requires Valid()
      modifies this
      ensures Valid() && Contents() == old(Contents()).(users := WithQuota(old(users), b, quota, rev))
    {
      if b !in users || users[b].revision > rev { return; }
      users := users[b := users[b].(quota := quota, revision := rev, offlineUsed := 0)];
    }

    method SetUserEnabled(b: string, enabled: bool, rev: nat)
      requires Valid()
      modifies this
      ensures Valid() && Contents() == old(Contents()).(users := WithEnabled(old(users), b, enabled, rev))
    {
      if b !in users || users[b].revision > rev { return; }
      users := users[b := users[b].(enabled := enabled, revision := rev)];
    }

    method DeleteUser(b: string)
      requires Valid()
      modifies this
      ensures Valid() && Contents() == old(Contents()).(users := old(users) - {b})
    {
      users := users - {b};
    }

    method ReplaceDesiredUsers(us: seq<DesiredUser>, rev: nat) returns (ok: bool)
      requires Valid()
      modifies this
      ensures Valid()
      ensures ok == Replace(old(users), us).Some?
      ensures Contents() == if ok then old(Contents()).(users := Replace(old(users), us).value, revision := rev) else old(Contents())
    {
      var before := users;
      for i := 0 to |us|
        invariant Valid() && Contents() == old(Contents()).(users := users)
        invariant UpsertAll(before, us[..i]) == Some(users)
      {
        assert us[..i + 1][..i] == us[..i];
        ok := UpsertDesiredUser(us[i]);
        if !ok {
          UpsertFailureStays(before, us, i + 1);
          users := before;
          return;
        }
      }
      assert us[..|us|] == us;
      DeleteOthers(us);
      revision := rev;
      ok := true;
    }

    /** Rows no user of the list names are deleted. */
    method DeleteOthers(us: seq<DesiredUser>)
      requires Valid()
      modifies this
      ensures Valid() && Contents() == old(Contents()).(users := users)
      ensures users == map b | b in old(users) && b in Bindings(us) :: old(users)[b]
    {
      ghost var all := users;
      var rest := users.Keys;
      while rest != {}
        invariant Contents() == old(Contents()).(users := users) && OthersDeleted(all, us, rest, users)
        decreases |rest|
      {
        var b :| b in rest;
        if forall u <- us :: u.bindingId != b { users := users - {b}; }
        rest := rest - {b};
      }
    }

    method ApplyConfigSnapshot(rev: nat, controlMode: ControlMode, us: seq<DesiredUser>) returns (o: SnapshotOutcome)
      requires Valid()
      modifies this
      ensures Valid()
      ensures o == if rev < old(revision) then Stale else if Replace(old(users), us).None? then Conflicted else Applied
      ensures Contents() ==
                if o.Applied? then old(Contents()).(users := Replace(old(users), us).value, mode := controlMode, revision := rev)
                else old(Contents())
    {
      if rev < revision { return Stale; }
      var ok := ReplaceDesiredUsers(us, rev);
      if !ok { return Conflicted; }
      mode, revision := controlMode, rev;
      return Applied;
    }

    method HasUsageDisabledUsers() returns (r: bool)
      ensures r == HasUsageDisabled(users)
    {
      var rest := users.Keys;
      while rest != {}
        invariant rest <= users.Keys
        invariant forall b :: b in users && b !in rest ==> !UsageDisabled(users[b])
        decreases |rest|
      {
        var b :| b in rest;
        var row := users[b];
        if !row.enabled && (row.quota == 0 || (row.offlineUsed > 0 && row.offlineUsed >= row.allowance)) {
          assert UsageDisabled(users[b]);
          return true;
        }
        rest := rest - {b};
      }
      return false;
    }

    method RestoreBackendConfirmedUsers(us: seq<DesiredUser>)
      requires Valid()
      modifies this
      ensures Valid() && Contents() == old(Contents()).(users := RestoreAll(old(users), us))
    {
      for i := 0 to |us|
        invariant Valid() && Contents() == old(Contents()).(users := users)
        invariant users == RestoreAll(old(users), us[..i])
      {
        assert us[..i + 1][..i] == us[..i];
        var u := us[i];
        if u.bindingId in users {
          var row := users[u.bindingId];
          var confirmed := if row.quota < u.quota then row.quota else u.quota;
          users := users[u.bindingId := row.(enabled := u.enabled && confirmed > 0, quota := confirmed, offlineUsed := 0)];
        }
      }
      assert us[..|us|] == us;
    }

    /** The arithmetic of one observation: rollback, deltas, what is left of quota and allowance. */
    static method MeterRow(b: string, row: UserRow, c: Counter, online: bool) returns (updated: UserRow, entry: Entry)
      ensures updated == Observed(row, c.up, c.down, online) && entry == EntryFor(b, row, c.up, c.down)
      ensures entry.generation == updated.generation
      ensures updated.generation > row.generation <==> row.initialized && (c.up < row.up || c.down < row.down)
      ensures row.generation <= updated.generation <= row.generation + 1
      ensures updated.initialized && updated.up == entry.up == c.up && updated.down == entry.down == c.down
      ensures !row.initialized ==> entry.deltaUp == 0 && entry.deltaDown == 0
      ensures row.initialized && updated.generation > row.generation ==> entry.deltaUp == c.up && entry.deltaDown == c.down
      ensures row.initialized && updated.generation == row.generation ==>
                entry.deltaUp == c.up - row.up && entry.deltaDown == c.down - row.down
    {
      var rolledBack := row.initialized && (c.up < row.up || c.down < row.down);
      var generation := row.generation + if rolledBack then 1 else 0;
      var deltaUp := if !row.initialized then 0 else if rolledBack then c.up else c.up - row.up;
      var deltaDown := if !row.initialized then 0 else if rolledBack then c.down else c.down - row.down;
      var delta := deltaUp + deltaDown;
      var quota := if row.quota > delta then row.quota - delta else 0;
      var offline := if online then 0 else row.offlineUsed + delta;
      var shouldDisable := quota == 0 || (!online && offline >= row.allowance);
      updated := row.(generation := generation, initialized := true, up := c.up, down := c.down,
                      quota := quota, offlineUsed := offline, enabled := !shouldDisable);
      entry := Entry(b, generation, c.up, c.down, deltaUp, deltaDown);
    }

    /** One counter of a sample: the row of its email, unless it is disabled, is metered and may be cut off. */
    method MeterCounter(c: Counter, online: bool, ghost so: Sampled) returns (entry: Option<Entry>, cutOff: bool)
      requires Valid() && so.users == users
      modifies this`users
      ensures Valid() && Contents() == old(Contents()).(users := users)
      ensures entry.None? ==> SampleOne(so, c, online) == so && users == old(users)
      ensures entry.Some? ==>
                entry.value.bindingId in users
                && SampleOne(so, c, online) ==
                   Sampled(users, so.entries + [entry.value],
                           if cutOff then so.disabled + [users[entry.value.bindingId].email] else so.disabled)
    {
      if !exists b :: b in users && users[b].email == c.email { return None, false; }
      var b :| b in users && users[b].email == c.email;
      var row := users[b];
      SampleOneAt(so, c, online, b);
      if !row.enabled { return None, false; }
      var updated, e := MeterRow(b, row, c, online);
      users := users[b := updated];
      return Some(e), !updated.enabled;
    }

    /** One metering sample: rows updated, and a batch numbered next for this boot if any row was metered. */
    method RecordSample(counters: seq<Counter>, online: bool) returns (batch: Option<Batch>, disabled: seq<string>)
      requires Valid()
      modifies this
      ensures Valid()
      ensures var s := SampleAll(old(users), counters, online);
              && users == s.users && disabled == s.disabled
              && batch == (if s.entries == [] then None
                           else Some(Batch(boot, NextSequence(old(nextSequence), boot), s.entries)))
      ensures Contents() == old(Contents()).(users := users, batches := batches, next := nextSequence)
      ensures Queue() == if batch.None? then old(Queue()) else Q.Next(old(Queue()), Q.Emit(batch.value.samples))
    {
      var samples: seq<Entry> := [];
      disabled := [];
      for i := 0 to |counters|
        invariant Valid() && Contents() == old(Contents()).(users := users)
        invariant SampleAll(old(users), counters[..i], online) == Sampled(users, samples, disabled)
      {
        assert counters[..i + 1][..i] == counters[..i];
        ghost var before := Sampled(users, samples, disabled);
        var entry, cutOff := MeterCounter(counters[i], online, before);
        if entry.Some? {
          samples := samples + [entry.value];
          if cutOff { disabled := disabled + [users[entry.value.bindingId].email]; }
        }
      }
      assert counters[..|counters|] == counters;
      if samples == [] { return None, disabled; }
      var sequence := NextSequence(nextSequence, boot);
      var b := Batch(boot, sequence, samples);
      batches := batches + [b];
      nextSequence := nextSequence[boot := sequence + 1];
      return Some(b), disabled;
    }

    method AckThrough(bootId: string, through: nat) returns (count: nat)
      requires Valid()
      modifies this
      ensures Valid() && Contents() == old(Contents()).(batches := Unacked(old(batches), bootId, through))
      ensures Queue() == Q.Next(old(Queue()), Q.Ack(bootId, through))
      ensures count == |old(batches)| - |batches|
    {
      var rows, kept := batches, [];
      count := 0;
      for i := 0 to |rows|
        invariant kept == Unacked(rows[..i], bootId, through)
        invariant count == i - |kept|
      {
        assert rows[..i + 1][..i] == rows[..i];
        if rows[i].boot == bootId && rows[i].sequence <= through {
          count := count + 1;
        } else {
          kept := kept + [rows[i]];
        }
      }
      assert rows[..|rows|] == rows;
      batches := kept;
    }

    /** The highest pending sequence of every boot that has one. */
    method PendingBatchWatermarks() returns (marks: map<string, nat>)
      ensures Q.Marks(Queue(), marks)
      ensures forall b :: b in marks ==> exists i :: 0 <= i < |batches| && batches[i].boot == b && batches[i].sequence == marks[b]
    {
      marks := map[];
      for i := 0 to |batches|
        invariant forall b :: b in marks <==> exists k :: 0 <= k < i && batches[k].boot == b
        invariant forall k :: 0 <= k < i ==> batches[k].boot in marks && batches[k].sequence <= marks[batches[k].boot]
        invariant forall b :: b in marks ==> exists k :: 0 <= k < i && batches[k].boot == b && batches[k].sequence == marks[b]
      {
        var row := batches[i];
        if row.boot !in marks || row.sequence > marks[row.boot] { marks := marks[row.boot := row.sequence]; }
      }
    }

    /** Some(result) when the command already completed; otherwise the row is ready for an execution. */
    method BeginCommand(id: string) returns (done: Option<CommandResult>)
      requires Valid()
      modifies this
      ensures Valid()
      ensures done.Some? <==> id in old(commands) && old(commands)[id].Some? && old(commands)[id].value.Completed?
      ensures done.Some? ==> done == old(commands)[id] && Contents() == old(Contents())
      ensures done.None? ==> Contents() == old(Contents()).(commands := old(commands)[id := None])
    {
      if id in commands && commands[id].Some? {
        if commands[id].value.Completed? { return commands[id]; }
        commands := commands[id := None];
        return None;
      }
      if id !in commands { commands := commands[id := None]; }
      assert commands == old(commands)[id := None];
      return None;
    }

    method CompleteCommand(id: string, result: CommandResult)
      requires Valid()
      modifies this
      ensures Valid()
      ensures Contents() == if id in old(commands) then old(Contents()).(commands := old(commands)[id := Some(result)]) else old(Contents())
    {
      if id in commands { commands := commands[id := Some(result)]; }
    }
  }

  /** Outside `rest`, only the bindings of the list are left. */
  ghost predicate OthersDeleted(all: Users, us: seq<DesiredUser>, rest: set<string>, users: Users) {
    && rest <= all.Keys
    && (forall b :: b in users <==> b in all && (b in rest || b in Bindings(us)))
    && (forall b :: b in users ==> users[b] == all[b])
  }

  /** A transaction that failed on a prefix of its upserts fails as a whole. */
  lemma {:induction false} UpsertFailureStays(users: Users, us: seq<DesiredUser>, i: nat)
    requires i <= |us| && UpsertAll(users, us[..i]).None?
    ensures UpsertAll(users, us).None?
    decreases |us| - i
  {
    if i < |us| {
      assert us[..i + 1][..i] == us[..i];
      UpsertFailureStays(users, us, i + 1);
    } else {
      assert us[..i] == us;
    }
  }
}
