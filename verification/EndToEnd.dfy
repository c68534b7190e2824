/** From the counters of Xray to the bill: metering, the upload queue and the receiver as one system. */
module EndToEnd {
  import opened Common
  import opened AgentTables
  import M = Metering
  import Q = UploadQueue

  datatype Path = Path(world: M.World, system: Q.System)

  /** A transaction of the store, or whatever else happens to queue, channel and receiver. */
  datatype Action = Transact(event: M.Event) | Channel(action: Q.Action)

  predicate Enabled(p: Path, a: Action) {
    a.Channel? ==> !a.action.Sample? && Q.Enabled(p.system, a.action)
  }

  /** RecordSample: what a sample adds to the ledger it queues as one batch, if it is anything. */
  function Queued(p: Path, e: M.Event): Q.System
    requires UniqueEmails(p.world.users)
  {
    if e.Sample? && SampleAll(p.world.users, e.counters, e.online).entries != [] then
      Q.Step(p.system, Q.Sample(SampleAll(p.world.users, e.counters, e.online).entries))
    else p.system
  }

  function Next(p: Path, a: Action): Path
    requires Enabled(p, a) && UniqueEmails(p.world.users)
  {
    match a
    case Transact(e) => Path(M.Next(p.world, e), Queued(p, e))
    case Channel(x) => p.(system := Q.Step(p.system, x))
  }

  /** All the entries of some batches, in order. */
  function Samples(xs: seq<Batch>): seq<Entry> {
    if |xs| == 0 then [] else Samples(xs[..|xs| - 1]) + Last(xs).samples
  }

  ghost predicate Inv(p: Path) {
    M.Inv(p.world) && Q.Inv(p.system) && p.world.ledger == Samples(p.system.emitted)
  }

  lemma SamplesPush(xs: seq<Batch>, x: Batch)
    ensures Samples(xs + [x]) == Samples(xs) + x.samples
  {
    Snoc(xs, x);
  }

  lemma TransactKeepsInv(p: Path, e: M.Event)
    requires Inv(p)
    ensures Inv(Next(p, Transact(e)))
  {
    M.StepConserves(p.world, e);
    if e.Sample? {
      var entries := SampleAll(p.world.users, e.counters, e.online).entries;
      Q.StepKeepsInv(p.system, Q.Sample(entries));
      SamplesPush(p.system.emitted, Q.Emitted(p.system.queue, entries));
      ConcatEmpty(p.world.ledger);
    }
  }

  lemma StepKeepsInv(p: Path, a: Action)
    requires Inv(p) && Enabled(p, a)
    ensures Inv(Next(p, a))
  {
    match a {
      case Transact(e) => TransactKeepsInv(p, e);
      case Channel(x) => Q.StepKeepsInv(p.system, x);
    }
  }

  ghost predicate Legal(p: Path, run: seq<Action>)
    requires Inv(p)
    decreases |run|
  {
    |run| > 0 ==> Enabled(p, run[0]) && (StepKeepsInv(p, run[0]); Legal(Next(p, run[0]), run[1..]))
  }

  ghost function After(p: Path, run: seq<Action>): (q: Path)
    requires Inv(p) && Legal(p, run)
    ensures Inv(q)
    decreases |run|
  {
    if |run| == 0 then p
    else
      StepKeepsInv(p, run[0]);
      After(Next(p, run[0]), run[1..])
  }

  function Start(boot: string): (p: Path)
    ensures Inv(p)
  {
    Path(M.EMPTY, Q.Start(boot))
  }

  // ----- Totals -----

  lemma {:induction false} UsageOfConcat(s: seq<Entry>, t: seq<Entry>, who: string)
    ensures Q.EntryUsage(s + t, who) == Q.EntryUsage(s, who) + Q.EntryUsage(t, who)
  {
    if |t| == 0 {
      ConcatEmpty(s);
    } else {
      UsageOfConcat(s, t[..|t| - 1], who);
      assert (s + t)[..|s + t| - 1] == s + t[..|t| - 1];
    }
  }

  lemma {:induction false} BatchesCarryEntries(xs: seq<Batch>, who: string)
    ensures Q.EntryUsage(Samples(xs), who) == Q.TotalUsage(xs, who)
  {
    if |xs| > 0 {
      BatchesCarryEntries(xs[..|xs| - 1], who);
      UsageOfConcat(Samples(xs[..|xs| - 1]), Last(xs).samples, who);
    }
  }

  /** The usage of a row is the sum of the deltas of its own history. */
  lemma {:induction false} UsageIsDeltas(es: seq<Entry>, who: string)
    ensures Q.EntryUsage(es, who) == M.SumDeltas(M.Of(es, who), M.Up) + M.SumDeltas(M.Of(es, who), M.Down)
  {
    if |es| > 0 {
      var before := M.Of(es[..|es| - 1], who);
      UsageIsDeltas(es[..|es| - 1], who);
      Snoc(before, Last(es));
      ConcatEmpty(before);
    }
  }

  lemma {:induction false} NoneLeft(xs: seq<Batch>, keys: set<Q.Key>, who: string)
    ensures Q.UsageIn(Q.Without(xs, keys), keys, who) == 0
  {
    if |xs| > 0 {
      NoneLeft(xs[..|xs| - 1], keys, who);
      var w := Q.Without(xs[..|xs| - 1], keys);
      Snoc(w, Last(xs));
      ConcatEmpty(w);
    }
  }

  /** The usage of the queue is that of its accepted batches and that of the others. */
  lemma AcceptedOrNot(xs: seq<Batch>, keys: set<Q.Key>, who: string)
    ensures Q.TotalUsage(xs, who) == Q.UsageIn(xs, keys, who) + Q.TotalUsage(Q.Without(xs, keys), who)
  {
    Q.TotalsSplit(xs, keys, keys, who);
    NoneLeft(xs, keys, who);
  }

  /** By how much a row's counters have grown since it was first seen, over all generations. */
  function Grown(w: M.World, b: string, d: M.Direction): int
    requires b in w.users && b in w.birth && w.birth[b] <= |w.ledger|
  {
    var h := M.History(w, b);
    if |h| == 0 then 0 else M.Current(w.users[b], d) + M.ClosedGenerations(h, d) - M.Total(h[0], d)
  }

  lemma RowUsage(w: M.World, b: string)
    requires M.RowInv(w, b)
    ensures Q.EntryUsage(w.ledger, b) == Q.EntryUsage(w.ledger[..w.birth[b]], b) + Grown(w, b, M.Up) + Grown(w, b, M.Down)
  {
    var k := w.birth[b];
    assert w.ledger == w.ledger[..k] + w.ledger[k..];
    UsageOfConcat(w.ledger[..k], w.ledger[k..], b);
    UsageIsDeltas(w.ledger[k..], b);
  }

  /**
   * From counter to bill: in every run of store transactions, restarts, repeated and reordered
   * uploads, lost and late acks, what is billed for a row and what is queued for it and not yet
   * accepted add up to what its counters have grown by since they were first seen, every
   * generation included, and what earlier rows of the same binding had used.
   */
  lemma CountersAreBilled(boot: string, run: seq<Action>, b: string)
    requires Legal(Start(boot), run)
    ensures var p := After(Start(boot), run);
            var w, s := p.world, p.system;
            b in w.users ==>
              Q.Billed(s.receiver.accepted, b) + Q.TotalUsage(Q.Without(s.queue.batches, s.receiver.accepted.Keys), b)
              == Grown(w, b, M.Up) + Grown(w, b, M.Down) + Q.EntryUsage(w.ledger[..w.birth[b]], b)
  {
    var p := After(Start(boot), run);
    var w, s := p.world, p.system;
    if b in w.users {
      assert M.RowInv(w, b);
      RowUsage(w, b);
      BatchesCarryEntries(s.emitted, b);
      Q.BilledIsUsage(s.emitted, s.receiver.accepted, b);
      Q.TotalsSplit(s.emitted, s.receiver.accepted.Keys, s.acked, b);
      AcceptedOrNot(s.queue.batches, s.receiver.accepted.Keys, b);
    }
  }
}
