/** The upload queue and the receiver's acceptance rule: exactly-once usage over an at-least-once channel. */
module UploadQueue {
  import opened Common
  import opened AgentTables

  // ----- The agent's half -----

  datatype Queue = Queue(batches: seq<Batch>, next: map<string, nat>, boot: string)

  datatype Event = Emit(samples: seq<Entry>) | Reboot(boot: string) | Ack(boot: string, through: nat)

  /** What RecordSample, InitializeBoot and AckThrough do to the queue. */
  function Next(q: Queue, e: Event): Queue {
    match e
    case Emit(samples) =>
      var sequence := NextSequence(q.next, q.boot);
      Queue(q.batches + [Batch(q.boot, sequence, samples)], q.next[q.boot := sequence + 1], q.boot)
    case Reboot(boot) => Queue(q.batches, q.next[boot := NextSequence(q.next, boot)], boot)
    case Ack(boot, through) => q.(batches := Unacked(q.batches, boot, through))
  }

  function After(q: Queue, run: seq<Event>): Queue {
    if |run| == 0 then q else Next(After(q, run[..|run| - 1]), Last(run))
  }

  /** The pending sequences of every boot are consecutive and end just below its next one. */
  predicate Consecutive(p: seq<Batch>, end: nat) {
    |p| < end && forall i :: 0 <= i < |p| ==> p[i].sequence == end - |p| + i
  }

  ghost predicate Gapless(q: Queue) {
    forall boot :: Consecutive(PendingOf(q.batches, boot), NextSequence(q.next, boot))
  }

  lemma {:induction false} AckOfPending(batches: seq<Batch>, acked: string, through: nat, boot: string)
    ensures PendingOf(Unacked(batches, acked, through), boot)
         == if boot == acked then Unacked(PendingOf(batches, boot), acked, through) else PendingOf(batches, boot)
  {
    if |batches| > 0 {
      var before := batches[..|batches| - 1];
      var last := Last(batches);
      AckOfPending(before, acked, through, boot);
      var u := Unacked(before, acked, through);
      var p := PendingOf(before, boot);
      assert (u + [last])[..|u|] == u && u + [] == u;
      assert (p + [last])[..|p|] == p && p + [] == p;
    }
  }

  lemma {:induction false} PendingBoot(batches: seq<Batch>, boot: string)
    ensures forall x <- PendingOf(batches, boot) :: x.boot == boot && x in batches
    ensures forall x <- batches :: x.boot == boot ==> x in PendingOf(batches, boot)
  {
    if |batches| > 0 {
      PendingBoot(batches[..|batches| - 1], boot);
      assert batches == batches[..|batches| - 1] + [Last(batches)];
    }
  }

  /** How many of `n` batches numbered from `first` an ack takes away. */
  function Gone(n: nat, first: nat, through: nat): (g: nat)
    ensures g <= n
  {
    if through < first then 0 else if through - first >= n then n else through - first + 1
  }

  /** Acking a consecutive stretch leaves one of its tails. */
  lemma {:induction false} AckLeavesTail(p: seq<Batch>, boot: string, first: nat, through: nat)
    requires forall i :: 0 <= i < |p| ==> p[i].sequence == first + i && p[i].boot == boot
    ensures Unacked(p, boot, through) == p[Gone(|p|, first, through)..]
  {
    if |p| > 0 {
      var n := |p| - 1;
      AckLeavesTail(p[..n], boot, first, through);
      AckOfLast(p, boot, first, through);
    }
  }

  lemma AckOfLast(p: seq<Batch>, boot: string, first: nat, through: nat)
    requires |p| > 0 && Last(p).sequence == first + |p| - 1 && Last(p).boot == boot
    requires Unacked(p[..|p| - 1], boot, through) == p[..|p| - 1][Gone(|p| - 1, first, through)..]
    ensures Unacked(p, boot, through) == p[Gone(|p|, first, through)..]
  {
    var n := |p| - 1;
    var before, g := p[..n], Gone(n, first, through);
    if first + n <= through {
      assert before[g..] == [] && p[Gone(|p|, first, through)..] == [];
    } else {
      assert Gone(|p|, first, through) == g;
      assert before[g..] + [p[n]] == p[g..];
    }
  }

  lemma StepKeepsConsecutive(q: Queue, e: Event, boot: string)
    requires Consecutive(PendingOf(q.batches, boot), NextSequence(q.next, boot))
    ensures Consecutive(PendingOf(Next(q, e).batches, boot), NextSequence(Next(q, e).next, boot))
  {
    match e {
      case Emit(samples) => EmitKeepsConsecutive(q, samples, boot);
      case Reboot(b) =>
      case Ack(b, through) => AckKeepsConsecutive(q, b, through, boot);
    }
  }

  lemma EmitKeepsConsecutive(q: Queue, samples: seq<Entry>, boot: string)
    requires Consecutive(PendingOf(q.batches, boot), NextSequence(q.next, boot))
    ensures Consecutive(PendingOf(Next(q, Emit(samples)).batches, boot), NextSequence(Next(q, Emit(samples)).next, boot))
  {
    var x := Batch(q.boot, NextSequence(q.next, q.boot), samples);
    PendingPush(q.batches, x, boot);
    if boot == q.boot { ConsecutivePush(PendingOf(q.batches, boot), NextSequence(q.next, boot), x); }
  }

  lemma PendingPush(batches: seq<Batch>, x: Batch, boot: string)
    ensures PendingOf(batches + [x], boot) == PendingOf(batches, boot) + if x.boot == boot then [x] else []
  {
    assert (batches + [x])[..|batches|] == batches;
  }

  lemma ConsecutivePush(p: seq<Batch>, end: nat, x: Batch)
    requires Consecutive(p, end) && x.sequence == end
    ensures Consecutive(p + [x], end + 1)
  {
  }

  lemma AckKeepsConsecutive(q: Queue, acked: string, through: nat, boot: string)
    requires Consecutive(PendingOf(q.batches, boot), NextSequence(q.next, boot))
    ensures Consecutive(PendingOf(Unacked(q.batches, acked, through), boot), NextSequence(q.next, boot))
  {
    AckOfPending(q.batches, acked, through, boot);
    if boot == acked {
      var p := PendingOf(q.batches, boot);
      PendingBoot(q.batches, boot);
      AckLeavesTail(p, boot, NextSequence(q.next, boot) - |p|, through);
    }
  }

  lemma StepKeepsGapless(q: Queue, e: Event)
    requires Gapless(q)
    ensures Gapless(Next(q, e))
  {
    forall boot ensures Consecutive(PendingOf(Next(q, e).batches, boot), NextSequence(Next(q, e).next, boot)) {
      StepKeepsConsecutive(q, e, boot);
    }
  }

  lemma {:induction false} RunKeepsGapless(q: Queue, run: seq<Event>)
    requires Gapless(q)
    ensures Gapless(After(q, run))
  {
    if |run| > 0 {
      RunKeepsGapless(q, run[..|run| - 1]);
      StepKeepsGapless(After(q, run[..|run| - 1]), Last(run));
    }
  }

  /** In every run of samples, restarts and acks from a fresh database, however acks repeat or arrive late, the queue stays gap-free. */
  lemma EveryRunIsGapless(boot: string, run: seq<Event>)
    ensures Gapless(After(Queue([], map[boot := 1], boot), run))
  {
    RunKeepsGapless(Queue([], map[boot := 1], boot), run);
  }

  // ----- Watermarks attached to disable and remove results -----

  /** A batch that was numbered before this state. */
  predicate Numbered(q: Queue, x: Batch) { x.sequence < NextSequence(q.next, x.boot) }

  lemma {:induction false} UnackedMembers(batches: seq<Batch>, boot: string, through: nat)
    ensures forall x :: x in Unacked(batches, boot, through) <==> x in batches && !(x.boot == boot && x.sequence <= through)
  {
    if |batches| > 0 {
      UnackedMembers(batches[..|batches| - 1], boot, through);
      assert batches == batches[..|batches| - 1] + [Last(batches)];
    }
  }

  lemma {:induction false} NumberedForever(q: Queue, run: seq<Event>, x: Batch)
    requires Numbered(q, x)
    ensures Numbered(After(q, run), x)
  {
    if |run| > 0 { NumberedForever(q, run[..|run| - 1], x); }
  }

  /** A numbered batch that is not pending never becomes pending again. */
  lemma {:induction false} GoneForever(q: Queue, run: seq<Event>, x: Batch)
    requires Numbered(q, x) && x !in q.batches
    ensures x !in After(q, run).batches
  {
    if |run| > 0 {
      var before := After(q, run[..|run| - 1]);
      GoneForever(q, run[..|run| - 1], x);
      NumberedForever(q, run[..|run| - 1], x);
      match Last(run) {
        case Ack(b, through) => UnackedMembers(before.batches, b, through);
        case Emit(samples) =>
        case Reboot(b) =>
      }
    }
  }

  lemma {:induction false} AckedIsGone(q: Queue, run: seq<Event>, i: nat, x: Batch)
    requires Numbered(q, x) && i < |run| && run[i].Ack? && run[i].boot == x.boot && run[i].through >= x.sequence
    ensures x !in After(q, run).batches
  {
    var n := |run| - 1;
    if i == n {
      UnackedMembers(After(q, run[..n]).batches, x.boot, run[i].through);
    } else {
      AckedIsGone(q, run[..n], i, x);
      NumberedForever(q, run[..n], x);
      GoneForever(After(q, run[..n]), [Last(run)], x);
      assert [Last(run)][..0] == [];
      assert After(After(q, run[..n]), [Last(run)]) == After(q, run);
    }
  }

  /** The watermarks PendingBatchWatermarks reports. */
  ghost predicate Marks(q: Queue, marks: map<string, nat>) {
    && (forall b :: b in marks <==> exists i :: 0 <= i < |q.batches| && q.batches[i].boot == b)
    && (forall i :: 0 <= i < |q.batches| ==> q.batches[i].boot in marks && q.batches[i].sequence <= marks[q.batches[i].boot])
  }

  /**
   * Once every watermark reported with a disable or remove result is acknowledged, whatever
   * samples, restarts and other acks came in between, nothing metered up to that command is pending.
   */
  lemma WatermarksCoverEverything(q: Queue, marks: map<string, nat>, run: seq<Event>, x: Batch)
    requires Marks(q, marks) && Numbered(q, x)
    requires forall b :: b in marks ==> exists i :: 0 <= i < |run| && run[i].Ack? && run[i].boot == b && run[i].through >= marks[b]
    ensures x !in After(q, run).batches
  {
    if x in q.batches {
      var k :| 0 <= k < |q.batches| && q.batches[k] == x;
      var i :| 0 <= i < |run| && run[i].Ack? && run[i].boot == x.boot && run[i].through >= marks[x.boot];
      AckedIsGone(q, run, i, x);
    } else {
      GoneForever(q, run, x);
    }
  }

  /** In a gap-free queue a watermark is the last number handed out. */
  lemma WatermarkIsLastNumber(q: Queue, marks: map<string, nat>, b: string)
    requires Gapless(q) && Marks(q, marks) && b in marks
    requires exists i :: 0 <= i < |q.batches| && q.batches[i].boot == b && q.batches[i].sequence == marks[b]
    ensures marks[b] == NextSequence(q.next, b) - 1
  {
    PendingBoot(q.batches, b);
    var p := PendingOf(q.batches, b);
    assert Consecutive(p, NextSequence(q.next, b));
    var i :| 0 <= i < |q.batches| && q.batches[i].boot == b && q.batches[i].sequence == marks[b];
    assert q.batches[i] in p;
    assert Last(p) in p;
    var k :| 0 <= k < |q.batches| && q.batches[k] == Last(p);
  }

  // ----- The receiver's half -----

  datatype Key = Key(boot: string, sequence: nat)

  function KeyOf(x: Batch): Key { Key(x.boot, x.sequence) }

  datatype Acceptance = Acceptance(accepted: map<Key, Batch>, conflicts: seq<Key>)

  /** The first batch under a key is kept; a later one that differs is reported. */
  function Accept(a: Acceptance, x: Batch): Acceptance {
    if KeyOf(x) !in a.accepted then a.(accepted := a.accepted[KeyOf(x) := x])
    else if a.accepted[KeyOf(x)] != x then a.(conflicts := a.conflicts + [KeyOf(x)])
    else a
  }

  function AcceptAll(xs: seq<Batch>): Acceptance {
    if |xs| == 0 then Acceptance(map[], []) else Accept(AcceptAll(xs[..|xs| - 1]), Last(xs))
  }

  method SimulateIdempotentBatchAcceptance(xs: seq<Batch>) returns (accepted: map<Key, Batch>, conflicts: seq<Key>)
    ensures Acceptance(accepted, conflicts) == AcceptAll(xs)
  {
    accepted, conflicts := map[], [];
    for i := 0 to |xs|
      invariant Acceptance(accepted, conflicts) == AcceptAll(xs[..i])
    {
      assert xs[..i + 1][..i] == xs[..i];
      var key := KeyOf(xs[i]);
      if key !in accepted {
        accepted := accepted[key := xs[i]];
      } else if accepted[key] != xs[i] {
        conflicts := conflicts + [key];
      }
    }
    assert xs[..|xs|] == xs;
  }

  /** The first batch with a key. */
  predicate FirstWithKey(xs: seq<Batch>, i: nat)
    requires i < |xs|
  {
    forall j :: 0 <= j < i ==> KeyOf(xs[j]) != KeyOf(xs[i])
  }

  /** The first batch that comes under a key is the one kept. */
  lemma {:induction false} FirstBatchWins(xs: seq<Batch>, i: nat)
    requires i < |xs| && FirstWithKey(xs, i)
    ensures KeyOf(xs[i]) in AcceptAll(xs).accepted && AcceptAll(xs).accepted[KeyOf(xs[i])] == xs[i]
  {
    var n := |xs| - 1;
    if i < n {
      FirstBatchWins(xs[..n], i);
    } else if KeyOf(xs[n]) in AcceptAll(xs[..n]).accepted {
      var j := NothingElseIsAccepted(xs[..n], KeyOf(xs[n]));
      assert false;
    }
  }

  /** Whatever is accepted under a key is the first batch that came under it. */
  lemma {:induction false} NothingElseIsAccepted(xs: seq<Batch>, k: Key) returns (i: nat)
    requires k in AcceptAll(xs).accepted
    ensures i < |xs| && KeyOf(xs[i]) == k && FirstWithKey(xs, i)
  {
    var n := |xs| - 1;
    if k in AcceptAll(xs[..n]).accepted {
      i := NothingElseIsAccepted(xs[..n], k);
    } else {
      i := n;
      forall j | 0 <= j < n ensures KeyOf(xs[j]) != k {
        if KeyOf(xs[j]) == k { SomeBatchIsAccepted(xs[..n], j); }
      }
    }
  }

  lemma {:induction false} SomeBatchIsAccepted(xs: seq<Batch>, i: nat)
    requires i < |xs|
    ensures KeyOf(xs[i]) in AcceptAll(xs).accepted
  {
    if i < |xs| - 1 { SomeBatchIsAccepted(xs[..|xs| - 1], i); }
  }

  /** Batches whose keys identify them, in any order and however often repeated, are accepted once each, without conflict. */
  lemma {:induction false} AcceptanceIgnoresOrder(xs: seq<Batch>)
    requires forall x, y :: x in xs && y in xs && KeyOf(x) == KeyOf(y) ==> x == y
    ensures AcceptAll(xs).conflicts == []
    ensures AcceptAll(xs).accepted.Keys == set x | x in xs :: KeyOf(x)
    ensures forall x <- xs :: KeyOf(x) in AcceptAll(xs).accepted && AcceptAll(xs).accepted[KeyOf(x)] == x
  {
    if |xs| > 0 {
      var before := xs[..|xs| - 1];
      assert xs == before + [Last(xs)];
      AcceptanceIgnoresOrder(before);
    }
  }

  /** Batch `i` is not the one kept under its key: an earlier one was, and it differs. */
  ghost predicate Differs(xs: seq<Batch>, i: nat)
    requires i < |xs|
  {
    exists j: nat :: j < i && FirstWithKey(xs, j) && KeyOf(xs[j]) == KeyOf(xs[i]) && xs[j] != xs[i]
  }

  /** The keys of the first `n` batches that differ from what was kept, in order, each time they do. */
  ghost function DifferingKeys(xs: seq<Batch>, n: nat): seq<Key>
    requires n <= |xs|
  {
    if n == 0 then []
    else DifferingKeys(xs, n - 1) + if Differs(xs, n - 1) then [KeyOf(xs[n - 1])] else []
  }

  /** The conflicts reported are exactly the batches that differ from the first one under their key. */
  lemma {:induction false} ConflictsAreReported(xs: seq<Batch>, n: nat)
    requires n <= |xs|
    ensures AcceptAll(xs[..n]).conflicts == DifferingKeys(xs, n)
  {
    if n > 0 {
      ConflictsAreReported(xs, n - 1);
      OneMore(xs, n - 1, AcceptAll(xs[..n - 1]), DifferingKeys(xs, n - 1));
    }
  }

  lemma OneMore(xs: seq<Batch>, n: nat, before: Acceptance, keys: seq<Key>)
    requires n < |xs| && before == AcceptAll(xs[..n]) && keys == DifferingKeys(xs, n) == before.conflicts
    ensures AcceptAll(xs[..n + 1]) == Accept(before, xs[n]) && AcceptAll(xs[..n + 1]).conflicts == DifferingKeys(xs, n + 1)
  {
    TakeSnoc(xs, n);
    Snoc(xs[..n], xs[n]);
    ConcatEmpty(keys);
    DiffersIffRefused(xs, n);
  }

  lemma DiffersIffRefused(xs: seq<Batch>, n: nat)
    requires n < |xs|
    ensures var known := AcceptAll(xs[..n]).accepted;
            Differs(xs, n) <==> KeyOf(xs[n]) in known && known[KeyOf(xs[n])] != xs[n]
  {
    var before, key := xs[..n], KeyOf(xs[n]);
    if key in AcceptAll(before).accepted {
      var i := NothingElseIsAccepted(before, key);
      FirstBatchWins(before, i);
      FirstIsFirst(xs, n, i);
    } else {
      forall j: nat | j < n ensures KeyOf(xs[j]) != key { SomeBatchIsAccepted(before, j); }
    }
  }

  lemma FirstIsFirst(xs: seq<Batch>, n: nat, i: nat)
    requires n < |xs| && i < n && FirstWithKey(xs[..n], i) && KeyOf(xs[i]) == KeyOf(xs[n])
    ensures FirstWithKey(xs, i)
    ensures Differs(xs, n) <==> xs[i] != xs[n]
  {
    forall j | 0 <= j < i ensures KeyOf(xs[j]) != KeyOf(xs[i]) { assert xs[..n][j] == xs[j]; }
    forall j: nat | j < n && FirstWithKey(xs, j) && KeyOf(xs[j]) == KeyOf(xs[n]) ensures j == i {}
  }

  // ----- The whole system -----

  /** `emitted`, `acked` are history: every batch ever queued, and the keys removed from the queue. */
  datatype System = System(
    queue: Queue, wire: set<Batch>, receiver: Acceptance, acks: set<(string, nat)>,
    emitted: seq<Batch>, acked: set<Key>)

  datatype Action =
    | Sample(samples: seq<Entry>)
    | Restart(boot: string)
    | Upload(index: nat)                       // any pending batch, any number of times
    | Receive(batch: Batch)                    // any batch ever uploaded, in any order, repeatedly
    | IssueAck(boot: string, through: nat)     // only prefixes the receiver holds
    | DeliverAck(boot: string, through: nat)   // any ack ever issued; those never delivered are lost

  predicate Enabled(s: System, a: Action) {
    match a
    case Sample(_) => true
    case Restart(_) => true
    case Upload(i) => i < |s.queue.batches|
    case Receive(x) => x in s.wire
    case IssueAck(b, n) => forall k | 1 <= k <= n :: Key(b, k) in s.receiver.accepted
    case DeliverAck(b, n) => (b, n) in s.acks
  }

  function Emitted(q: Queue, samples: seq<Entry>): Batch { Batch(q.boot, NextSequence(q.next, q.boot), samples) }

  function Step(s: System, a: Action): System
    requires Enabled(s, a)
  {
    match a
    case Sample(samples) => s.(queue := Next(s.queue, Emit(samples)), emitted := s.emitted + [Emitted(s.queue, samples)])
    case Restart(boot) => s.(queue := Next(s.queue, Reboot(boot)))
    case Upload(i) => s.(wire := s.wire + {s.queue.batches[i]})
    case Receive(x) => s.(receiver := Accept(s.receiver, x))
    case IssueAck(b, n) => s.(acks := s.acks + {(b, n)})
    case DeliverAck(b, n) =>
      s.(queue := Next(s.queue, Ack(b, n)),
         acked := s.acked + set x | x in s.queue.batches && x.boot == b && x.sequence <= n :: KeyOf(x))
  }

  function Start(boot: string): System {
    System(Queue([], map[boot := 1], boot), {}, Acceptance(map[], []), {}, [], {})
  }

  function Without(xs: seq<Batch>, keys: set<Key>): seq<Batch> {
    if |xs| == 0 then []
    else Without(xs[..|xs| - 1], keys) + if KeyOf(Last(xs)) in keys then [] else [Last(xs)]
  }

  predicate DistinctKeys(xs: seq<Batch>) {
    forall i, j :: 0 <= i < j < |xs| ==> KeyOf(xs[i]) != KeyOf(xs[j])
  }

  predicate NumberedAll(s: System) {
    forall x <- s.emitted :: 1 <= x.sequence < NextSequence(s.queue.next, x.boot)
  }

  predicate Numbers(s: System) { forall b :: b in s.queue.next ==> s.queue.next[b] >= 1 }

  ghost predicate ReceiverOk(s: System) {
    && s.receiver.conflicts == []
    && (forall x <- s.wire :: x in s.emitted)
    && (forall k :: k in s.receiver.accepted ==> s.receiver.accepted[k] in s.emitted && KeyOf(s.receiver.accepted[k]) == k)
    && (forall a <- s.acks :: forall k :: 1 <= k <= a.1 ==> Key(a.0, k) in s.receiver.accepted)
    && s.acked <= s.receiver.accepted.Keys
  }

  ghost predicate Inv(s: System) {
    && Numbers(s) && NumberedAll(s) && DistinctKeys(s.emitted)
    && s.queue.batches == Without(s.emitted, s.acked)
    && ReceiverOk(s)
  }

  lemma {:induction false} WithoutMembers(xs: seq<Batch>, keys: set<Key>)
    ensures forall x :: x in Without(xs, keys) <==> x in xs && KeyOf(x) !in keys
  {
    if |xs| > 0 {
      WithoutMembers(xs[..|xs| - 1], keys);
      assert xs == xs[..|xs| - 1] + [Last(xs)];
    }
  }

  /** Removing acked batches from the queue is removing their keys from the history. */
  lemma {:induction false} AckRemovesKeys(xs: seq<Batch>, keys: set<Key>, b: string, n: nat, more: set<Key>)
    requires forall x <- xs :: KeyOf(x) !in keys ==> (KeyOf(x) in more <==> x.boot == b && x.sequence <= n)
    ensures Unacked(Without(xs, keys), b, n) == Without(xs, keys + more)
  {
    if |xs| > 0 {
      var before := xs[..|xs| - 1];
      assert xs == before + [Last(xs)];
      AckRemovesKeys(before, keys, b, n, more);
      var w := Without(before, keys);
      assert (w + [Last(xs)])[..|w|] == w && w + [] == w;
      assert Without(before, keys + more) + [] == Without(before, keys + more);
    }
  }

  lemma AckedAreNumbered(s: System, k: Key)
    requires Inv(s) && k in s.acked
    ensures k.sequence < NextSequence(s.queue.next, k.boot)
  {
    assert s.receiver.accepted[k] in s.emitted;
  }

  lemma DistinctKeysPush(xs: seq<Batch>, x: Batch)
    requires DistinctKeys(xs) && forall y <- xs :: KeyOf(y) != KeyOf(x)
    ensures DistinctKeys(xs + [x])
  {
    forall i | 0 <= i < |xs| ensures KeyOf(xs[i]) != KeyOf(x) { assert xs[i] in xs; }
  }

  lemma WithoutPush(xs: seq<Batch>, keys: set<Key>, x: Batch)
    ensures Without(xs + [x], keys) == Without(xs, keys) + if KeyOf(x) in keys then [] else [x]
  {
    Snoc(xs, x);
  }

  lemma NumberedAllPush(s: System, x: Batch, next: map<string, nat>)
    requires NumberedAll(s) && x.sequence >= 1 && x.sequence == NextSequence(s.queue.next, x.boot)
    requires next == s.queue.next[x.boot := x.sequence + 1]
    ensures forall y <- s.emitted + [x] :: 1 <= y.sequence < NextSequence(next, y.boot)
  {
  }

  lemma SampleKeepsReceiver(s: System, samples: seq<Entry>)
    requires ReceiverOk(s)
    ensures ReceiverOk(Step(s, Sample(samples)))
  {
  }

  lemma SampleKeepsInv(s: System, samples: seq<Entry>)
    requires Inv(s)
    ensures Inv(Step(s, Sample(samples)))
  {
    var x := Emitted(s.queue, samples);
    forall k <- s.acked ensures k.sequence < NextSequence(s.queue.next, k.boot) { AckedAreNumbered(s, k); }
    assert KeyOf(x) !in s.acked;
    DistinctKeysPush(s.emitted, x);
    WithoutPush(s.emitted, s.acked, x);
    NumberedAllPush(s, x, s.queue.next[x.boot := x.sequence + 1]);
    SampleKeepsReceiver(s, samples);
  }

  /** Two batches ever emitted under one key are the same batch. */
  lemma KeyIdentifies(xs: seq<Batch>, x: Batch, y: Batch)
    requires DistinctKeys(xs) && x in xs && y in xs && KeyOf(x) == KeyOf(y)
    ensures x == y
  {
    var i :| 0 <= i < |xs| && xs[i] == x;
    var j :| 0 <= j < |xs| && xs[j] == y;
    assert i == j;
  }

  lemma ReceiveKeepsInv(s: System, x: Batch)
    requires Inv(s) && x in s.wire
    ensures Inv(Step(s, Receive(x)))
  {
    if KeyOf(x) in s.receiver.accepted {
      KeyIdentifies(s.emitted, x, s.receiver.accepted[KeyOf(x)]);
      assert Step(s, Receive(x)) == s;
    } else {
      assert ReceiverOk(Step(s, Receive(x)));
    }
  }

  lemma DeliverKeepsInv(s: System, b: string, n: nat)
    requires Inv(s) && (b, n) in s.acks
    ensures Inv(Step(s, DeliverAck(b, n)))
  {
    WithoutMembers(s.emitted, s.acked);
    var more := set x | x in s.queue.batches && x.boot == b && x.sequence <= n :: KeyOf(x);
    forall x <- s.emitted | KeyOf(x) !in s.acked
      ensures KeyOf(x) in more <==> x.boot == b && x.sequence <= n
    {
      assert x in s.queue.batches;
    }
    AckRemovesKeys(s.emitted, s.acked, b, n, more);
    forall k <- more ensures k in s.receiver.accepted {
      var x :| x in s.queue.batches && x.boot == b && x.sequence <= n && KeyOf(x) == k;
      assert x in s.emitted;
    }
    assert ReceiverOk(Step(s, DeliverAck(b, n)));
  }

  lemma StepKeepsInv(s: System, a: Action)
    requires Inv(s) && Enabled(s, a)
    ensures Inv(Step(s, a))
  {
    match a {
      case Sample(samples) => SampleKeepsInv(s, samples);
      case Restart(boot) =>
      case Upload(i) =>
        WithoutMembers(s.emitted, s.acked);
        assert s.queue.batches[i] in s.emitted;
      case Receive(x) => ReceiveKeepsInv(s, x);
      case IssueAck(b, n) =>
      case DeliverAck(b, n) => DeliverKeepsInv(s, b, n);
    }
  }

  predicate Legal(s: System, run: seq<Action>)
    decreases |run|
  {
    |run| > 0 ==> Enabled(s, run[0]) && Legal(Step(s, run[0]), run[1..])
  }

  function AfterRun(s: System, run: seq<Action>): System
    requires Legal(s, run)
    decreases |run|
  {
    if |run| == 0 then s else AfterRun(Step(s, run[0]), run[1..])
  }

  lemma {:induction false} EveryRunKeepsInv(s: System, run: seq<Action>)
    requires Inv(s) && Legal(s, run)
    ensures Inv(AfterRun(s, run))
    decreases |run|
  {
    if |run| > 0 {
      StepKeepsInv(s, run[0]);
      EveryRunKeepsInv(Step(s, run[0]), run[1..]);
    }
  }

  // ----- Numbers -----

  /** Every number a boot has handed out, from one on, belongs to a batch. */
  ghost predicate AllUsed(s: System) {
    forall b, k :: 1 <= k < NextSequence(s.queue.next, b) ==> Used(s.emitted, Key(b, k))
  }

  ghost predicate Used(xs: seq<Batch>, key: Key) { exists x :: x in xs && KeyOf(x) == key }

  lemma SampleUses(s: System, samples: seq<Entry>)
    requires AllUsed(s)
    ensures AllUsed(Step(s, Sample(samples)))
  {
    var x, t := Emitted(s.queue, samples), Step(s, Sample(samples));
    assert x in t.emitted;
    forall b, k | 1 <= k < NextSequence(t.queue.next, b) ensures Used(t.emitted, Key(b, k)) {
      if KeyOf(x) != Key(b, k) {
        assert Used(s.emitted, Key(b, k));
        var y :| y in s.emitted && KeyOf(y) == Key(b, k);
        assert y in t.emitted;
      }
    }
  }

  lemma {:induction false} EveryRunUsesNumbers(s: System, run: seq<Action>)
    requires AllUsed(s) && Legal(s, run)
    ensures AllUsed(AfterRun(s, run))
    decreases |run|
  {
    if |run| > 0 {
      if run[0].Sample? { SampleUses(s, run[0].samples); }
      EveryRunUsesNumbers(Step(s, run[0]), run[1..]);
    }
  }

  /**
   * Acks can always catch up: in every run, numbers start at one without a gap, so once the receiver
   * holds every batch it may acknowledge each boot up to its last number, and that empties the queue of it.
   */
  lemma AcksCatchUp(boot: string, run: seq<Action>, b: string, s: System)
    requires Legal(Start(boot), run) && s == AfterRun(Start(boot), run) && forall x <- s.emitted :: KeyOf(x) in s.receiver.accepted
    ensures NextSequence(s.queue.next, b) >= 1
    ensures Enabled(s, IssueAck(b, NextSequence(s.queue.next, b) - 1))
    ensures forall x <- Unacked(s.queue.batches, b, NextSequence(s.queue.next, b) - 1) :: x.boot != b
  {
    EveryRunKeepsInv(Start(boot), run);
    EveryRunUsesNumbers(Start(boot), run);
    LastNumber(s, b);
    AllAccepted(s, b, NextSequence(s.queue.next, b));
    NoneLeftOf(s, b, NextSequence(s.queue.next, b));
  }

  lemma LastNumber(s: System, b: string)
    requires Inv(s)
    ensures NextSequence(s.queue.next, b) >= 1
  {
  }

  lemma AllAccepted(s: System, b: string, next: nat)
    requires AllUsed(s) && next == NextSequence(s.queue.next, b) && forall x <- s.emitted :: KeyOf(x) in s.receiver.accepted
    ensures forall k :: 1 <= k < next ==> Key(b, k) in s.receiver.accepted
  {
    forall k | 1 <= k < next ensures Key(b, k) in s.receiver.accepted { assert Used(s.emitted, Key(b, k)); }
  }

  lemma NoneLeftOf(s: System, b: string, next: nat)
    requires Inv(s) && next == NextSequence(s.queue.next, b) && next >= 1
    ensures forall x <- Unacked(s.queue.batches, b, next - 1) :: x.boot != b
  {
    WithoutMembers(s.emitted, s.acked);
    UnackedMembers(s.queue.batches, b, next - 1);
  }

  // ----- Totals -----

  function EntryUsage(es: seq<Entry>, who: string): nat {
    if |es| == 0 then 0
    else EntryUsage(es[..|es| - 1], who) + if Last(es).bindingId == who then Last(es).deltaUp + Last(es).deltaDown else 0
  }

  function Usage(x: Batch, who: string): nat { EntryUsage(x.samples, who) }

  function TotalUsage(xs: seq<Batch>, who: string): nat {
    if |xs| == 0 then 0 else TotalUsage(xs[..|xs| - 1], who) + Usage(Last(xs), who)
  }

  function UsageIn(xs: seq<Batch>, keys: set<Key>, who: string): nat {
    if |xs| == 0 then 0
    else UsageIn(xs[..|xs| - 1], keys, who) + if KeyOf(Last(xs)) in keys then Usage(Last(xs), who) else 0
  }

  /** What the receiver bills: every accepted batch, once per key. */
  ghost function Billed(accepted: map<Key, Batch>, who: string): nat
    decreases |accepted|
  {
    if |accepted| == 0 then 0
    else
      var k :| k in accepted;
      Usage(accepted[k], who) + Billed(accepted - {k}, who)
  }

  lemma {:induction false} UsageWithoutKey(xs: seq<Batch>, keys: set<Key>, i: nat, who: string)
    requires DistinctKeys(xs) && i < |xs| && KeyOf(xs[i]) in keys
    ensures UsageIn(xs, keys, who) == UsageIn(xs, keys - {KeyOf(xs[i])}, who) + Usage(xs[i], who)
  {
    var n := |xs| - 1;
    if i == n {
      UsageOfOthers(xs[..n], keys, KeyOf(xs[i]), who);
    } else {
      UsageWithoutKey(xs[..n], keys, i, who);
    }
  }

  lemma {:induction false} UsageOfOthers(xs: seq<Batch>, keys: set<Key>, k: Key, who: string)
    requires forall x <- xs :: KeyOf(x) != k
    ensures UsageIn(xs, keys - {k}, who) == UsageIn(xs, keys, who)
  {
    if |xs| > 0 {
      assert xs == xs[..|xs| - 1] + [Last(xs)];
      UsageOfOthers(xs[..|xs| - 1], keys, k, who);
    }
  }

  lemma {:induction false} NoKeysNoUsage(xs: seq<Batch>, who: string)
    ensures UsageIn(xs, {}, who) == 0
  {
    if |xs| > 0 { NoKeysNoUsage(xs[..|xs| - 1], who); }
  }

  lemma BilledPicks(accepted: map<Key, Batch>, who: string) returns (k: Key)
    requires |accepted| > 0
    ensures k in accepted && Billed(accepted, who) == Usage(accepted[k], who) + Billed(accepted - {k}, who)
    ensures (accepted - {k}).Keys == accepted.Keys - {k}
  {
    k :| k in accepted && Billed(accepted, who) == Usage(accepted[k], who) + Billed(accepted - {k}, who);
  }

  lemma {:induction false} BilledIsUsage(xs: seq<Batch>, accepted: map<Key, Batch>, who: string)
    requires DistinctKeys(xs)
    requires forall k :: k in accepted ==> accepted[k] in xs && KeyOf(accepted[k]) == k
    ensures Billed(accepted, who) == UsageIn(xs, accepted.Keys, who)
    decreases |accepted|
  {
    if |accepted| == 0 {
      assert accepted.Keys == {};
      NoKeysNoUsage(xs, who);
    } else {
      var k := BilledPicks(accepted, who);
      var i :| 0 <= i < |xs| && xs[i] == accepted[k];
      BilledIsUsage(xs, accepted - {k}, who);
      UsageWithoutKey(xs, accepted.Keys, i, who);
    }
  }

  lemma {:induction false} TotalsSplit(xs: seq<Batch>, accepted: set<Key>, acked: set<Key>, who: string)
    requires acked <= accepted
    ensures TotalUsage(xs, who) + UsageIn(Without(xs, acked), accepted, who)
         == UsageIn(xs, accepted, who) + TotalUsage(Without(xs, acked), who)
  {
    if |xs| > 0 {
      var before := xs[..|xs| - 1];
      TotalsSplit(before, accepted, acked, who);
      var w := Without(before, acked);
      assert (w + [Last(xs)])[..|w|] == w && w + [] == w;
    }
  }

  /**
   * Exactly-once usage: in every run of samples, restarts, repeated and reordered uploads, lost
   * and late acks, each batch ever metered is queued or accepted, the receiver never sees a
   * conflict, and per user what was metered is what is billed plus what is queued and not yet
   * accepted: nothing is lost and nothing is billed twice.
   */
  lemma ExactlyOnce(boot: string, run: seq<Action>, who: string)
    requires Legal(Start(boot), run)
    ensures var s := AfterRun(Start(boot), run);
            && s.receiver.conflicts == []
            && (forall x <- s.emitted :: x in s.queue.batches || (KeyOf(x) in s.receiver.accepted && s.receiver.accepted[KeyOf(x)] == x))
            && TotalUsage(s.emitted, who) == Billed(s.receiver.accepted, who)
                 + TotalUsage(s.queue.batches, who) - UsageIn(s.queue.batches, s.receiver.accepted.Keys, who)
  {
    EveryRunKeepsInv(Start(boot), run);
    var s := AfterRun(Start(boot), run);
    WithoutMembers(s.emitted, s.acked);
    forall x <- s.emitted | x !in s.queue.batches
      ensures KeyOf(x) in s.receiver.accepted && s.receiver.accepted[KeyOf(x)] == x
    {
      KeyIdentifies(s.emitted, x, s.receiver.accepted[KeyOf(x)]);
    }
    BilledIsUsage(s.emitted, s.receiver.accepted, who);
    TotalsSplit(s.emitted, s.receiver.accepted.Keys, s.acked, who);
  }
}
