/**
 * withStateMutation (runner.ts): every operation that changes the agent's state waits for the
 * promise its predecessor left in `stateMutationTail` and resolves its own in a `finally`.
 * The calls interleave freely; a step of the machine is one resumption of one call.
 */
module StateMutation {
  import opened Common

  datatype Phase = Waiting | Running | Finished(threw: bool)

  /** A call awaits the promise `previous` and resolves the promise `own`. */
  datatype Call = Call(previous: nat, own: nat, phase: Phase)

  /** Promise `p` has been resolved iff `resolved[p]`; `tail` is the field stateMutationTail. */
  datatype State = State(resolved: seq<bool>, tail: nat, calls: seq<Call>)

  datatype Event =
    | Enter                         // a call links itself behind the tail
    | Start(call: nat)              // its await returns and the operation begins
    | Finish(call: nat, threw: bool) // the operation ends, either way; release() runs

  /** The field is initialised with a resolved promise. */
  const FRESH := State([true], 0, [])

  predicate Enabled(s: State, e: Event) {
    match e
    case Enter => true
    case Start(i) =>
      i < |s.calls| && s.calls[i].phase == Waiting && s.calls[i].previous < |s.resolved| && s.resolved[s.calls[i].previous]
    case Finish(i, _) => i < |s.calls| && s.calls[i].phase == Running && s.calls[i].own < |s.resolved|
  }

  function Next(s: State, e: Event): State
    requires Enabled(s, e)
  {
    match e
    case Enter =>
      State(s.resolved + [false], |s.resolved|, s.calls + [Call(s.tail, |s.resolved|, Waiting)])
    case Start(i) => s.(calls := s.calls[i := s.calls[i].(phase := Running)])
    case Finish(i, threw) =>
      s.(calls := s.calls[i := s.calls[i].(phase := Finished(threw))], resolved := s.resolved[s.calls[i].own := true])
  }

  ghost predicate Legal(events: seq<Event>)
    decreases |events|, 0
  {
    |events| > 0 ==>
      (Legal(events[..|events| - 1]) && Enabled(After(events[..|events| - 1]), Last(events)))
  }

  ghost function After(events: seq<Event>): State
    requires Legal(events)
    decreases |events|, 1
  {
    if |events| == 0 then FRESH else Next(After(events[..|events| - 1]), Last(events))
  }

  /** The chain: call `i` waits for promise `i`, which call `i - 1` resolves exactly when it ends. */
  ghost predicate Chained(s: State) {
    && |s.resolved| == |s.calls| + 1 && s.tail == |s.calls| && s.resolved[0]
    && forall i :: 0 <= i < |s.calls| ==>
         (s.calls[i].previous == i && s.calls[i].own == i + 1 && s.resolved[i + 1] == s.calls[i].phase.Finished?)
  }

  /** Operations begin in the order of the calls, each after all earlier ones have ended. */
  ghost predicate Ordered(s: State) {
    forall i, j :: 0 <= i < j < |s.calls| && s.calls[j].phase != Waiting ==> s.calls[i].phase.Finished?
  }

  lemma {:induction false} NextKeepsChain(s: State, e: Event)
    requires Chained(s) && Enabled(s, e)
    ensures Chained(Next(s, e))
  {
  }

  lemma {:induction false} EveryRunIsChained(events: seq<Event>)
    requires Legal(events)
    ensures Chained(After(events)) && Ordered(After(events))
    decreases |events|
  {
    if |events| > 0 {
      var s, e := After(events[..|events| - 1]), Last(events);
      EveryRunIsChained(events[..|events| - 1]);
      NextKeepsChain(s, e);
      match e
      case Enter =>
      case Start(i) => EarlierHaveEnded(s, i);
      case Finish(i, threw) =>
    }
  }

  lemma EarlierHaveEnded(s: State, i: nat)
    requires Chained(s) && Ordered(s) && Enabled(s, Start(i))
    ensures forall j :: 0 <= j < i ==> s.calls[j].phase.Finished?
  {
    if i > 0 {
      assert s.resolved[(i - 1) + 1];
      assert s.calls[i - 1].phase.Finished?;
    }
  }

  /** Mutual exclusion: never two operations at once. */
  lemma OneAtATime(events: seq<Event>, i: nat, j: nat)
    requires Legal(events) && i < |After(events).calls| && j < |After(events).calls|
    requires After(events).calls[i].phase == Running && After(events).calls[j].phase == Running
    ensures i == j
  {
    EveryRunIsChained(events);
  }

  /** First come, first served: a call that begins finds all earlier calls ended and no later one begun. */
  lemma FirstComeFirstServed(events: seq<Event>, i: nat)
    requires Legal(events) && Enabled(After(events), Start(i))
    ensures forall j :: 0 <= j < |After(events).calls| ==>
              if j < i then After(events).calls[j].phase.Finished? else After(events).calls[j].phase == Waiting
  {
    EveryRunIsChained(events);
    EarlierHaveEnded(After(events), i);
    var s := After(events);
    forall j | i < j < |s.calls| ensures s.calls[j].phase == Waiting {
      assert s.calls[i].phase == Waiting;
    }
  }

  function FirstOpen(calls: seq<Call>): (i: nat)
    ensures i <= |calls| && forall j :: 0 <= j < i ==> calls[j].phase.Finished?
    ensures i < |calls| ==> !calls[i].phase.Finished?
  {
    if |calls| == 0 || !calls[0].phase.Finished? then 0 else 1 + FirstOpen(calls[1..])
  }

  /**
   * No wake-up is lost, even when operations throw: unless every call has ended, the first open
   * one can take its next step.
   */
  lemma NeverStuck(events: seq<Event>, threw: bool)
    requires Legal(events)
    ensures var s := After(events); var i := FirstOpen(s.calls);
            i < |s.calls| ==> if s.calls[i].phase == Running then Enabled(s, Finish(i, threw)) else Enabled(s, Start(i))
  {
    EveryRunIsChained(events);
    var s := After(events);
    var i := FirstOpen(s.calls);
    if 0 < i < |s.calls| {
      assert s.calls[i - 1].phase.Finished?;
      assert s.resolved[(i - 1) + 1];
    }
  }
}
