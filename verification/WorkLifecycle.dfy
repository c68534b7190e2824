/**
 * The drain protocol of the API process (work-lifecycle.ts). Requests, tracked and deferred work,
 * streams and fences interleave freely with a drain that polls until the server is closed and no
 * work is left.
 */
module WorkLifecycle {
  import opened Common

  type Error = string

  /** Everything that can happen to the registry, one callback or call at a time. */
  datatype Event =
    | Enter                               // intercept, track, awaitWithBudget, defer
    | Leave(token: nat)                   // the closure enter() returned, any number of times
    | DeferredFails(token: nat, error: Error)
    | Request                             // the middleware
    | Fence(error: Error)                 // fence, cancelDrain
    | Register(closer: nat)               // onDrain
    | Unregister(closer: nat)             // the closure onDrain() returned
    | Drain                               // drain() is called
    | ServerClosed(problem: Option<Error>) // the callback of server.close; not running is no problem

  /**
   * `issued` counts the tokens handed out, `started` whether drain got past its guard, `called` the
   * stream closers run; the other fields are those of the class.
   */
  datatype State = State(draining: bool, started: bool, issued: nat, active: set<nat>,
                         closers: set<nat>, called: set<nat>, failure: Option<Error>, closed: bool)

  const FRESH := State(false, false, 0, {}, {}, {}, None, false)

  /** Only closures that exist can be called. */
  predicate Enabled(s: State, e: Event) {
    match e
    case Leave(t) => t < s.issued
    case DeferredFails(t, _) => t < s.issued
    case ServerClosed(_) => s.started
    case _ => true
  }

  function Entered(s: State): State { s.(issued := s.issued + 1, active := s.active + {s.issued}) }

  function Next(s: State, e: Event): State {
    match e
    case Enter => Entered(s)
    case Leave(t) => s.(active := s.active - {t})
    case DeferredFails(t, error) => s.(active := s.active - {t}, failure := Some(error))
    case Request => if s.draining then s else Entered(s)
    case Fence(error) => s.(draining := true, failure := Some(error))
    case Register(c) => if s.draining then s.(called := s.called + {c}) else s.(closers := s.closers + {c})
    case Unregister(c) => s.(closers := s.closers - {c})
    case Drain =>
      if s.draining then s
      else s.(draining := true, started := true, closers := {}, called := s.called + s.closers)
    case ServerClosed(error) => s.(closed := true, failure := if error.Some? then error else s.failure)
  }

  function After(h: seq<Event>): State { if |h| == 0 then FRESH else Next(After(h[..|h| - 1]), Last(h)) }

  ghost predicate Legal(h: seq<Event>) {
    |h| > 0 ==> (Legal(h[..|h| - 1]) && Enabled(After(h[..|h| - 1]), Last(h)))
  }

  lemma AfterPush(h: seq<Event>, e: Event)
    ensures After(h + [e]) == Next(After(h), e)
    ensures Legal(h + [e]) <==> Legal(h) && Enabled(After(h), e)
  {
    assert (h + [e])[..|h|] == h;
  }

  lemma AfterLast(h: seq<Event>, b: seq<Event>)
    requires |h| > 0 && b == h[..|h| - 1]
    ensures After(h) == Next(After(b), Last(h)) && (forall i :: 0 <= i < |b| ==> b[i] == h[i])
  {
  }

  /** What one event can do to the flags. */
  lemma Step(s: State, e: Event)
    ensures Next(s, e).failure.None? <==> s.failure.None? && !Fails(e)
    ensures Next(s, e).draining <==> s.draining || e.Drain? || e.Fence?
    ensures s.closed ==> Next(s, e).closed
    ensures s.started ==> Next(s, e).started
  {
  }

  // ----- Over every history -----

  predicate Leaves(e: Event, t: nat) { (e.Leave? || e.DeferredFails?) && e.token == t }

  predicate Fails(e: Event) { e.DeferredFails? || e.Fence? || (e.ServerClosed? && e.problem.Some?) }

  /** What one event does to one token. */
  lemma TokenStep(s: State, e: Event, t: nat)
    requires Enabled(s, e) && (t in s.active ==> t < s.issued)
    ensures var v := Next(s, e);
            && s.issued <= v.issued <= s.issued + 1
            && (Leaves(e, t) ==> t < s.issued && t !in v.active)
            && (!Leaves(e, t) ==> (t in v.active <==> t in s.active || s.issued <= t < v.issued))
  {
  }

  /** Token `t` was never given back. */
  ghost predicate NeverLeft(h: seq<Event>, t: nat) { forall i :: 0 <= i < |h| ==> !Leaves(h[i], t) }

  lemma NeverLeftPush(h: seq<Event>, b: seq<Event>, t: nat)
    requires |h| > 0 && b == h[..|h| - 1]
    ensures NeverLeft(h, t) <==> NeverLeft(b, t) && !Leaves(Last(h), t)
  {
    assert forall i :: 0 <= i < |b| ==> b[i] == h[i];
  }

  /** Token `t` is outstanding exactly when it was issued and never given back; giving it back again changes nothing. */
  lemma {:induction false} Accounting(h: seq<Event>, t: nat)
    requires Legal(h)
    ensures t in After(h).active <==> t < After(h).issued && NeverLeft(h, t)
    ensures t >= After(h).issued ==> NeverLeft(h, t)
  {
    if |h| > 0 {
      var b := h[..|h| - 1];
      Accounting(b, t);
      AfterLast(h, b);
      TokenStep(After(b), Last(h), t);
      NeverLeftPush(h, b, t);
    }
  }

  /** A failure, once recorded, is never forgotten: there is none exactly when none ever happened. */
  lemma {:induction false} FailureIsRemembered(h: seq<Event>)
    ensures After(h).failure.None? <==> NeverFails(h)
  {
    if |h| > 0 {
      var b := h[..|h| - 1];
      FailureIsRemembered(b);
      AfterLast(h, b);
      Step(After(b), Last(h));
      NeverFailsPush(h, b);
    }
  }

  ghost predicate NeverFails(h: seq<Event>) { forall i :: 0 <= i < |h| ==> !Fails(h[i]) }

  lemma NeverFailsPush(h: seq<Event>, b: seq<Event>)
    requires |h| > 0 && b == h[..|h| - 1]
    ensures NeverFails(h) <==> NeverFails(b) && !Fails(Last(h))
  {
    assert forall i :: 0 <= i < |b| ==> b[i] == h[i];
  }

  /** Draining is never undone, nor is a failure, nor the closing of the server. */
  lemma {:induction false} Monotone(h: seq<Event>, n: nat)
    requires n <= |h|
    ensures After(h[..n]).draining ==> After(h).draining
    ensures After(h[..n]).failure.Some? ==> After(h).failure.Some?
    ensures After(h[..n]).closed ==> After(h).closed
    ensures After(h[..n]).started ==> After(h).started
    decreases |h|
  {
    if n == |h| {
      assert h[..n] == h;
    } else {
      var b := h[..|h| - 1];
      assert b[..n] == h[..n];
      Monotone(b, n);
      AfterLast(h, b);
      Step(After(b), Last(h));
    }
  }

  /** A request is admitted, and gets a token, exactly if no drain or fence came before it. */
  lemma AdmittedBeforeDraining(h: seq<Event>, k: nat)
    requires k < |h| && h[k] == Request
    ensures var before, after := After(h[..k]), After(h[..k + 1]);
            && (before.draining <==> exists i :: 0 <= i < k && (h[i].Drain? || h[i].Fence?))
            && after.issued == (if before.draining then before.issued else before.issued + 1)
  {
    assert h[..k + 1][..k] == h[..k];
    DrainingSince(h[..k]);
    assert forall i :: 0 <= i < k ==> h[..k][i] == h[i];
  }

  lemma {:induction false} DrainingSince(h: seq<Event>)
    ensures After(h).draining <==> exists i :: 0 <= i < |h| && (h[i].Drain? || h[i].Fence?)
  {
    if |h| > 0 {
      var b := h[..|h| - 1];
      DrainingSince(b);
      AfterLast(h, b);
      Step(After(b), Last(h));
      assert After(h).draining <==> After(b).draining || Last(h).Drain? || Last(h).Fence?;
      if After(b).draining {
        var i :| 0 <= i < |b| && (b[i].Drain? || b[i].Fence?);
        assert h[i].Drain? || h[i].Fence?;
      }
    }
  }

  /** Once a drain has started, every stream ever registered has been closed or withdrawn, and none is left waiting. */
  lemma {:induction false} NoStreamOutlivesDrain(h: seq<Event>, c: nat)
    requires exists i :: 0 <= i < |h| && h[i] == Register(c)
    ensures After(h).started ==> After(h).closers == {}
    ensures c in After(h).called || c in After(h).closers || exists i :: 0 <= i < |h| && h[i] == Unregister(c)
    decreases |h|
  {
    NoneWaiting(h);
    var b, e := h[..|h| - 1], Last(h);
    var i :| 0 <= i < |h| && h[i] == Register(c);
    if i < |b| {
      assert b[i] == Register(c);
      NoStreamOutlivesDrain(b, c);
      if j :| 0 <= j < |b| && b[j] == Unregister(c) { assert h[j] == Unregister(c); }
    }
  }

  lemma {:induction false} NoneWaiting(h: seq<Event>)
    ensures After(h).started ==> After(h).draining && After(h).closers == {}
  {
    if |h| > 0 { NoneWaiting(h[..|h| - 1]); }
  }

  /** Registered at `i` before any drain or fence, and not withdrawn since. */
  ghost predicate WaitsSince(h: seq<Event>, c: nat, i: int) {
    && 0 <= i < |h| && h[i] == Register(c) && !After(h[..i]).draining
    && forall j :: i < j < |h| ==> h[j] != Unregister(c)
  }

  lemma WaitsPush(h: seq<Event>, b: seq<Event>, c: nat)
    requires |h| > 0 && b == h[..|h| - 1]
    ensures (exists i :: WaitsSince(h, c, i)) <==>
            (Last(h) == Register(c) && !After(b).draining)
            || (Last(h) != Unregister(c) && exists i :: WaitsSince(b, c, i))
  {
    forall i | 0 <= i < |b| ensures h[..i] == b[..i] && h[i] == b[i] {}
    if i :| WaitsSince(h, c, i) { assert i < |b| ==> WaitsSince(b, c, i); }
    if Last(h) == Register(c) && !After(b).draining { assert WaitsSince(h, c, |b|); }
    if i :| Last(h) != Unregister(c) && WaitsSince(b, c, i) { assert WaitsSince(h, c, i); }
  }

  /** A stream waits to be closed exactly if it was registered in time and not withdrawn, and no drain has started. */
  lemma {:induction false} WaitingIff(h: seq<Event>, c: nat)
    ensures c in After(h).closers <==> !After(h).started && exists i :: WaitsSince(h, c, i)
  {
    if |h| > 0 {
      var b := h[..|h| - 1];
      WaitingIff(b, c);
      NoneWaiting(b);
      AfterLast(h, b);
      WaitsPush(h, b, c);
    }
  }

  /** Event `i` closes the stream: it is registered too late, or waiting when the drain starts. */
  ghost predicate ClosedBy(h: seq<Event>, c: nat, i: int) {
    0 <= i < |h|
    && ((h[i] == Register(c) && After(h[..i]).draining)
        || (h[i] == Drain && !After(h[..i]).draining && c in After(h[..i]).closers))
  }

  /** A stream is closed exactly then; before any drain or fence none is. */
  lemma {:induction false} ClosedIff(h: seq<Event>, c: nat)
    ensures c in After(h).called <==> exists i :: ClosedBy(h, c, i)
    ensures c in After(h).called ==> After(h).draining
  {
    if |h| > 0 {
      var b := h[..|h| - 1];
      ClosedIff(b, c);
      AfterLast(h, b);
      ClosedPush(h, b, c);
    }
  }

  lemma ClosedPush(h: seq<Event>, b: seq<Event>, c: nat)
    requires |h| > 0 && b == h[..|h| - 1]
    ensures (exists i :: ClosedBy(h, c, i)) <==>
            (exists i :: ClosedBy(b, c, i))
            || (Last(h) == Register(c) && After(b).draining)
            || (Last(h) == Drain && !After(b).draining && c in After(b).closers)
  {
    forall i | 0 <= i < |b| ensures ClosedBy(h, c, i) <==> ClosedBy(b, c, i) { assert h[..i] == b[..i] && h[i] == b[i]; }
    assert ClosedBy(h, c, |b|) <==>
      (Last(h) == Register(c) && After(b).draining) || (Last(h) == Drain && !After(b).draining && c in After(b).closers);
    if i :| ClosedBy(h, c, i) { assert i < |b| ==> ClosedBy(b, c, i); }
    if i :| ClosedBy(b, c, i) { assert ClosedBy(h, c, i); }
  }

  function ErrorOf(e: Event): Error
    requires Fails(e)
  {
    match e
    case DeferredFails(_, error) => error
    case Fence(error) => error
    case ServerClosed(problem) => problem.value
  }

  /** The failure recorded is the latest one. */
  lemma {:induction false} LatestFailureCounts(h: seq<Event>, i: nat)
    requires i < |h| && Fails(h[i]) && forall j :: i < j < |h| ==> !Fails(h[j])
    ensures After(h).failure == Some(ErrorOf(h[i]))
    decreases |h|
  {
    if i < |h| - 1 {
      var b := h[..|h| - 1];
      LatestFailureCounts(b, i);
      AfterLast(h, b);
      assert !Fails(Last(h));
    }
  }

  // ----- What happens between two polls -----

  /** The environment: the events of the `k`th wait. */
  type Environment = nat -> seq<Event>

  /** All events up to poll `k`, from the call of drain on. */
  function Until(h: seq<Event>, env: Environment, k: nat): seq<Event> {
    if k == 0 then h + [Drain] else Until(h, env, k - 1) + env(k - 1)
  }

  predicate Quiet(s: State) { s.closed && s.active == {} }

  lemma {:induction false} LaterExtends(h: seq<Event>, env: Environment, j: nat, k: nat)
    requires j <= k
    ensures |Until(h, env, j)| <= |Until(h, env, k)| && Until(h, env, k)[..|Until(h, env, j)|] == Until(h, env, j)
    decreases k
  {
    if j < k { LaterExtends(h, env, j, k - 1); }
  }

  datatype Outcome = AlreadyStarted | Returned | Failed(error: Error) | TimedOut(remaining: nat)

  /** Whatever the environment does, it calls only closures that exist. */
  ghost predicate LegalThroughout(h: seq<Event>, env: Environment) { forall k: nat :: LegalUntil(h, env, k) }

  ghost predicate LegalUntil(h: seq<Event>, env: Environment, k: nat) { Legal(Until(h, env, k)) }

  /** Poll `k` ends the drain well: it comes before the deadline and finds everything quiet and nothing failed. */
  ghost predicate QuietPoll(h: seq<Event>, env: Environment, clock: nat -> int, deadline: int, k: nat) {
    var s := After(Until(h, env, k));
    Quiet(s) && s.failure.None? && forall j :: 0 <= j < k ==> clock(j) < deadline
  }

  ghost predicate EndsWell(h: seq<Event>, env: Environment, clock: nat -> int, deadline: int) {
    exists k :: QuietPoll(h, env, clock, deadline, k)
  }

  /** Poll `k` lets the loop go round once more. */
  predicate GoesOn(h: seq<Event>, env: Environment, clock: nat -> int, deadline: int, k: nat) {
    var s := After(Until(h, env, k));
    !Quiet(s) && s.failure.None? && clock(k) < deadline
  }

  /** The loop comes to poll `k`. */
  predicate Comes(h: seq<Event>, env: Environment, clock: nat -> int, deadline: int, k: nat) {
    k > 0 ==> (Comes(h, env, clock, deadline, k - 1) && GoesOn(h, env, clock, deadline, k - 1))
  }

  /** The loop is at poll `k`, and this is what has happened. */
  predicate Polled(h: seq<Event>, env: Environment, clock: nat -> int, deadline: int, k: nat, history: seq<Event>) {
    history == Until(h, env, k) && Comes(h, env, clock, deadline, k)
  }

  lemma {:induction false} WentOn(h: seq<Event>, env: Environment, clock: nat -> int, deadline: int, k: nat, j: nat)
    requires Comes(h, env, clock, deadline, k) && j < k
    ensures GoesOn(h, env, clock, deadline, j)
  {
    if j < k - 1 { WentOn(h, env, clock, deadline, k - 1, j); }
  }

  /** The loop ends at some poll: the wall clock may even step back, as long as it gets past the deadline or something else ends it. */
  ghost predicate Ends(h: seq<Event>, env: Environment, clock: nat -> int, deadline: int) {
    exists k: nat :: !GoesOn(h, env, clock, deadline, k)
  }

  lemma SomeEnd(h: seq<Event>, env: Environment, clock: nat -> int, deadline: int) returns (k: nat)
    requires Ends(h, env, clock, deadline)
    ensures !GoesOn(h, env, clock, deadline, k)
  {
    k :| !GoesOn(h, env, clock, deadline, k);
  }

  lemma FailureRulesOutLater(h: seq<Event>, env: Environment, j: nat, k: nat)
    requires j <= k && After(Until(h, env, j)).failure.Some?
    ensures After(Until(h, env, k)).failure.Some?
  {
    LaterExtends(h, env, j, k);
    Monotone(Until(h, env, k), |Until(h, env, j)|);
  }

  // ----- Clocks -----

  ghost predicate Advances(clock: nat -> int) { forall i: nat, k: nat :: k == i + 1 ==> clock(k) > clock(i) }

  /** Every wait takes at least 20 milliseconds. */
  ghost predicate Ticks(clock: nat -> int) { forall i: nat, k: nat :: k == i + 1 ==> clock(k) >= clock(i) + 20 }

  lemma {:induction false} ClockGrows(clock: nat -> int, step: nat, k: nat)
    requires (Advances(clock) && step == 1) || (Ticks(clock) && step == 20)
    ensures clock(0) + step * k <= clock(k)
  {
    if k > 0 { ClockGrows(clock, step, k - 1); }
  }

  /** With a clock that only moves forward every drain ends, by its deadline. */
  lemma AdvancingClockEnds(h: seq<Event>, env: Environment, clock: nat -> int, deadline: int)
    requires Advances(clock)
    ensures Ends(h, env, clock, deadline)
  {
    var k: nat := if deadline > clock(0) then deadline - clock(0) else 0;
    ClockGrows(clock, 1, k);
    assert !GoesOn(h, env, clock, deadline, k);
  }

  /** And if every wait takes its 20 milliseconds, after so many polls. */
  lemma PollsAreBounded(h: seq<Event>, env: Environment, start: int, timeout: int, clock: nat -> int, polls: nat)
    requires Ticks(clock) && start <= clock(0) && Comes(h, env, clock, start + timeout, polls)
    ensures polls > 0 ==> 20 * (polls - 1) < timeout
  {
    if polls > 0 { ClockGrows(clock, 20, polls - 1); }
  }

  // ----- The class -----

  class WorkLifecycle {
    var draining: bool
    var active: set<nat>
    var nextToken: nat
    var streamClosers: set<nat>
    var failure: Option<Error>
    var closed: bool
    ghost var history: seq<Event>
    ghost var started: bool
    ghost var called: set<nat>

    ghost function View(): State
      reads this
    {
      State(draining, started, nextToken, active, streamClosers, called, failure, closed)
    }

    ghost predicate Valid()
      reads this
    {
      Legal(history) && View() == After(history)
    }

    constructor ()
      ensures Valid() && history == []
    {
      draining, active, nextToken, streamClosers, failure, closed := false, {}, 0, {}, None, false;
      history, started, called := [], false, {};
    }

    method Note(ghost e: Event)
      requires Legal(history) && Enabled(After(history), e) && View() == Next(After(history), e)
      modifies this`history
      ensures history == old(history) + [e] && Valid()
    {
      AfterPush(history, e);
      history := history + [e];
    }

    method FenceWith(error: Error)
      requires Valid()
      modifies this
      ensures Valid() && history == old(history) + [Fence(error)]
    {
      draining, failure := true, Some(error);
      Note(Fence(error));
    }

    method EnterWork() returns (token: nat)
      requires Valid()
      modifies this
      ensures Valid() && history == old(history) + [Enter] && token == old(nextToken)
    {
      token := nextToken;
      nextToken, active := nextToken + 1, active + {token};
      Note(Enter);
    }

    method LeaveWork(token: nat)
      requires Valid() && token < nextToken
      modifies this
      ensures Valid() && history == old(history) + [Leave(token)]
    {
      active := active - {token};
      Note(Leave(token));
    }

    method FailDeferred(token: nat, error: Error)
      requires Valid() && token < nextToken
      modifies this
      ensures Valid() && history == old(history) + [DeferredFails(token, error)]
    {
      failure := Some(error);
      active := active - {token};
      Note(DeferredFails(token, error));
    }

    method OnDrain(closer: nat)
      requires Valid()
      modifies this
      ensures Valid() && history == old(history) + [Register(closer)]
    {
      if draining { called := called + {closer}; } else { streamClosers := streamClosers + {closer}; }
      Note(Register(closer));
    }

    method CancelOnDrain(closer: nat)
      requires Valid()
      modifies this
      ensures Valid() && history == old(history) + [Unregister(closer)]
    {
      streamClosers := streamClosers - {closer};
      Note(Unregister(closer));
    }

    /** None is the 503 answer. */
    method Middleware() returns (token: Option<nat>)
      requires Valid()
      modifies this
      ensures Valid() && history == old(history) + [Request]
      ensures token == if old(draining) then None else Some(old(nextToken))
    {
      if draining {
        token := None;
      } else {
        token := Some(nextToken);
        nextToken, active := nextToken + 1, active + {nextToken};
      }
      Note(Request);
    }

    method OnServerClosed(error: Option<Error>)
      requires Valid() && started
      modifies this
      ensures Valid() && history == old(history) + [ServerClosed(error)]
    {
      if error.Some? { failure := error; }
      closed := true;
      Note(ServerClosed(error));
    }

    /** The beginning of drain, up to the first poll; false where it throws at once. */
    method StartDrain() returns (ok: bool)
      requires Valid()
      modifies this
      ensures Valid() && history == old(history) + [Drain] && ok == !old(draining)
    {
      ok := !draining;
      if ok {
        draining, started := true, true;
        called := called + streamClosers;
        streamClosers := {};
      }
      Note(Drain);
    }

    method Deliver(e: Event)
      requires Valid() && Enabled(View(), e)
      modifies this
      ensures Valid() && history == old(history) + [e]
    {
      match e
      case Enter => var _ := EnterWork();
      case Leave(t) => LeaveWork(t);
      case DeferredFails(t, error) => FailDeferred(t, error);
      case Request => var _ := Middleware();
      case Fence(error) => FenceWith(error);
      case Register(c) => OnDrain(c);
      case Unregister(c) => CancelOnDrain(c);
      case Drain => var _ := StartDrain();
      case ServerClosed(error) => OnServerClosed(error);
    }

    /** One wait of the loop: whatever happens meanwhile happens. */
    method Wait(events: seq<Event>)
      requires Valid() && Legal(history + events)
      modifies this
      ensures Valid() && history == old(history) + events
    {
      ghost var h := history;
      for i := 0 to |events|
        invariant Valid() && history == h + events[..i]
      {
        NextIsEnabled(h, events, i);
        Deliver(events[i]);
      }
    }

    /** The polling loop, and the check behind it. */
    method Poll(ghost h: seq<Event>, deadline: int, clock: nat -> int, env: Environment) returns (r: Outcome, ghost polls: nat)
      requires Valid() && history == Until(h, env, 0)
      requires LegalThroughout(h, env) && Ends(h, env, clock, deadline)
      modifies this
      ensures Valid() && history == Until(h, env, polls) && Comes(h, env, clock, deadline, polls)
      ensures Concludes(r, View(), clock(polls) >= deadline)
    {
      ghost var last := SomeEnd(h, env, clock, deadline);
      var k := 0;
      while !closed || active != {}
        invariant Valid() && Polled(h, env, clock, deadline, k, history) && k <= last
        decreases last - k
      {
        if failure.Some? { return Failed(failure.value), k; }
        if clock(k) >= deadline { return TimedOut(|active|), k; }
        NextRound(h, env, clock, deadline, k, last, history, View());
        Wait(env(k));
        k := k + 1;
      }
      polls := k;
      r := if failure.Some? then Failed(failure.value) else Returned;
    }

    /**
     * drain. `start` is the time it begins, `clock(k)` the time at poll `k`, `env(k)` what happens
     * during the wait after it. It returns normally exactly when some poll before the deadline
     * finds the server closed, no work and no failure ever recorded; otherwise it ends at the first
     * poll that finds a failure, or is past the deadline.
     */
    method DrainServer(timeout: int, start: int, clock: nat -> int, env: Environment) returns (r: Outcome, ghost polls: nat)
      requires Valid()
      requires !draining ==> LegalThroughout(history, env) && Ends(history, env, clock, start + timeout)
      modifies this
      ensures Valid() && draining
      ensures if old(draining) then r == AlreadyStarted
              else Drained(old(history), env, clock, start + timeout, r, polls, View(), history)
      ensures !old(draining) ==> (r == Returned <==> EndsWell(old(history), env, clock, start + timeout))
      ensures r == Returned ==> closed && active == {} && NeverFails(history)
    {
      ghost var h := history;
      var ok := StartDrain();
      if !ok { return AlreadyStarted, 0; }
      r, polls := Poll(h, start + timeout, clock, env);
      StillStarted(h, env, polls);
      Verdict(h, env, clock, start + timeout, polls, r);
    }
  }

  /** How the last poll decides the outcome; `late` says whether it is past the deadline. */
  ghost predicate Concludes(r: Outcome, s: State, late: bool) {
    match r
    case AlreadyStarted => false
    case Returned => Quiet(s) && s.failure.None?
    case Failed(error) => s.failure == Some(error)
    case TimedOut(n) => !Quiet(s) && s.failure.None? && late && n == |s.active|
  }

  /** The drain came to poll `polls`, which decided it. */
  ghost predicate Drained(h: seq<Event>, env: Environment, clock: nat -> int, deadline: int, r: Outcome, polls: nat,
                          s: State, history: seq<Event>)
  {
    Polled(h, env, clock, deadline, polls, history) && Concludes(r, s, clock(polls) >= deadline)
  }

  lemma Verdict(h: seq<Event>, env: Environment, clock: nat -> int, deadline: int, k: nat, r: Outcome)
    requires Comes(h, env, clock, deadline, k) && Concludes(r, After(Until(h, env, k)), clock(k) >= deadline)
    ensures r == Returned <==> EndsWell(h, env, clock, deadline)
    ensures r == Returned ==> NeverFails(Until(h, env, k))
  {
    if r == Returned {
      FailureIsRemembered(Until(h, env, k));
      forall j: nat | j < k ensures clock(j) < deadline { WentOn(h, env, clock, deadline, k, j); }
      assert QuietPoll(h, env, clock, deadline, k);
    } else {
      forall j: nat ensures !QuietPoll(h, env, clock, deadline, j) { NotWellAt(h, env, clock, deadline, k, r, j); }
    }
  }

  /** After a failure, or past the deadline, no poll can end the drain well; before, none did. */
  lemma NotWellAt(h: seq<Event>, env: Environment, clock: nat -> int, deadline: int, k: nat, r: Outcome, j: nat)
    requires Comes(h, env, clock, deadline, k) && Concludes(r, After(Until(h, env, k)), clock(k) >= deadline)
    requires r != Returned
    ensures !QuietPoll(h, env, clock, deadline, j)
  {
    if j < k {
      WentOn(h, env, clock, deadline, k, j);
    } else if r.Failed? {
      FailureRulesOutLater(h, env, k, j);
    }
  }

  /** From poll `k`, if it lets the loop go round, to the next. */
  lemma NextRound(h: seq<Event>, env: Environment, clock: nat -> int, deadline: int, k: nat, last: nat,
                  history: seq<Event>, s: State)
    requires LegalThroughout(h, env) && Polled(h, env, clock, deadline, k, history)
    requires s == After(history) && !Quiet(s) && s.failure.None? && clock(k) < deadline
    requires k <= last && !GoesOn(h, env, clock, deadline, last)
    ensures k < last && Polled(h, env, clock, deadline, k + 1, history + env(k)) && Legal(history + env(k))
  {
    assert GoesOn(h, env, clock, deadline, k);
    assert LegalUntil(h, env, k + 1);
  }

  lemma {:induction false} LegalPrefix(h: seq<Event>, n: nat)
    requires Legal(h) && n <= |h|
    ensures Legal(h[..n])
    decreases |h|
  {
    if n == |h| {
      assert h[..n] == h;
    } else {
      assert h[..|h| - 1][..n] == h[..n];
      LegalPrefix(h[..|h| - 1], n);
    }
  }

  lemma NextIsEnabled(h: seq<Event>, events: seq<Event>, i: nat)
    requires i < |events| && Legal(h + events)
    ensures Enabled(After(h + events[..i]), events[i])
    ensures h + events[..i] + [events[i]] == h + events[..i + 1]
  {
    PrefixOfConcat(h, events, i);
    LegalPrefix(h + events, |h| + i + 1);
    AfterPush(h + events[..i], events[i]);
  }

  lemma StillStarted(h: seq<Event>, env: Environment, k: nat)
    requires !After(h).draining
    ensures After(Until(h, env, k)).started && After(Until(h, env, k)).draining
  {
    AfterPush(h, Drain);
    LaterExtends(h, env, 0, k);
    Monotone(Until(h, env, k), |Until(h, env, 0)|);
  }
}
