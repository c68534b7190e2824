/** What every run of the root helper keeps, with failures anywhere and crashes between any two effects. */
module InboundRuns {
  import opened Common
  import opened InboundHelper

  /** One activation of the helper: it dies after `survived` effects, or finishes if there are no more. */
  datatype Attempt = Attempt(request: Request, host: Host, survived: nat)

  predicate Possible(a: Attempt) { WellFormed(a.request) && HostOk(a.host) }

  function AfterAttempt(w: World, a: Attempt): World
    requires Possible(a)
  {
    After(w, PlanFor(w, a.request, a.host).effects, Reached(w, a))
  }

  function AfterRun(w: World, run: seq<Attempt>): World
    requires forall a <- run :: Possible(a)
  {
    if |run| == 0 then w else AfterAttempt(AfterRun(w, run[..|run| - 1]), Last(run))
  }

  /** How many of its effects an attempt gets done. */
  function Reached(w: World, a: Attempt): nat
    requires Possible(a)
  {
    var effects := PlanFor(w, a.request, a.host).effects;
    if a.survived < |effects| then a.survived else |effects|
  }

  /** An ensure that got past its journal write, and did not live to roll it back. */
  predicate LeavesRecord(w: World, a: Attempt)
    requires Possible(a)
  {
    var p := PlanFor(w, a.request, a.host);
    a.request.mode == Ensure && Reached(w, a) > 0 && !(Reached(w, a) == |p.effects| && p.outcome.Threw?)
  }

  /** The request that produced the record in the state file: the file itself keeps only a hash of it. */
  function ProducerAfter(w: World, producer: Option<Request>, run: seq<Attempt>): Option<Request>
    requires forall a <- run :: Possible(a)
  {
    if |run| == 0 then producer
    else if LeavesRecord(AfterRun(w, run[..|run| - 1]), Last(run)) then Some(Last(run).request)
    else ProducerAfter(w, producer, run[..|run| - 1])
  }

  /** A record as the request `r` writes it; records of older versions may lack port and name. */
  predicate Describes(rec: Record, r: Request) {
    && r.mode == Ensure && WellFormed(r)
    && rec.hash == RequestHash(r)
    && (rec.listenPort == 0 || rec.listenPort == r.listenPort)
    && (rec.serverName == "" || rec.serverName == r.serverNames[0])
  }

  /**
   * A record is that of the request that produced it, with a genuine key pair; unless it is pending,
   * the config file beside it is the exact rendering of that request, with the record's keys, port,
   * listen address and dest.
   */
  predicate Inv(w: World, producer: Option<Request>) {
    var state := ReadState(w);
    state.Some? ==>
      && Genuine(state.value.keys)
      && producer.Some? && Describes(state.value, producer.value)
      && (!state.value.pending ==> w.config == Some(Implied(state.value, producer.value)))
  }

  // ----- The worlds a single attempt can leave behind -----

  /**
   * Both files and Xray after the first `k` effects of a deployment: the pending record comes first,
   * then the new config file and the restart; a failed publication puts the old file back and
   * restarts before the old record comes back.
   */
  lemma DeployTrail(w: World, rec: Record, rendered: Fragment, h: Host, k: nat)
    requires k <= |DeployEffects(w, rec, rendered, h)|
    ensures var v, n, ok := After(w, DeployEffects(w, rec, rendered, h), k), |DeployEffects(w, rec, rendered, h)|, PublishSucceeds(rec.listenPort, h);
            && n == (if ok then 4 else 6)
            && v.state == (if k == 0 || (k == n && !ok) then w.state
                           else if k == n then Some(Recorded(rec)) else Some(Recorded(rec.(pending := true))))
            && v.config == (if 2 <= k && (ok || k < 4) then Some(rendered) else w.config)
            && v.xray == (if k < 3 then w.xray
                          else if ok || k < 5 then (if h.restartOk then Running(Some(rendered)) else Stopped)
                          else if h.rollbackRestartOk then Running(w.config) else Stopped)
  {
    var es := DeployEffects(w, rec, rendered, h);
    var pending, ok := Some(Recorded(rec.(pending := true))), PublishSucceeds(rec.listenPort, h);
    assert After(w, es, 0) == w;
    assert After(w, es, 1) == w.(state := pending);
    assert After(w, es, 2) == World(Some(rendered), pending, w.xray);
    assert After(w, es, 3) == World(Some(rendered), pending, if h.restartOk then Running(Some(rendered)) else Stopped);
    assert After(w, es, 4) == Perform(After(w, es, 3), es[3]);
    if !ok {
      assert After(w, es, 5) == World(w.config, pending, if h.rollbackRestartOk then Running(w.config) else Stopped);
      assert After(w, es, 6) == Perform(After(w, es, 5), es[5]);
    }
  }

  /** What a deployment may have left, whenever it was cut off, and what it leaves when it is not. */
  lemma DeployOutcome(w: World, rec: Record, rendered: Fragment, h: Host, k: nat)
    requires !rec.pending && k <= |DeployEffects(w, rec, rendered, h)|
    ensures var v := After(w, DeployEffects(w, rec, rendered, h), k);
            && (k == 0 ==> v == w)
            && (0 < k < |DeployEffects(w, rec, rendered, h)| ==>
                  v.state == Some(Recorded(rec.(pending := true))))
            && (v.config == w.config || v.config == Some(rendered))
    ensures var es := DeployEffects(w, rec, rendered, h);
            var v := After(w, es, |es|);
            if PublishSucceeds(rec.listenPort, h) then
              v == World(Some(rendered), Some(Recorded(rec)), Running(Some(rendered)))
            else
              v == World(w.config, w.state, if h.rollbackRestartOk then Running(w.config) else Stopped)
  {
    DeployTrail(w, rec, rendered, h, k);
    DeployTrail(w, rec, rendered, h, |DeployEffects(w, rec, rendered, h)|);
  }

  /** The state file a reset journals before publishing the empty fragment. */
  function Journalled(w: World): Option<StateFile> {
    var state := ReadState(w);
    if state.Some? then Some(Recorded(state.value.(pending := true))) else w.state
  }

  lemma ClearTrail(w: World, state: Option<StateFile>, h: Host, k: nat)
    requires k <= |ClearEffects(w.config, state, h)|
    ensures var v := After(w, ClearEffects(w.config, state, h), k);
            v.state == w.state || v.state.None? || v.state == state
    ensures var es := ClearEffects(w.config, state, h);
            var v := After(w, es, k);
            && (k == 0 ==> v == w)
            && (k < |es| ==> v.state == w.state)
            && (k == |es| && PublishSucceeds(0, h) ==> v == World(Some(EmptyFragment), None, Running(Some(EmptyFragment))))
            && (k == |es| && !PublishSucceeds(0, h) ==>
                  v == World(w.config, if state.Some? then state else w.state, if h.rollbackRestartOk then Running(w.config) else Stopped))
  {
    var es := ClearEffects(w.config, state, h);
    var w2 := w.(config := Some(EmptyFragment));
    assert After(w, es, 1) == w2;
    assert After(w, es, 2) == Perform(w2, Restart(h.restartOk));
    if !PublishSucceeds(0, h) {
      assert After(w, es, 3) == Perform(w2, Restart(h.restartOk)).(config := w.config);
      assert After(w, es, 4) == Perform(After(w, es, 3), Restart(h.rollbackRestartOk));
    }
  }

  lemma ResetIsJournalAndClear(w: World, h: Host)
    requires !NothingToClear(w) && h.configValid
    ensures ResetPlan(w, h).effects
         == (if ReadState(w).Some? then [SetState(Journalled(w))] else []) + ClearEffects(w.config, w.state, h)
  {
  }

  /** The world `v` a reset leaves after `k` of its `n` effects. */
  predicate ResetReaches(w: World, h: Host, k: nat, n: nat, v: World) {
    && ((v.state == w.state && v.config == w.config) || v.state == Journalled(w) || v.state.None?)
    && (k == n && !PublishSucceeds(0, h) ==>
          v == World(w.config, w.state, if h.rollbackRestartOk then Running(w.config) else Stopped))
    && (k == n && PublishSucceeds(0, h) ==> v == World(Some(EmptyFragment), None, Running(Some(EmptyFragment))))
  }

  lemma JournalledReset(w: World, h: Host, k: nat, es: seq<Effect>)
    requires ReadState(w).Some? && es == [SetState(Journalled(w))] + ClearEffects(w.config, w.state, h) && k <= |es|
    ensures ResetReaches(w, h, k, |es|, After(w, es, k))
  {
    var journal, w1 := [SetState(Journalled(w))], w.(state := Journalled(w));
    assert After(w, journal, 1) == w1;
    if k > 0 {
      ClearTrail(w1, w.state, h, k - 1);
      AfterAppend(w, journal, ClearEffects(w.config, w.state, h), k - 1);
    }
  }

  lemma PlainReset(w: World, h: Host, k: nat, es: seq<Effect>)
    requires ReadState(w).None? && es == ClearEffects(w.config, w.state, h) && k <= |es|
    ensures ResetReaches(w, h, k, |es|, After(w, es, k))
  {
    ClearTrail(w, w.state, h, k);
  }

  lemma ResetTrail(w: World, h: Host, k: nat)
    requires k <= |ResetPlan(w, h).effects| && !NothingToClear(w) && h.configValid
    ensures ResetReaches(w, h, k, |ResetPlan(w, h).effects|, After(w, ResetPlan(w, h).effects, k))
  {
    ResetIsJournalAndClear(w, h);
    var es := ResetPlan(w, h).effects;
    if ReadState(w).Some? {
      JournalledReset(w, h, k, es);
    } else {
      ConcatEmpty(ClearEffects(w.config, w.state, h));
      PlainReset(w, h, k, es);
    }
  }

  // ----- Main results -----

  lemma AttemptKeepsInv(w: World, producer: Option<Request>, a: Attempt)
    requires Possible(a) && Inv(w, producer)
    ensures Inv(AfterAttempt(w, a), if LeavesRecord(w, a) then Some(a.request) else producer)
  {
    var p := PlanFor(w, a.request, a.host);
    match a.request.mode {
      case Status =>
      case Reset => if |p.effects| > 0 { ResetTrail(w, a.host, Reached(w, a)); }
      case Ensure =>
        if |p.effects| > 0 {
          var rec := NewRecord(w, a.request, a.host);
          var rendered := Rendered(w, a.request, a.host);
          DeployOutcome(w, rec, rendered, a.host, Reached(w, a));
          assert Describes(rec, a.request) && rendered == Implied(rec, a.request);
        }
    }
  }

  /** Safety over whole runs: no crash, failure or retry ever commits a record its file does not match. */
  lemma {:induction false} EveryRunKeepsInv(w: World, producer: Option<Request>, run: seq<Attempt>)
    requires Inv(w, producer) && forall a <- run :: Possible(a)
    ensures Inv(AfterRun(w, run), ProducerAfter(w, producer, run))
  {
    if |run| > 0 {
      EveryRunKeepsInv(w, producer, run[..|run| - 1]);
      AttemptKeepsInv(AfterRun(w, run[..|run| - 1]), ProducerAfter(w, producer, run[..|run| - 1]), Last(run));
    }
  }

  /** An attempt that throws and lives leaves both files exactly as they were, whatever they were. */
  lemma ThrowLeavesFiles(w: World, r: Request, h: Host)
    requires WellFormed(r) && PlanFor(w, r, h).outcome.Threw?
    ensures var es := PlanFor(w, r, h).effects;
            var v := After(w, es, |es|);
            && v.config == w.config && v.state == w.state
            && (h.rollbackRestartOk ==> v.xray == w.xray || v.xray == Running(w.config))
  {
    var p := PlanFor(w, r, h);
    if r.mode == Reset {
      if |p.effects| > 0 { ResetTrail(w, h, |p.effects|); }
    } else if |p.effects| > 0 {
      DeployOutcome(w, NewRecord(w, r, h), Rendered(w, r, h), h, |p.effects|);
    }
  }

  /** Every successful ensure, no-op or not, reports what is on disk, and the record beside it is committed. */
  lemma AnswerDescribesDisk(w: World, r: Request, h: Host)
    requires WellFormed(r) && r.mode == Ensure && HostOk(h)
    requires ReadState(w).Some? ==> Genuine(ReadState(w).value.keys)
    requires PlanFor(w, r, h).outcome.Answer?
    ensures var p := PlanFor(w, r, h);
            var v := After(w, p.effects, |p.effects|);
            var a := p.outcome.report;
            && v.config.Some? && v.config.value.Inbound?
            && a.deployed
            && a.publicKey == Some(PublicOf(v.config.value.privateKey))
            && a.shortId == v.config.value.shortId
            && a.listenPort == v.config.value.port
            && a.listen == v.config.value.listen
            && v.config.value.tag == r.inboundTag && v.config.value.serverNames == r.serverNames
            && ReadState(v).Some? && !ReadState(v).value.pending
            && v.config == Some(Implied(ReadState(v).value, r))
            && (r.requireListen != "" ==> a.listen == r.requireListen)
            && (a.changed ==> v.xray == Running(v.config) && Describes(ReadState(v).value, r))
            && StatusReport(v).deployed && StatusReport(v).publicKey == a.publicKey && StatusReport(v).shortId == a.shortId
            && (a.changed ==> StatusReport(v) == a.(changed := false, restarted := false))
  {
    var p := PlanFor(w, r, h);
    if |p.effects| > 0 {
      DeployOutcome(w, NewRecord(w, r, h), Rendered(w, r, h), h, |p.effects|);
    }
  }

  /** Re-running a request from any crash state, once it succeeds, leaves a committed record and its file. */
  lemma RerunSettles(w: World, producer: Option<Request>, crashed: seq<Attempt>, r: Request, h: Host)
    requires Inv(w, producer) && forall a <- crashed :: Possible(a)
    requires WellFormed(r) && r.mode == Ensure && HostOk(h)
    requires PlanFor(AfterRun(w, crashed), r, h).outcome.Answer?
    ensures var v0 := AfterRun(w, crashed);
            var es := PlanFor(v0, r, h).effects;
            var v := After(v0, es, |es|);
            && Inv(v, if |es| > 0 then Some(r) else ProducerAfter(w, producer, crashed))
            && ReadState(v).Some? && !ReadState(v).value.pending
            && v.config == Some(Implied(ReadState(v).value, r))
  {
    EveryRunKeepsInv(w, producer, crashed);
    var v0 := AfterRun(w, crashed);
    AnswerDescribesDisk(v0, r, h);
    AttemptKeepsInv(v0, ProducerAfter(w, producer, crashed), Attempt(r, h, |PlanFor(v0, r, h).effects|));
  }

  /** After a successful reset nothing is deployed, status says so, and a second reset does nothing. */
  lemma ResetClears(w: World, r: Request, h: Host, h2: Host)
    requires r.mode == Reset && PlanFor(w, r, h).outcome.Answer?
    ensures var es := PlanFor(w, r, h).effects;
            var v := After(w, es, |es|);
            && (v.config.None? || v.config == Some(EmptyFragment))
            && ReadState(v).None?
            && !StatusReport(v).deployed
            && PlanFor(v, r, h2) == Plan([], Answer(Nothing(false)))
  {
    if |PlanFor(w, r, h).effects| > 0 { ResetTrail(w, h, |PlanFor(w, r, h).effects|); }
  }

  // ----- Reality keys -----

  /** The pair in the state file, and in the fragment once it holds that pair. */
  predicate Holds(w: World, keys: RealityKeys) {
    && ReadState(w).Some? && ReadState(w).value.keys == keys
  }

  predicate Serves(w: World, keys: RealityKeys) {
    && w.config.Some? && w.config.value.Inbound?
    && w.config.value.privateKey == keys.privateKey && w.config.value.shortId == keys.shortId
  }

  lemma AttemptKeepsKeys(w: World, a: Attempt, keys: RealityKeys)
    requires Possible(a) && a.request.mode != Reset && Holds(w, keys)
    requires a.request.mode == Ensure ==> !a.request.rotateKeys || SameCommand(ReadState(w), a.request)
    ensures Holds(AfterAttempt(w, a), keys)
    ensures Serves(w, keys) ==> Serves(AfterAttempt(w, a), keys)
    ensures a.request.mode == Ensure && SameCommand(ReadState(w), a.request) ==>
              ReadState(AfterAttempt(w, a)).value.commandId == a.request.commandId
  {
    var p := PlanFor(w, a.request, a.host);
    if |p.effects| > 0 {
      DeployOutcome(w, NewRecord(w, a.request, a.host), Rendered(w, a.request, a.host), a.host, Reached(w, a));
    }
  }

  /** Keys never change across any run of non-rotating ensures and status probes. */
  lemma {:induction false} NonRotatingRunKeepsKeys(w: World, run: seq<Attempt>, keys: RealityKeys)
    requires Holds(w, keys)
    requires forall a <- run :: Possible(a) && a.request.mode != Reset && !a.request.rotateKeys
    ensures Holds(AfterRun(w, run), keys)
    ensures Serves(w, keys) ==> Serves(AfterRun(w, run), keys)
  {
    if |run| > 0 {
      NonRotatingRunKeepsKeys(w, run[..|run| - 1], keys);
      AttemptKeepsKeys(AfterRun(w, run[..|run| - 1]), Last(run), keys);
    }
  }

  /**
   * A redelivered rotation never rotates again: once a command's record is in the state
   * file, committed or pending, every later delivery of that command keeps its pair.
   */
  lemma {:induction false} RedeliveryKeepsKeys(w: World, run: seq<Attempt>, command: string, keys: RealityKeys)
    requires command != "" && Holds(w, keys) && ReadState(w).value.commandId == command
    requires forall a <- run :: Possible(a) && (a.request.mode == Status || (a.request.mode == Ensure && a.request.commandId == command))
    ensures Holds(AfterRun(w, run), keys) && ReadState(AfterRun(w, run)).value.commandId == command
    ensures Serves(w, keys) ==> Serves(AfterRun(w, run), keys)
  {
    if |run| > 0 {
      RedeliveryKeepsKeys(w, run[..|run| - 1], command, keys);
      AttemptKeepsKeys(AfterRun(w, run[..|run| - 1]), Last(run), keys);
    }
  }

  /** A rotation that crashed after its journal write is what the redelivery above starts from. */
  lemma CrashedRotationIsRecorded(w: World, a: Attempt)
    requires Possible(a) && a.request.mode == Ensure && a.survived > 0
    requires |PlanFor(w, a.request, a.host).effects| > 0
    requires PlanFor(w, a.request, a.host).outcome.Answer? || a.survived < |PlanFor(w, a.request, a.host).effects|
    ensures var v := AfterAttempt(w, a);
            && ReadState(v).Some?
            && ReadState(v).value.commandId == a.request.commandId
            && ReadState(v).value.keys == ChosenKeys(w, a.request, a.host)
  {
    var p := PlanFor(w, a.request, a.host);
    DeployOutcome(w, NewRecord(w, a.request, a.host), Rendered(w, a.request, a.host), a.host, Reached(w, a));
  }
}
