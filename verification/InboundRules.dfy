/**
 * What one request to the root helper leaves behind and how it is answered, said of the fields of
 * the request, the host and the files.
 */
module InboundRules {
  import opened Common
  import opened InboundHelper
  import opened InboundRuns

  /** The world after a request that nothing kills. */
  function Afterwards(w: World, r: Request, h: Host): World
    requires WellFormed(r)
  {
    After(w, PlanFor(w, r, h).effects, |PlanFor(w, r, h).effects|)
  }

  function Answered(w: World, r: Request, h: Host): Outcome
    requires WellFormed(r)
  {
    PlanFor(w, r, h).outcome
  }

  /** The request is that of the recorded command, delivered again. */
  predicate Redelivered(w: World, r: Request) {
    && w.state.Some? && w.state.value.Recorded?
    && r.commandId != "" && w.state.value.record.commandId == r.commandId
  }

  /** Two requests for the same inbound; the order of the server names does not matter. */
  predicate SameInbound(p: Request, r: Request) {
    && p.inboundTag == r.inboundTag && p.listenPort == r.listenPort && p.dest == r.dest
    && multiset(p.serverNames) == multiset(r.serverNames)
    && p.flow == r.flow && p.fingerprint == r.fingerprint && p.spiderX == r.spiderX
  }

  // ----- Ensure -----

  /**
   * An ensure answered without any effect, other than the recorded command delivered again, asks for
   * the very inbound that the last deployment was asked for.
   */
  lemma NoOpIsForTheSameInbound(w: World, producer: Option<Request>, r: Request, h: Host)
    requires Inv(w, producer) && WellFormed(r) && r.mode == Ensure && !Redelivered(w, r)
    requires Answered(w, r, h).Answer? && PlanFor(w, r, h).effects == []
    ensures producer.Some? && SameInbound(producer.value, r) && !r.rotateKeys
  {
  }

  /** So what a successful ensure reports is what was asked for. */
  lemma AnswerIsAsRequested(w: World, producer: Option<Request>, r: Request, h: Host)
    requires Inv(w, producer) && WellFormed(r) && r.mode == Ensure && HostOk(h) && !Redelivered(w, r)
    requires Answered(w, r, h).Answer?
    ensures var a, v := Answered(w, r, h).report, Afterwards(w, r, h);
            && a.listenPort == r.listenPort && a.serverName == r.serverNames[0]
            && v.config.Some? && v.config.value.Inbound?
            && v.config.value.tag == r.inboundTag && v.config.value.port == r.listenPort
            && v.config.value.serverNames == r.serverNames
  {
    AnswerDescribesDisk(w, r, h);
    if PlanFor(w, r, h).effects == [] { NoOpIsForTheSameInbound(w, producer, r, h); }
  }

  /** Nothing is answered or deployed that takes another fragment's tag, or whose fallback was refused. */
  lemma ForeignTagsAreSafe(w: World, r: Request, h: Host)
    requires WellFormed(r) && r.mode == Ensure
    requires h.reservedTags.None? || r.inboundTag in h.reservedTags.value || h.pinnedDest.None?
    ensures PlanFor(w, r, h) == Plan([], Threw)
  {
  }

  /** The pair a deployment takes: a new one when there is none, or when a rotation is asked for the first time. */
  function KeysFor(w: World, r: Request, h: Host): RealityKeys {
    if w.state.Some? && w.state.value.Recorded? && (!r.rotateKeys || Redelivered(w, r)) then w.state.value.record.keys
    else h.freshKeys
  }

  /** Without a committed, matching deployment that serves, an ensure needs a host that can take it. */
  predicate Deployable(r: Request, h: Host) {
    && h.reservedTags.Some? && r.inboundTag !in h.reservedTags.value && h.pinnedDest.Some?
    && h.listen.Some? && (r.requireListen == "" || r.requireListen == h.listen.value)
    && h.portFree && h.configValid && h.restartOk && h.listeningAfter
  }

  /**
   * A successful ensure has either found Xray serving and done nothing; or the config test, the port
   * and the listen family were fine, the restart worked and the port listens, and file, record and
   * Xray are exactly the inbound asked for, with the pinned fallback. A rotation not seen before
   * always takes a new pair.
   */
  lemma SuccessMeans(w: World, r: Request, h: Host)
    requires WellFormed(r) && r.mode == Ensure && Answered(w, r, h).Answer?
    ensures var v, a, keys := Afterwards(w, r, h), Answered(w, r, h).report, KeysFor(w, r, h);
            if PlanFor(w, r, h).effects == [] then
              v == w && !a.changed && !a.restarted && h.serving && (Redelivered(w, r) || !r.rotateKeys)
            else
              && Deployable(r, h) && a.changed && a.restarted
              && v.config == Some(Inbound(r.inboundTag, h.listen.value, r.listenPort, h.pinnedDest.value, r.serverNames,
                                          keys.privateKey, keys.shortId))
              && v.xray == Running(v.config)
              && v.state.Some? && v.state.value.Recorded? && !v.state.value.record.pending
              && v.state.value.record.keys == keys && v.state.value.record.commandId == r.commandId
              && v.state.value.record.pinnedDest == h.pinnedDest.value
  {
    if PlanFor(w, r, h).effects != [] {
      DeployOutcome(w, NewRecord(w, r, h), Rendered(w, r, h), h, |PlanFor(w, r, h).effects|);
    }
  }

  /** And a host that can take the inbound always succeeds, whatever the files held. */
  lemma DeployableSucceeds(w: World, r: Request, h: Host)
    requires WellFormed(r) && r.mode == Ensure && Deployable(r, h)
    ensures Answered(w, r, h).Answer?
  {
  }

  /** A host that cannot take it refuses unless the deployment is answered as it stands, and only a failed publication has effects. */
  lemma RefusedWithoutEffect(w: World, r: Request, h: Host)
    requires WellFormed(r) && r.mode == Ensure && Answered(w, r, h).Threw?
    ensures PlanFor(w, r, h).effects != [] ==>
              && h.listen.Some? && (r.requireListen == "" || r.requireListen == h.listen.value) && h.portFree && h.configValid
              && (!h.restartOk || !h.listeningAfter)
  {
  }

  /**
   * Asking again changes nothing: after a successful ensure the same request, a rotation only as the
   * same command, finds its deployment and is answered from it without an effect, as long as Xray serves.
   */
  lemma EnsureAgainDoesNothing(w: World, r: Request, h: Host, h2: Host)
    requires WellFormed(r) && r.mode == Ensure && HostOk(h) && Answered(w, r, h).Answer?
    requires !r.rotateKeys || r.commandId != ""
    requires h2.reservedTags.Some? && r.inboundTag !in h2.reservedTags.value && h2.pinnedDest.Some? && h2.serving
    ensures var v, a := Afterwards(w, r, h), Answered(w, r, h).report;
            PlanFor(v, r, h2) == Plan([], Answer(a.(changed := false, restarted := false)))
  {
    if PlanFor(w, r, h).effects != [] {
      var rec := NewRecord(w, r, h);
      DeployOutcome(w, rec, Rendered(w, r, h), h, |PlanFor(w, r, h).effects|);
      var v := Afterwards(w, r, h);
      assert ReadState(v) == Some(rec) && v.config == Some(Implied(rec, r));
    }
  }

  /**
   * A committed record of an older version, without listen address, port, pinned fallback and server
   * name, still answers for the file it stands beside: an IPv4 listener on the port and with the
   * fallback asked for.
   */
  lemma OldRecordsStillAnswer(w: World, rec: Record, r: Request, h: Host)
    requires WellFormed(r) && r.mode == Ensure && !r.rotateKeys && (r.requireListen == "" || r.requireListen == "0.0.0.0")
    requires rec.listen == "" && rec.listenPort == 0 && rec.pinnedDest == "" && rec.serverName == "" && !rec.pending
    requires rec.hash == SpecHash(r.inboundTag, r.listenPort, r.dest, multiset(r.serverNames), r.flow, r.fingerprint, r.spiderX)
    requires w.state == Some(Recorded(rec))
    requires w.config == Some(Inbound(r.inboundTag, "0.0.0.0", r.listenPort, r.dest, r.serverNames,
                                      rec.keys.privateKey, rec.keys.shortId))
    requires h.reservedTags.Some? && r.inboundTag !in h.reservedTags.value && h.pinnedDest.Some? && h.serving
    ensures PlanFor(w, r, h) == Plan([], Answer(Report(true, "0.0.0.0", false, false, Some(rec.keys.publicKey),
                                                       rec.keys.shortId, r.serverNames[0], r.listenPort)))
  {
  }

  // ----- Reset and status -----

  /** A reset succeeds exactly if there is nothing to clear, or the empty fragment passes the config test and Xray restarts. */
  lemma ResetSucceedsIff(w: World, r: Request, h: Host)
    requires r.mode == Reset
    ensures var empty := (w.state.None? || w.state.value.Unreadable?) && (w.config.None? || w.config == Some(EmptyFragment));
            && (Answered(w, r, h).Answer? <==> empty || (h.configValid && h.restartOk))
            && (empty ==> PlanFor(w, r, h).effects == [])
            && (Answered(w, r, h).Answer? ==> Answered(w, r, h).report == Report(false, "", !empty, !empty, None, "", "", 0))
            && (!empty && h.configValid && h.restartOk ==>
                  Afterwards(w, r, h) == World(Some(EmptyFragment), None, Running(Some(EmptyFragment))))
  {
    if PlanFor(w, r, h).effects != [] { ResetTrail(w, h, |PlanFor(w, r, h).effects|); }
  }

  /** Status changes nothing, and any trace of a deployment counts: a record, pending or not, or a fragment that is not the empty one. */
  lemma StatusSeesAnyTrace(w: World, r: Request, h: Host)
    requires r.mode == Status
    ensures PlanFor(w, r, h).effects == [] && Answered(w, r, h).Answer?
    ensures var a := Answered(w, r, h).report;
            && !a.changed && !a.restarted
            && (a.deployed <==> (w.state.Some? && w.state.value.Recorded?) || (w.config.Some? && w.config != Some(EmptyFragment)))
            && (w.state.Some? && w.state.value.Recorded? ==>
                  var rec := w.state.value.record;
                  a.listenPort == rec.listenPort && a.publicKey == Some(rec.keys.publicKey) && a.shortId == rec.keys.shortId
                  && a.serverName == rec.serverName && a.listen == rec.listen)
  {
  }
}
