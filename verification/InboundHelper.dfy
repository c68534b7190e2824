/**
 * The root helper that deploys the node's Reality inbound (xray-apply.ts).
 *
 * The helper owns three things: the config fragment, a state file that journals
 * deployments with a `pending` flag, and the running Xray. Every change is one
 * atomic effect, and the helper may die after any of them: a crash state is the
 * world after a PREFIX of the effects of an attempt.
 */
module InboundHelper {
  import opened Common

  datatype Mode = Ensure | Reset | Status

  datatype Request = Request(
    commandId: string, requireListen: string, mode: Mode, inboundTag: string, listenPort: nat,
    dest: string, serverNames: seq<string>, flow: string, fingerprint: string, spiderX: string,
    rotateKeys: bool)

  /** What request parsing guarantees about an ensure request. */
  predicate WellFormed(r: Request) {
    r.mode == Ensure ==> 1 <= r.listenPort <= 65535 && 1 <= |r.serverNames| <= 8
  }

  datatype PrivateKey = PrivateKey(scalar: nat)
  datatype PublicKey = PublicKey(scalar: nat)

  /** X25519 public-key derivation, as an injective image of the private key. */
  function PublicOf(k: PrivateKey): PublicKey { PublicKey(k.scalar) }

  datatype RealityKeys = RealityKeys(privateKey: PrivateKey, publicKey: PublicKey, shortId: string)

  predicate Genuine(k: RealityKeys) { k.publicKey == PublicOf(k.privateKey) }

  /** The request fingerprint. Sorting the server names forgets exactly their order. */
  datatype SpecHash = SpecHash(
    inboundTag: string, listenPort: nat, dest: string, serverNames: multiset<string>,
    flow: string, fingerprint: string, spiderX: string)

  function RequestHash(r: Request): SpecHash {
    SpecHash(r.inboundTag, r.listenPort, r.dest, multiset(r.serverNames), r.flow, r.fingerprint, r.spiderX)
  }

  /** Contents of the config fragment; JSON text is equal exactly when these are. */
  datatype Fragment =
    | EmptyFragment
    | Inbound(tag: string, listen: string, port: nat, dest: string, serverNames: seq<string>,
              privateKey: PrivateKey, shortId: string)
    | ForeignText(text: string)

  function RenderInbound(r: Request, keys: RealityKeys, listen: string): Fragment {
    Inbound(r.inboundTag, listen, r.listenPort, r.dest, r.serverNames, keys.privateKey, keys.shortId)
  }

  datatype Record = Record(
    hash: SpecHash, keys: RealityKeys, serverName: string, listen: string, listenPort: nat,
    pinnedDest: string, pending: bool, commandId: string)

  /** Contents of the state file; text that does not parse as a record reads as no state. */
  datatype StateFile = Recorded(record: Record) | Unreadable(text: string)

  datatype Process = Stopped | Running(loaded: Option<Fragment>)

  datatype World = World(config: Option<Fragment>, state: Option<StateFile>, xray: Process)

  function ReadState(w: World): Option<Record> {
    if w.state.Some? && w.state.value.Recorded? then Some(w.state.value.record) else None
  }

  // ----- Fallbacks for records written by older versions -----

  function ListenOf(rec: Record): string { if rec.listen == "" then "0.0.0.0" else rec.listen }

  function PortOf(rec: Record, r: Request): nat { if rec.listenPort == 0 then r.listenPort else rec.listenPort }

  function DestOf(rec: Record, r: Request): string { if rec.pinnedDest == "" then r.dest else rec.pinnedDest }

  /** The fragment a record implies for a request: what configMatches compares the file with. */
  function Implied(rec: Record, r: Request): Fragment {
    RenderInbound(r.(listenPort := PortOf(rec, r), dest := DestOf(rec, r)), rec.keys, ListenOf(rec))
  }

  // ----- Everything the helper cannot decide itself -----

  datatype Host = Host(
    reservedTags: Option<set<string>>,  // tags of the other fragments; None when one is unreadable
    pinnedDest: Option<string>,         // the validated fallback address; None when refused
    serving: bool,                      // Xray listens on the recorded port before the attempt
    listen: Option<string>,             // resolved listen address; None when the host is refused
    portFree: bool, configValid: bool, freshKeys: RealityKeys,
    restartOk: bool, listeningAfter: bool, rollbackRestartOk: bool)

  predicate HostOk(h: Host) {
    && Genuine(h.freshKeys)
    && (h.pinnedDest.Some? ==> h.pinnedDest.value != "")
    && (h.listen.Some? ==> h.listen.value == "::" || h.listen.value == "0.0.0.0")
  }

  // ----- Effects -----

  datatype Effect =
    | SetConfig(config: Option<Fragment>)
    | SetState(state: Option<StateFile>)
    | Restart(ok: bool)

  function Perform(w: World, e: Effect): World {
    match e
    case SetConfig(c) => w.(config := c)
    case SetState(s) => w.(state := s)
    case Restart(ok) => w.(xray := if ok then Running(w.config) else Stopped)
  }

  /** The world after the first `k` effects: the world a crash leaves behind. */
  function After(w: World, effects: seq<Effect>, k: nat): World
    requires k <= |effects|
  {
    if k == 0 then w else Perform(After(w, effects, k - 1), effects[k - 1])
  }

  lemma {:induction false} AfterAppend(w: World, es: seq<Effect>, fs: seq<Effect>, k: nat)
    requires k <= |fs|
    ensures After(w, es + fs, |es| + k) == After(After(w, es, |es|), fs, k)
  {
    if k == 0 {
      AfterPrefix(w, es, fs, |es|);
    } else {
      AfterAppend(w, es, fs, k - 1);
      assert (es + fs)[|es| + k - 1] == fs[k - 1];
    }
  }

  lemma {:induction false} AfterPrefix(w: World, es: seq<Effect>, fs: seq<Effect>, k: nat)
    requires k <= |es|
    ensures After(w, es + fs, k) == After(w, es, k)
  {
    if k > 0 { AfterPrefix(w, es, fs, k - 1); }
  }

  datatype Report = Report(
    deployed: bool, listen: string, changed: bool, restarted: bool, publicKey: Option<PublicKey>,
    shortId: string, serverName: string, listenPort: nat)

  datatype Outcome = Answer(report: Report) | Threw

  /** What an attempt does when nothing kills it: its effects in order, and how it ends. */
  datatype Plan = Plan(effects: seq<Effect>, outcome: Outcome)

  // ----- publishAndRestart -----

  predicate PublishSucceeds(port: nat, h: Host) { h.restartOk && (port == 0 || h.listeningAfter) }

  function PublishEffects(previous: Option<Fragment>, contents: Fragment, port: nat, h: Host): seq<Effect> {
    [SetConfig(Some(contents)), Restart(h.restartOk)]
    + if PublishSucceeds(port, h) then [] else [SetConfig(previous), Restart(h.rollbackRestartOk)]
  }

  // ----- applyRequest -----

  predicate SameCommand(state: Option<Record>, r: Request) {
    r.commandId != "" && state.Some? && state.value.commandId == r.commandId
  }

  /** Both no-op branches: the recorded deployment answers the request as it stands. */
  predicate IsNoOp(w: World, r: Request, h: Host) {
    var state := ReadState(w);
    && state.Some?
    && !state.value.pending
    && w.config == Some(Implied(state.value, r))
    && (r.requireListen == "" || ListenOf(state.value) == r.requireListen)
    && PortOf(state.value, r) > 0 && h.serving
    && (SameCommand(state, r) || (state.value.hash == RequestHash(r) && !r.rotateKeys))
  }

  function NoOpReport(rec: Record, r: Request): Report
    requires |r.serverNames| > 0
  {
    Report(true, ListenOf(rec), false, false, Some(rec.keys.publicKey), rec.keys.shortId,
           if rec.serverName == "" then r.serverNames[0] else rec.serverName, PortOf(rec, r))
  }

  function ChosenKeys(w: World, r: Request, h: Host): RealityKeys {
    var state := ReadState(w);
    if state.Some? && (!r.rotateKeys || SameCommand(state, r)) then state.value.keys else h.freshKeys
  }

  predicate Refused(w: World, r: Request, h: Host) {
    || h.listen.None?
    || (r.requireListen != "" && r.requireListen != h.listen.value)
    || !h.portFree
    || !h.configValid
  }

  function NewRecord(w: World, r: Request, h: Host): Record
    requires |r.serverNames| > 0 && h.listen.Some? && h.pinnedDest.Some?
  {
    Record(RequestHash(r), ChosenKeys(w, r, h), r.serverNames[0], h.listen.value, r.listenPort,
           h.pinnedDest.value, false, r.commandId)
  }

  function Rendered(w: World, r: Request, h: Host): Fragment
    requires h.listen.Some? && h.pinnedDest.Some?
  {
    RenderInbound(r.(dest := h.pinnedDest.value), ChosenKeys(w, r, h), h.listen.value)
  }

  /** Journal, publish, then commit the record or restore the previous state file. */
  function DeployEffects(w: World, rec: Record, rendered: Fragment, h: Host): seq<Effect> {
    [SetState(Some(Recorded(rec.(pending := true))))]
    + PublishEffects(w.config, rendered, rec.listenPort, h)
    + [SetState(if PublishSucceeds(rec.listenPort, h) then Some(Recorded(rec)) else w.state)]
  }

  function EnsurePlan(w: World, r: Request, h: Host): Plan
    requires WellFormed(r) && r.mode == Ensure
  {
    if h.reservedTags.None? || r.inboundTag in h.reservedTags.value || h.pinnedDest.None? then Plan([], Threw)
    else if IsNoOp(w, r, h) then Plan([], Answer(NoOpReport(ReadState(w).value, r)))
    else if Refused(w, r, h) then Plan([], Threw)
    else
      var rec := NewRecord(w, r, h);
      var effects := DeployEffects(w, rec, Rendered(w, r, h), h);
      if PublishSucceeds(r.listenPort, h) then
        Plan(effects, Answer(Report(true, rec.listen, true, true, Some(rec.keys.publicKey), rec.keys.shortId,
                                    rec.serverName, r.listenPort)))
      else
        Plan(effects, Threw)
  }

  function Nothing(changed: bool): Report { Report(false, "", changed, changed, None, "", "", 0) }

  predicate NothingToClear(w: World) {
    ReadState(w).None? && (w.config.None? || w.config == Some(EmptyFragment))
  }

  /** The effects of a reset behind its journal write, if it makes one. */
  function ClearEffects(config: Option<Fragment>, state: Option<StateFile>, h: Host): seq<Effect> {
    PublishEffects(config, EmptyFragment, 0, h)
    + if PublishSucceeds(0, h) then [SetState(None)] else if state.Some? then [SetState(state)] else []
  }

  function ResetPlan(w: World, h: Host): Plan {
    if NothingToClear(w) then Plan([], Answer(Nothing(false)))
    else if !h.configValid then Plan([], Threw)
    else
      var state := ReadState(w);
      var journal := if state.Some? then [SetState(Some(Recorded(state.value.(pending := true))))] else [];
      Plan(journal + ClearEffects(w.config, w.state, h), if PublishSucceeds(0, h) then Answer(Nothing(true)) else Threw)
  }

  function StatusReport(w: World): Report {
    var state := ReadState(w);
    Report(state.Some? || (w.config.Some? && w.config != Some(EmptyFragment)),
           if state.Some? then state.value.listen else "", false, false,
           if state.Some? then Some(state.value.keys.publicKey) else None,
           if state.Some? then state.value.keys.shortId else "",
           if state.Some? then state.value.serverName else "",
           if state.Some? then state.value.listenPort else 0)
  }

  function PlanFor(w: World, r: Request, h: Host): Plan
    requires WellFormed(r)
  {
    match r.mode
    case Status => Plan([], Answer(StatusReport(w)))
    case Reset => ResetPlan(w, h)
    case Ensure => EnsurePlan(w, r, h)
  }

  /** The helper itself, step by step. `trace` records its effects in the order they happen. */
  class Helper {
    var config: Option<Fragment>
    var state: Option<StateFile>
    var xray: Process
    ghost var trace: seq<Effect>

    constructor (w: World)
      ensures Now() == w && trace == []
    {
      config, state, xray := w.config, w.state, w.xray;
      trace := [];
    }

    function Now(): World
      reads this
    {
      World(config, state, xray)
    }

    ghost predicate Did(before: World, past: seq<Effect>, effects: seq<Effect>)
      reads this
    {
      trace == past + effects && Now() == After(before, effects, |effects|)
    }

    method WriteState(s: Option<StateFile>)
      modifies this
      ensures Now() == old(Now()).(state := s) && trace == old(trace) + [SetState(s)]
    {
      state := s;
      trace := trace + [SetState(s)];
    }

    method WriteConfig(c: Option<Fragment>)
      modifies this
      ensures Now() == old(Now()).(config := c) && trace == old(trace) + [SetConfig(c)]
    {
      config := c;
      trace := trace + [SetConfig(c)];
    }

    /** Restarting loads whatever fragment is on disk; a failed restart leaves nothing running. */
    method RestartXray(ok: bool)
      modifies this
      ensures Now() == Perform(old(Now()), Restart(ok)) && trace == old(trace) + [Restart(ok)]
    {
      xray := if ok then Running(config) else Stopped;
      trace := trace + [Restart(ok)];
    }

    /** Publishes, restarts, and rolls the file back unless Xray ends up serving. */
    method PublishAndRestart(contents: Fragment, port: nat, h: Host) returns (ok: bool)
      modifies this
      ensures ok == PublishSucceeds(port, h)
      ensures Did(old(Now()), old(trace), PublishEffects(old(config), contents, port, h))
      ensures state == old(state)
    {
      var previous := config;
      WriteConfig(Some(contents));
      RestartXray(h.restartOk);
      ok := h.restartOk && (port == 0 || h.listeningAfter);
      ghost var effects := PublishEffects(previous, contents, port, h);
      assert After(old(Now()), effects, 1) == old(Now()).(config := Some(contents));
      assert After(old(Now()), effects, 2) == Now();
      if !ok {
        WriteConfig(previous);
        RestartXray(h.rollbackRestartOk);
        assert After(old(Now()), effects, 3).config == previous;
        assert After(old(Now()), effects, 4) == Now();
      }
    }

    method ClearInbound(h: Host) returns (o: Outcome)
      modifies this
      ensures o == ResetPlan(old(Now()), h).outcome
      ensures Did(old(Now()), old(trace), ResetPlan(old(Now()), h).effects)
    {
      ghost var w, past := Now(), trace;
      var known := ReadState(Now());
      if known.None? && (config.None? || config == Some(EmptyFragment)) {
        return Answer(Nothing(false));
      }
      if !h.configValid { return Threw; }
      var committed := state;
      ghost var journal: seq<Effect> := [];
      if known.Some? {
        WriteState(Some(Recorded(known.value.(pending := true))));
        journal := [SetState(Some(Recorded(known.value.(pending := true))))];
        assert After(w, journal, 1) == Now();
      }
      ghost var clear := ClearEffects(w.config, committed, h);
      var ok := PublishEmpty(committed, h);
      AfterAppend(w, journal, clear, |clear|);
      ConcatAssociates(past, journal, clear);
      return if ok then Answer(Nothing(true)) else Threw;
    }

    /** Publish the empty fragment, then drop the state file or put the committed one back. */
    method PublishEmpty(committed: Option<StateFile>, h: Host) returns (ok: bool)
      modifies this
      ensures ok == PublishSucceeds(0, h)
      ensures Did(old(Now()), old(trace), ClearEffects(old(config), committed, h))
    {
      ghost var w, past := Now(), trace;
      ok := PublishAndRestart(EmptyFragment, 0, h);
      ghost var publish := PublishEffects(w.config, EmptyFragment, 0, h);
      if ok {
        WriteState(None);
        AfterAppend(w, publish, [SetState(None)], 1);
      } else if committed.Some? {
        WriteState(committed);
        AfterAppend(w, publish, [SetState(committed)], 1);
      } else {
        ConcatEmpty(publish);
      }
    }

    method PublishJournalled(rec: Record, rendered: Fragment, h: Host) returns (ok: bool)
      modifies this
      ensures ok == PublishSucceeds(rec.listenPort, h)
      ensures Did(old(Now()), old(trace), DeployEffects(old(Now()), rec, rendered, h))
    {
      ghost var w, past := Now(), trace;
      var committed := state;
      WriteState(Some(Recorded(rec.(pending := true))));
      ghost var journal := [SetState(Some(Recorded(rec.(pending := true))))];
      assert After(w, journal, 1) == Now();
      ok := PublishAndRestart(rendered, rec.listenPort, h);
      ghost var publish := PublishEffects(w.config, rendered, rec.listenPort, h);
      AfterAppend(w, journal, publish, |publish|);
      ghost var done := journal + publish;
      assert Did(w, past, done);
      var final := if ok then Some(Recorded(rec)) else committed;
      WriteState(final);
      AfterAppend(w, done, [SetState(final)], 1);
    }

    /** Both shortcuts that answer without touching anything. */
    method AnswerAsItStands(r: Request, h: Host) returns (report: Option<Report>)
      requires WellFormed(r) && r.mode == Ensure
      ensures report == if IsNoOp(Now(), r, h) then Some(NoOpReport(ReadState(Now()).value, r)) else None
    {
      var known := ReadState(Now());
      if known.None? { return None; }
      var rec := known.value;
      var same := r.commandId != "" && rec.commandId == r.commandId;
      var usable := !rec.pending && config == Some(Implied(rec, r))
                 && (r.requireListen == "" || ListenOf(rec) == r.requireListen)
                 && PortOf(rec, r) > 0 && h.serving;
      if same && usable { return Some(NoOpReport(rec, r)); }
      if rec.hash == RequestHash(r) && !r.rotateKeys && usable { return Some(NoOpReport(rec, r)); }
      return None;
    }

    method DeployInbound(r: Request, h: Host) returns (o: Outcome)
      requires WellFormed(r) && r.mode == Ensure
      modifies this
      ensures o == EnsurePlan(old(Now()), r, h).outcome
      ensures Did(old(Now()), old(trace), EnsurePlan(old(Now()), r, h).effects)
    {
      ghost var w, past := Now(), trace;
      if h.reservedTags.None? || r.inboundTag in h.reservedTags.value { return Threw; }
      if h.pinnedDest.None? { return Threw; }
      var shortcut := AnswerAsItStands(r, h);
      if shortcut.Some? { return Answer(shortcut.value); }
      var known := ReadState(Now());
      var same := r.commandId != "" && known.Some? && known.value.commandId == r.commandId;
      var keys := if known.Some? && (!r.rotateKeys || same) then known.value.keys else h.freshKeys;
      if h.listen.None? { return Threw; }
      if r.requireListen != "" && r.requireListen != h.listen.value { return Threw; }
      var rendered := RenderInbound(r.(dest := h.pinnedDest.value), keys, h.listen.value);
      if !h.portFree || !h.configValid { return Threw; }
      var rec := Record(RequestHash(r), keys, r.serverNames[0], h.listen.value, r.listenPort, h.pinnedDest.value,
                        false, r.commandId);
      assert rec == NewRecord(w, r, h) && rendered == Rendered(w, r, h);
      var ok := PublishJournalled(rec, rendered, h);
      if !ok { return Threw; }
      return Answer(Report(true, rec.listen, true, true, Some(keys.publicKey), keys.shortId,
                           rec.serverName, r.listenPort));
    }

    /** applyRequest: the effects and the answer are exactly those of the plan. */
    method ApplyRequest(r: Request, h: Host) returns (o: Outcome)
      requires WellFormed(r)
      modifies this
      ensures o == PlanFor(old(Now()), r, h).outcome
      ensures Did(old(Now()), old(trace), PlanFor(old(Now()), r, h).effects)
    {
      match r.mode {
        case Status => o := Answer(StatusReport(Now()));
        case Reset => o := ClearInbound(h);
        case Ensure => o := DeployInbound(r, h);
      }
    }
  }
}
