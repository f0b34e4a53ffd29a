/** The Tool Gateway's request machine (internal/gateway/gateway.go). Any
    number of CallTool requests run interleaved over the shared routing table,
    usage counters and provenance cache. Identity, policy, audit store, broker
    and upstreams are oracles whose answers the labels of a run carry. */
module ToolGateway {
  import opened Types
  import opened Interleaving
  import U = UsageWindow
  import P = ProvenanceTracking
  import O = Obligations

  // ---------- configuration and requests ----------

  datatype AgentEntry = AgentEntry(version: string)
  datatype ToolEntry = ToolEntry(upstream: string, risk: string, dataClasses: seq<string>, scopes: seq<string>)

  datatype Config = Config(
    agents: map<string, AgentEntry>,
    tools: map<string, ToolEntry>,
    upstreamProvenance: map<string, Provenance>,
    brokered: bool)

  datatype Request = Request(credential: string, requestId: string, tool: string, arguments: map<string, Json>)

  datatype Response = UnknownTool | Refused(reason: string) | CallFailed | Delivered(result: ToolResult)

  /** agentDenyReason: declared, and not asserting another version than the pinned one. */
  predicate AgentDeclared(c: Config, subject: Subject) {
    && subject.id in c.agents
    && var pinned := c.agents[subject.id].version;
       pinned == "" || subject.agentVersion == "" || pinned == subject.agentVersion
  }

  function AgentDenyReason(c: Config, subject: Subject): string {
    if subject.id !in c.agents then "agent is not registered"
    else "agent is registered for version " + c.agents[subject.id].version +
         ", but this instance asserts version " + subject.agentVersion
  }

  function PinDenyReason(tool: string, declared: string, actual: string): string {
    "tool " + tool + " is registered to upstream " + declared + ", but would be routed to " + actual
  }

  /** The upstream pin: an entry without one may be routed anywhere. */
  predicate PinHolds(entry: ToolEntry, upstream: string) {
    entry.upstream == "" || entry.upstream == upstream
  }

  /** The label for what an upstream returns: untrusted unless configured. */
  function LabelFor(c: Config, upstream: string): Provenance {
    if upstream in c.upstreamProvenance then c.upstreamProvenance[upstream] else Provenance(upstream, false)
  }

  /** What the agent receives for a successful upstream call. */
  function Deliver(d: Decision, raw: ToolResult): ToolResult {
    if d.outcome == AllowWithObligations then O.Apply(raw, d.obligations) else raw
  }

  // ---------- records ----------

  /** Which gate stopped a request before it was counted. */
  datatype Gate = Identity | AgentGate | Declaration | Pin

  function GatePolicyId(g: Gate): string {
    match g
    case Identity => "identity.unresolved"
    case AgentGate => "agentregistry.undeclared"
    case Declaration => "toolregistry.undeclared"
    case Pin => "toolregistry.upstream_mismatch"
  }

  const UNKNOWN_SUBJECT := Subject("unknown", Agent, "", [], [], 0)

  function GateRecord(now: Time, subject: Subject, tool: string, g: Gate, reason: string): ActionRecord {
    ActionRecord(now, subject, BareAction("tool_call", tool),
                 Decision(Deny, [], GatePolicyId(g), reason), Denied, None)
  }

  function DecisionRecord(now: Time, dr: DecisionRequest, d: Decision): ActionRecord {
    ActionRecord(now, dr.subject, dr.action, d, if Permits(d) then Allowed else Denied, None)
  }

  function FailureRecord(at: Time, dr: DecisionRequest, d: Decision): ActionRecord {
    ActionRecord(at, dr.subject, dr.action, d, Failed, None)
  }

  // ---------- processes ----------

  datatype Event =
    | Identified(who: Option<Subject>)
    | Routed(route: Option<string>)
    | Counted(subject: string, at: Time, calls: int)
    | Asked(request: DecisionRequest)
    | Appended(record: ActionRecord)
    | AppendFailed(lost: ActionRecord)
    | Exchanged(minted: bool)
    | Called(caller: Subject, upstream: string, action: Action, start: Time, decision: Decision,
             raw: Option<ToolResult>)
    | Remembered(sighting: P.Sighting)

  /** The program counter of a request with the locals it still needs. */
  datatype Phase =
    | Fresh
    | Denying(gate: Gate, record: ActionRecord, who: Option<Subject>, route: Option<string>)
    | Routing(subject: Subject)
    | Tainting(subject: Subject, upstream: string, entry: ToolEntry, left: map<string, Json>, done: map<string, Value>)
    | Asking(dr: DecisionRequest, upstream: string)
    | Recording(dr: DecisionRequest, upstream: string, decision: Decision)
    | Authorized(dr: DecisionRequest, upstream: string, decision: Decision)
    | Credentialed(dr: DecisionRequest, upstream: string, decision: Decision)
    | Remembering(dr: DecisionRequest, upstream: string, decision: Decision, raw: ToolResult,
                  pending: seq<string>, remembered: seq<P.Sighting>)
    | Failing(dr: DecisionRequest, upstream: string, decision: Decision, reached: bool)
    | Finished(from: Phase, last: seq<Event>, response: Response)

  /** `now` is read once, when the request starts. */
  datatype Proc = Proc(request: Request, now: Time, phase: Phase)

  datatype State = State(
    procs: map<nat, Proc>,
    routes: map<string, string>,
    usage: U.State,
    prov: P.Store,
    trace: seq<Tagged<Event>>)

  function Initial(): State {
    State(map[], map[], map[], map[], [])
  }

  // ---------- steps ----------

  /** One step of one request, with the oracle's answer if it consults one. */
  datatype Label =
    | Begin(pid: nat, request: Request, now: Time)
    | Refresh(routes: map<string, string>)
    | Identify(pid: nat, who: Option<Subject>, error: string)
    | Route(pid: nat)
    | Taint(pid: nat, argument: string)
    | CountUsage(pid: nat)
    | Decide(pid: nat, answer: Option<Decision>, error: string)
    | Append(pid: nat, ok: bool, at: Time)
    | Exchange(pid: nat, ok: bool)
    | Call(pid: nat, raw: Option<ToolResult>, visited: seq<Json>)
    | Remember(pid: nat)
    | Finish(pid: nat)

  datatype Move = Move(phase: Phase, events: seq<Event>, usage: U.State, prov: P.Store)

  function Refusal(d: Decision): Response {
    Refused(if d.reason == "" then "denied by policy" else d.reason)
  }

  /** A caller with an unknown credential is not told why it was unknown. */
  function GateRefusal(gate: Gate, record: ActionRecord): Response {
    Refused(if gate == Identity then "credential not recognized" else record.decision.reason)
  }

  function TaintValue(prov: P.Store, subject: Subject, v: Json, now: Time): Value {
    Value(v, if v.Str? then P.Resolve(prov, subject.id, v.text, now) else P.UNTRUSTED)
  }

  function ActionFor(p: Proc, entry: ToolEntry, arguments: map<string, Value>): Action {
    Action("tool_call", p.request.tool, "", arguments, entry.risk, entry.dataClasses, entry.scopes)
  }

  function RequestFor(p: Proc, subject: Subject, action: Action, calls: nat): DecisionRequest {
    DecisionRequest(subject, action, p.request.requestId, p.now, Usage(calls, U.Seconds(U.DEFAULT_WINDOW)))
  }

  /** The order in which the strings of a delivered document are remembered. */
  ghost predicate RemembersInOrder(delivered: ToolResult, visited: seq<Json>) {
    if delivered.structured.Doc? then P.Visits(delivered.structured.tree, visited) else visited == []
  }

  // The handlers below follow CallTool branch by branch; each takes the request
  // in the phase it belongs to and says what changes.

  function Stay(s: State, phase: Phase, events: seq<Event>): Move {
    Move(phase, events, s.usage, s.prov)
  }

  function OnIdentify(c: Config, s: State, p: Proc, who: Option<Subject>, error: string): Move {
    var tool := p.request.tool;
    var next :=
      match who
      case None => Denying(Identity, GateRecord(p.now, UNKNOWN_SUBJECT, tool, Identity, error), None, None)
      case Some(subject) =>
        if AgentDeclared(c, subject) then Routing(subject)
        else Denying(AgentGate, GateRecord(p.now, subject, tool, AgentGate, AgentDenyReason(c, subject)), who, None);
    Stay(s, next, [Identified(who)])
  }

  /** The upstream the routing table names for a tool. */
  function RouteOf(routes: map<string, string>, tool: string): Option<string> {
    if tool in routes then Some(routes[tool]) else None
  }

  function OnRoute(c: Config, s: State, p: Proc, subject: Subject): Move {
    var tool, route := p.request.tool, RouteOf(s.routes, p.request.tool);
    var next :=
      if route.None? then Finished(p.phase, [Routed(route)], UnknownTool)
      else if tool !in c.tools then
        Denying(Declaration, GateRecord(p.now, subject, tool, Declaration, "tool is not registered"),
                Some(subject), route)
      else if !PinHolds(c.tools[tool], route.value) then
        Denying(Pin, GateRecord(p.now, subject, tool, Pin, PinDenyReason(tool, c.tools[tool].upstream, route.value)),
                Some(subject), route)
      else Tainting(subject, route.value, c.tools[tool], p.request.arguments, map[]);
    Stay(s, next, [Routed(route)])
  }

  function OnTaint(s: State, p: Proc, argument: string): Move
    requires p.phase.Tainting? && argument in p.phase.left
  {
    var value := TaintValue(s.prov, p.phase.subject, p.phase.left[argument], p.now);
    Stay(s, p.phase.(left := p.phase.left - {argument}, done := p.phase.done[argument := value]), [])
  }

  function OnCount(s: State, p: Proc): Move
    requires p.phase.Tainting? && p.phase.left == map[]
  {
    var subject := p.phase.subject;
    var calls := U.Count(s.usage, subject.id, p.now, U.DEFAULT_WINDOW) + 1;
    var action := ActionFor(p, p.phase.entry, p.phase.done);
    Move(Asking(RequestFor(p, subject, action, calls), p.phase.upstream),
         [Counted(subject.id, p.now, calls)],
         U.Record(s.usage, subject.id, p.now, U.DEFAULT_WINDOW), s.prov)
  }

  /** A policy error is a denial. */
  function DecisionOf(answer: Option<Decision>, error: string): Decision {
    match answer
    case Some(d) => d
    case None => Decision(Deny, [], "pdp.error", error)
  }

  function OnDecide(s: State, p: Proc, answer: Option<Decision>, error: string): Move
    requires p.phase.Asking?
  {
    Stay(s, Recording(p.phase.dr, p.phase.upstream, DecisionOf(answer, error)), [Asked(p.phase.dr)])
  }

  function Attempted(record: ActionRecord, ok: bool): Event {
    if ok then Appended(record) else AppendFailed(record)
  }

  function OnAppendDenial(s: State, p: Proc, ok: bool): Move
    requires p.phase.Denying?
  {
    var event := Attempted(p.phase.record, ok);
    Stay(s, Finished(p.phase, [event], GateRefusal(p.phase.gate, p.phase.record)), [event])
  }

  function OnAppendDecision(s: State, p: Proc, ok: bool): Move
    requires p.phase.Recording?
  {
    var d := p.phase.decision;
    var event := Attempted(DecisionRecord(p.now, p.phase.dr, d), ok);
    if !ok then Stay(s, Finished(p.phase, [event], Refused("could not durably record this decision, denying")), [event])
    else if Permits(d) then Stay(s, Authorized(p.phase.dr, p.phase.upstream, d), [event])
    else Stay(s, Finished(p.phase, [event], Refusal(d)), [event])
  }

  function OnAppendFailure(s: State, p: Proc, ok: bool, at: Time): Move
    requires p.phase.Failing?
  {
    var event := Attempted(FailureRecord(at, p.phase.dr, p.phase.decision), ok);
    Stay(s, Finished(p.phase, [event], CallFailed), [event])
  }

  function OnExchange(s: State, p: Proc, ok: bool): Move
    requires p.phase.Authorized?
  {
    var dr, upstream, d := p.phase.dr, p.phase.upstream, p.phase.decision;
    Stay(s, if ok then Credentialed(dr, upstream, d) else Failing(dr, upstream, d, false), [Exchanged(ok)])
  }

  function OnCall(s: State, p: Proc, raw: Option<ToolResult>, visited: seq<Json>): Move
    requires p.phase.Authorized? || p.phase.Credentialed?
  {
    var dr, upstream, d := p.phase.dr, p.phase.upstream, p.phase.decision;
    var event := Called(dr.subject, upstream, dr.action, p.now, d, raw);
    match raw
    case None => Stay(s, Failing(dr, upstream, d, true), [event])
    case Some(r) => Stay(s, Remembering(dr, upstream, d, r, P.Strings(visited), []), [event])
  }

  function OnRemember(c: Config, s: State, p: Proc): Move
    requires p.phase.Remembering? && p.phase.pending != []
  {
    var x := P.Sighting(p.phase.dr.subject.id, p.phase.pending[0], LabelFor(c, p.phase.upstream), p.now);
    Move(p.phase.(pending := p.phase.pending[1..], remembered := p.phase.remembered + [x]), [Remembered(x)],
         s.usage, P.Record(s.prov, x, P.CACHE_MAX_SIZE, P.CACHE_TTL))
  }

  function OnFinish(s: State, p: Proc): Move
    requires p.phase.Remembering?
  {
    Stay(s, Finished(p.phase, [], Delivered(Deliver(p.phase.decision, p.phase.raw))), [])
  }

  /** When a label fits the phase of its request. */
  ghost predicate Enabled(c: Config, p: Proc, l: Label) {
    match l
    case Identify(_, _, _) => p.phase.Fresh?
    case Route(_) => p.phase.Routing?
    case Taint(_, a) => p.phase.Tainting? && a in p.phase.left
    case CountUsage(_) => p.phase.Tainting? && p.phase.left == map[]
    case Decide(_, _, _) => p.phase.Asking?
    case Append(_, _, _) => p.phase.Denying? || p.phase.Recording? || p.phase.Failing?
    case Exchange(_, _) => p.phase.Authorized? && c.brokered
    case Call(_, raw, visited) =>
      && (if c.brokered then p.phase.Credentialed? else p.phase.Authorized?)
      && (raw.Some? ==> RemembersInOrder(Deliver(p.phase.decision, raw.value), visited))
    case Remember(_) => p.phase.Remembering? && p.phase.pending != []
    case Finish(_) => p.phase.Remembering? && p.phase.pending == []
    case _ => false
  }

  ghost function Advance(c: Config, s: State, p: Proc, l: Label): Move
    requires Enabled(c, p, l)
  {
    match l
    case Identify(_, who, error) => OnIdentify(c, s, p, who, error)
    case Route(_) => OnRoute(c, s, p, p.phase.subject)
    case Taint(_, a) => OnTaint(s, p, a)
    case CountUsage(_) => OnCount(s, p)
    case Decide(_, answer, error) => OnDecide(s, p, answer, error)
    case Append(_, ok, at) =>
      if p.phase.Denying? then OnAppendDenial(s, p, ok)
      else if p.phase.Recording? then OnAppendDecision(s, p, ok)
      else OnAppendFailure(s, p, ok, at)
    case Exchange(_, ok) => OnExchange(s, p, ok)
    case Call(_, raw, visited) => OnCall(s, p, raw, visited)
    case Remember(_) => OnRemember(c, s, p)
    case Finish(_) => OnFinish(s, p)
  }

  /** A label that does not fit has no effect. */
  ghost function Step(c: Config, s: State, l: Label): State {
    match l
    case Begin(pid, request, now) =>
      if pid in s.procs then s else s.(procs := s.procs[pid := Proc(request, now, Fresh)])
    case Refresh(routes) => s.(routes := routes)
    case _ =>
      if l.pid in s.procs && Enabled(c, s.procs[l.pid], l)
      then Moved(s, l.pid, Advance(c, s, s.procs[l.pid], l))
      else s
  }

  function Moved(s: State, pid: nat, m: Move): State
    requires pid in s.procs
  {
    State(s.procs[pid := s.procs[pid].(phase := m.phase)], s.routes, m.usage, m.prov, s.trace + Tag(pid, m.events))
  }

  /** Every sequence of labels is a run: every interleaving of any number of
      requests, with every combination of oracle answers and failures. */
  ghost function Run(c: Config, labels: seq<Label>): State {
    if labels == [] then Initial()
    else Step(c, Run(c, labels[..|labels| - 1]), labels[|labels| - 1])
  }

  // ---------- the events of one request ----------

  function RememberedEvents(xs: seq<P.Sighting>): (r: seq<Event>)
    ensures |r| == |xs| && forall i | 0 <= i < |xs| :: r[i] == Remembered(xs[i])
  {
    seq(|xs|, i requires 0 <= i < |xs| => Remembered(xs[i]))
  }

  function RoutedTrail(subject: Subject, upstream: string): seq<Event> {
    [Identified(Some(subject)), Routed(Some(upstream))]
  }

  function CountedTrail(now: Time, dr: DecisionRequest, upstream: string): seq<Event> {
    RoutedTrail(dr.subject, upstream) + [Counted(dr.subject.id, now, dr.usage.callsInWindow)]
  }

  function DecidedTrail(now: Time, dr: DecisionRequest, upstream: string): seq<Event> {
    CountedTrail(now, dr, upstream) + [Asked(dr)]
  }

  function AuthorizedTrail(now: Time, dr: DecisionRequest, upstream: string, d: Decision): seq<Event> {
    DecidedTrail(now, dr, upstream) + [Appended(DecisionRecord(now, dr, d))]
  }

  function ReadyTrail(c: Config, now: Time, dr: DecisionRequest, upstream: string, d: Decision): seq<Event> {
    AuthorizedTrail(now, dr, upstream, d) + if c.brokered then [Exchanged(true)] else []
  }

  function RunningTrail(c: Config, now: Time, phase: Phase): seq<Event> {
    match phase
    case Denying(gate, _, who, route) =>
      [Identified(who)] + if gate == Declaration || gate == Pin then [Routed(route)] else []
    case Routing(subject) => [Identified(Some(subject))]
    case Tainting(subject, upstream, _, _, _) => RoutedTrail(subject, upstream)
    case Asking(dr, upstream) => CountedTrail(now, dr, upstream)
    case Recording(dr, upstream, _) => DecidedTrail(now, dr, upstream)
    case Authorized(dr, upstream, d) => AuthorizedTrail(now, dr, upstream, d)
    case Credentialed(dr, upstream, d) => ReadyTrail(c, now, dr, upstream, d)
    case Remembering(dr, upstream, d, raw, _, remembered) =>
      ReadyTrail(c, now, dr, upstream, d) + [Called(dr.subject, upstream, dr.action, now, d, Some(raw))] +
      RememberedEvents(remembered)
    case Failing(dr, upstream, d, reached) =>
      if reached then ReadyTrail(c, now, dr, upstream, d) + [Called(dr.subject, upstream, dr.action, now, d, None)]
      else AuthorizedTrail(now, dr, upstream, d) + [Exchanged(false)]
    case _ => []
  }

  /** Exactly the events a request has emitted, given where it stands. */
  function Trail(c: Config, now: Time, phase: Phase): seq<Event> {
    if phase.Finished? then RunningTrail(c, now, phase.from) + phase.last else RunningTrail(c, now, phase)
  }

  /** The action names the tool and carries its registry entry's metadata. */
  predicate Describes(action: Action, tool: string, entry: ToolEntry) {
    && action.kind == "tool_call" && action.tool == tool && action.resource == ""
    && action.risk == entry.risk && action.dataClasses == entry.dataClasses && action.requiredScopes == entry.scopes
  }

  /** The gates a counted request has passed, and what it asks about. */
  predicate Admitted(c: Config, p: Proc, dr: DecisionRequest, upstream: string) {
    && AgentDeclared(c, dr.subject)
    && p.request.tool in c.tools
    && PinHolds(c.tools[p.request.tool], upstream)
    && dr.time == p.now && dr.requestId == p.request.requestId
    && dr.usage.windowSeconds == U.Seconds(U.DEFAULT_WINDOW)
    && Describes(dr.action, p.request.tool, c.tools[p.request.tool])
    && dr.action.arguments.Keys == p.request.arguments.Keys
    && (forall a | a in dr.action.arguments :: dr.action.arguments[a].data == p.request.arguments[a])
  }

  predicate TopLevelOf(phase: Phase, value: string)
    requires phase.Remembering?
  {
    var delivered := Deliver(phase.decision, phase.raw);
    delivered.structured.Doc? && P.IsTopLevelString(delivered.structured.tree, value)
  }

  /** Why a gate denial is justified, given the identity and the route found. */
  predicate GateClosed(c: Config, p: Proc, gate: Gate, record: ActionRecord, who: Option<Subject>,
                       route: Option<string>) {
    && record.outcome == Denied && !Permits(record.decision) && record.decision.policyId == GatePolicyId(gate)
    && record.action == BareAction("tool_call", p.request.tool)
    && record.subject == (if who.Some? then who.value else UNKNOWN_SUBJECT)
    && match gate
       case Identity => who.None?
       case AgentGate => who.Some? && !AgentDeclared(c, who.value)
       case Declaration => who.Some? && AgentDeclared(c, who.value) && route.Some? && p.request.tool !in c.tools
       case Pin =>
         && who.Some? && AgentDeclared(c, who.value) && route.Some?
         && p.request.tool in c.tools && !PinHolds(c.tools[p.request.tool], route.value)
  }

  /** What holds of a request in each phase. */
  predicate ValidRunning(c: Config, p: Proc, phase: Phase) {
    match phase
    case Fresh => true
    case Denying(gate, record, who, route) => GateClosed(c, p, gate, record, who, route)
    case Routing(subject) => AgentDeclared(c, subject)
    case Tainting(subject, upstream, entry, left, done) =>
      && AgentDeclared(c, subject)
      && p.request.tool in c.tools && entry == c.tools[p.request.tool]
      && PinHolds(entry, upstream)
      && left.Keys + done.Keys == p.request.arguments.Keys
      && (forall a | a in left :: left[a] == p.request.arguments[a])
      && (forall a | a in done :: done[a].data == p.request.arguments[a])
    case Asking(dr, upstream) => Admitted(c, p, dr, upstream)
    case Recording(dr, upstream, d) => Admitted(c, p, dr, upstream)
    case Authorized(dr, upstream, d) => Admitted(c, p, dr, upstream) && Permits(d)
    case Credentialed(dr, upstream, d) => Admitted(c, p, dr, upstream) && Permits(d) && c.brokered
    case Remembering(dr, upstream, d, raw, pending, remembered) =>
      && Admitted(c, p, dr, upstream) && Permits(d)
      && (forall v | v in pending :: TopLevelOf(phase, v))
      && (forall x | x in remembered ::
            && TopLevelOf(phase, x.value)
            && x.subject == dr.subject.id && x.provenance == LabelFor(c, upstream) && x.at == p.now)
    case Failing(dr, upstream, d, reached) => Admitted(c, p, dr, upstream) && Permits(d)
    case Finished(_, _, _) => false
  }

  /** How a request can end, and with which response. */
  predicate Ends(p: Proc, from: Phase, last: seq<Event>, response: Response) {
    match from
    case Denying(gate, record, _, _) =>
      && (last == [Appended(record)] || last == [AppendFailed(record)])
      && response == Refused(if gate == Identity then "credential not recognized" else record.decision.reason)
    case Routing(_) => last == [Routed(None)] && response == UnknownTool
    case Recording(dr, _, d) =>
      var record := DecisionRecord(p.now, dr, d);
      || (last == [AppendFailed(record)] && response == Refused("could not durably record this decision, denying"))
      || (&& last == [Appended(record)] && !Permits(d)
          && response == Refused(if d.reason == "" then "denied by policy" else d.reason))
    case Failing(dr, _, d, _) =>
      && response == CallFailed && |last| == 1
      && (match last[0]
          case Appended(record) => record == FailureRecord(record.timestamp, dr, d)
          case AppendFailed(record) => record == FailureRecord(record.timestamp, dr, d)
          case _ => false)
    case Remembering(_, _, d, raw, pending, _) => last == [] && pending == [] && response == Delivered(Deliver(d, raw))
    case _ => false
  }

  predicate Valid(c: Config, p: Proc, phase: Phase) {
    if phase.Finished? then ValidRunning(c, p, phase.from) && Ends(p, phase.from, phase.last, phase.response)
    else ValidRunning(c, p, phase)
  }

  ghost predicate LocalInvariant(c: Config, s: State) {
    && (forall pid | pid in s.procs :: Valid(c, s.procs[pid], s.procs[pid].phase))
    && (forall pid: nat ::
          Project(s.trace, pid) ==
          if pid in s.procs then Trail(c, s.procs[pid].now, s.procs[pid].phase) else [])
  }

  /** A move keeps the request valid and emits exactly what its trail grows by. */
  predicate Sound(c: Config, p: Proc, m: Move) {
    && Valid(c, p, m.phase)
    && Trail(c, p.now, m.phase) == Trail(c, p.now, p.phase) + m.events
  }

  lemma IdentifyIsSound(c: Config, s: State, p: Proc, who: Option<Subject>, error: string)
    requires Valid(c, p, p.phase) && p.phase.Fresh?
    ensures Sound(c, p, OnIdentify(c, s, p, who, error))
  {
  }

  lemma RouteIsSound(c: Config, s: State, p: Proc)
    requires Valid(c, p, p.phase) && p.phase.Routing?
    ensures Sound(c, p, OnRoute(c, s, p, p.phase.subject))
  {
  }

  lemma TaintIsSound(c: Config, s: State, p: Proc, a: string)
    requires Valid(c, p, p.phase) && p.phase.Tainting? && a in p.phase.left
    ensures Sound(c, p, OnTaint(s, p, a))
  {
    var after := OnTaint(s, p, a).phase;
    assert after.left.Keys + after.done.Keys == p.phase.left.Keys + p.phase.done.Keys;
  }

  lemma CountIsSound(c: Config, s: State, p: Proc)
    requires Valid(c, p, p.phase) && p.phase.Tainting? && p.phase.left == map[]
    ensures Sound(c, p, OnCount(s, p))
  {
  }

  lemma DecideIsSound(c: Config, s: State, p: Proc, answer: Option<Decision>, error: string)
    requires Valid(c, p, p.phase) && p.phase.Asking?
    ensures Sound(c, p, OnDecide(s, p, answer, error))
  {
  }

  lemma ExchangeIsSound(c: Config, s: State, p: Proc, ok: bool)
    requires Valid(c, p, p.phase) && p.phase.Authorized? && c.brokered
    ensures Sound(c, p, OnExchange(s, p, ok))
  {
  }

  lemma FinishIsSound(c: Config, s: State, p: Proc)
    requires Valid(c, p, p.phase) && p.phase.Remembering? && p.phase.pending == []
    ensures Sound(c, p, OnFinish(s, p))
  {
  }

  lemma DenialIsSound(c: Config, s: State, p: Proc, ok: bool)
    requires Valid(c, p, p.phase) && p.phase.Denying?
    ensures Sound(c, p, OnAppendDenial(s, p, ok))
  {
  }

  lemma DecisionIsSound(c: Config, s: State, p: Proc, ok: bool)
    requires Valid(c, p, p.phase) && p.phase.Recording?
    ensures Sound(c, p, OnAppendDecision(s, p, ok))
  {
  }

  lemma FailureIsSound(c: Config, s: State, p: Proc, ok: bool, at: Time)
    requires Valid(c, p, p.phase) && p.phase.Failing?
    ensures Sound(c, p, OnAppendFailure(s, p, ok, at))
  {
  }

  lemma CallIsSound(c: Config, s: State, p: Proc, raw: Option<ToolResult>, visited: seq<Json>)
    requires Valid(c, p, p.phase)
    requires if c.brokered then p.phase.Credentialed? else p.phase.Authorized?
    requires raw.Some? ==> RemembersInOrder(Deliver(p.phase.decision, raw.value), visited)
    ensures Sound(c, p, OnCall(s, p, raw, visited))
  {
    if raw.Some? {
      var delivered := Deliver(p.phase.decision, raw.value);
      forall v | v in P.Strings(visited) ensures TopLevelOf(OnCall(s, p, raw, visited).phase, v) {
        if delivered.structured.Doc? {
          P.VisitsFindTopLevelStrings(delivered.structured.tree, visited, v);
        }
      }
    }
  }

  lemma RememberIsSound(c: Config, s: State, p: Proc)
    requires Valid(c, p, p.phase) && p.phase.Remembering? && p.phase.pending != []
    ensures Sound(c, p, OnRemember(c, s, p))
  {
    var m := OnRemember(c, s, p);
    assert RememberedEvents(m.phase.remembered) == RememberedEvents(p.phase.remembered) + m.events;
    forall v | v in m.phase.pending ensures TopLevelOf(m.phase, v) {
      assert v in p.phase.pending && TopLevelOf(p.phase, v);
    }
    assert p.phase.pending[0] in p.phase.pending;
    forall x | x in m.phase.remembered ensures TopLevelOf(m.phase, x.value) {
      assert TopLevelOf(p.phase, x.value);
    }
  }

  lemma AppendIsSound(c: Config, s: State, p: Proc, l: Label)
    requires Valid(c, p, p.phase) && Enabled(c, p, l) && l.Append?
    ensures Sound(c, p, Advance(c, s, p, l))
  {
    if p.phase.Denying? {
      DenialIsSound(c, s, p, l.ok);
    } else if p.phase.Recording? {
      DecisionIsSound(c, s, p, l.ok);
    } else {
      FailureIsSound(c, s, p, l.ok, l.at);
    }
  }

  lemma AskIsSound(c: Config, s: State, p: Proc, l: Label)
    requires Valid(c, p, p.phase) && Enabled(c, p, l)
    requires l.Identify? || l.Route? || l.Taint? || l.CountUsage? || l.Decide?
    ensures Sound(c, p, Advance(c, s, p, l))
  {
    match l
    case Identify(_, who, error) => IdentifyIsSound(c, s, p, who, error);
    case Route(_) => RouteIsSound(c, s, p);
    case Taint(_, a) => TaintIsSound(c, s, p, a);
    case CountUsage(_) => CountIsSound(c, s, p);
    case Decide(_, answer, error) => DecideIsSound(c, s, p, answer, error);
  }

  lemma EffectIsSound(c: Config, s: State, p: Proc, l: Label)
    requires Valid(c, p, p.phase) && Enabled(c, p, l) && (l.Exchange? || l.Call? || l.Remember? || l.Finish?)
    ensures Sound(c, p, Advance(c, s, p, l))
  {
    match l
    case Exchange(_, ok) => ExchangeIsSound(c, s, p, ok);
    case Call(_, raw, visited) => CallIsSound(c, s, p, raw, visited);
    case Remember(_) => RememberIsSound(c, s, p);
    case Finish(_) => FinishIsSound(c, s, p);
  }

  lemma AdvanceIsSound(c: Config, s: State, p: Proc, l: Label)
    requires Valid(c, p, p.phase) && Enabled(c, p, l)
    ensures Sound(c, p, Advance(c, s, p, l))
  {
    if l.Append? {
      AppendIsSound(c, s, p, l);
    } else if l.Exchange? || l.Call? || l.Remember? || l.Finish? {
      EffectIsSound(c, s, p, l);
    } else {
      AskIsSound(c, s, p, l);
    }
  }

  lemma LocalStep(c: Config, s: State, l: Label)
    requires LocalInvariant(c, s)
    ensures LocalInvariant(c, Step(c, s, l))
  {
    if !l.Begin? && !l.Refresh? && l.pid in s.procs && Enabled(c, s.procs[l.pid], l) {
      var m := Advance(c, s, s.procs[l.pid], l);
      AdvanceIsSound(c, s, s.procs[l.pid], l);
      LocalMoved(c, s, l.pid, m);
    }
  }

  lemma LocalMoved(c: Config, s: State, pid: nat, m: Move)
    requires LocalInvariant(c, s) && pid in s.procs && Sound(c, s.procs[pid], m)
    ensures LocalInvariant(c, Moved(s, pid, m))
  {
    var after := Moved(s, pid, m);
    ValidIgnoresPhase(c, s.procs[pid], m.phase);
    forall who: nat
      ensures Project(after.trace, who) ==
              if who in after.procs then Trail(c, after.procs[who].now, after.procs[who].phase) else []
    {
      ProjectAppend(s.trace, pid, m.events, who);
    }
  }

  /** Validity looks at the request and its start, not at where it stands. */
  lemma ValidIgnoresPhase(c: Config, p: Proc, phase: Phase)
    ensures Valid(c, p, phase) <==> Valid(c, p.(phase := phase), phase)
  {
  }

  lemma {:induction false} LocalHolds(c: Config, labels: seq<Label>)
    ensures LocalInvariant(c, Run(c, labels))
  {
    if labels != [] {
      LocalHolds(c, labels[..|labels| - 1]);
      LocalStep(c, Run(c, labels[..|labels| - 1]), labels[|labels| - 1]);
    }
  }

  ghost function StepAll(c: Config, s: State, labels: seq<Label>): State {
    if labels == [] then s else Step(c, StepAll(c, s, labels[..|labels| - 1]), labels[|labels| - 1])
  }

  lemma {:induction false} RunIsStepAll(c: Config, labels: seq<Label>)
    ensures Run(c, labels) == StepAll(c, Initial(), labels)
  {
    if labels != [] {
      RunIsStepAll(c, labels[..|labels| - 1]);
    }
  }

  lemma {:induction false} StepAllConcat(c: Config, s: State, a: seq<Label>, b: seq<Label>)
    ensures StepAll(c, s, a + b) == StepAll(c, StepAll(c, s, a), b)
    decreases |b|
  {
    if b == [] {
      assert a + b == a;
    } else {
      assert (a + b)[..|a + b| - 1] == a + b[..|b| - 1];
      StepAllConcat(c, s, a, b[..|b| - 1]);
    }
  }

  /** A state some run leads to. */
  ghost predicate Reachable(c: Config, s: State) {
    exists labels :: Run(c, labels) == s
  }

  lemma ReachableLocal(c: Config, s: State)
    requires Reachable(c, s)
    ensures LocalInvariant(c, s)
  {
    var labels :| Run(c, labels) == s;
    LocalHolds(c, labels);
  }
}
