/** The Model Gateway: version pinning, catalog approval, policy, and fallback
    that is never silent (pkg/modelgw/modelgw.go). */
module ModelGateway {
  import opened Types

  // ---------- routes ----------

  /** An empty fallback provider means there is no fallback. */
  datatype Route = Route(provider: string, model: string, fallbackProvider: string, fallbackModel: string)

  /** A provider and the model version asked of it. */
  datatype Pair = Pair(provider: string, model: string)

  datatype Config = Config(providers: set<string>, routes: map<string, Route>, catalog: map<Pair, bool>)

  predicate Pinned(model: string) {
    model != "" && model != "latest"
  }

  predicate Approved(c: Config, pair: Pair) {
    pair in c.catalog && c.catalog[pair]
  }

  predicate ValidRoute(providers: set<string>, r: Route) {
    && r.provider != "" && r.provider in providers && Pinned(r.model)
    && (r.fallbackProvider != "" ==> r.fallbackProvider in providers && Pinned(r.fallbackModel))
  }

  ghost predicate ValidConfig(c: Config) {
    forall purpose | purpose in c.routes :: ValidRoute(c.providers, c.routes[purpose])
  }

  datatype Problem =
    | ProviderRequired | ProviderUnknown | FallbackUnknown
    | ModelRequired | ModelIsAlias | FallbackRequired | FallbackIsAlias

  /** The problem New reports is one the named route has. */
  predicate HasProblem(providers: set<string>, r: Route, problem: Problem) {
    match problem
    case ProviderRequired => r.provider == ""
    case ProviderUnknown => r.provider != "" && r.provider !in providers
    case ModelRequired => r.model == ""
    case ModelIsAlias => r.model == "latest"
    case FallbackUnknown => r.fallbackProvider != "" && r.fallbackProvider !in providers
    case FallbackRequired => r.fallbackProvider != "" && r.fallbackModel == ""
    case FallbackIsAlias => r.fallbackProvider != "" && r.fallbackModel == "latest"
  }

  // ---------- requests and what happens in a call ----------

  datatype Message = Message(role: string, content: string)
  datatype Request = Request(purpose: string, messages: seq<Message>, maxTokens: int, temperature: real)
  datatype Tokens = Tokens(prompt: int, completion: int)
  datatype Response = Response(provider: string, model: string, content: string, usage: Tokens, fallbackFrom: string)

  datatype Completion = Completed(response: Response) | Refused(policyId: string, reason: string) | ProviderFailed

  datatype Event =
    | Asked(question: DecisionRequest)
    | Appended(record: ActionRecord)
    | AppendFailed(lost: ActionRecord)
    | Called(pair: Pair, request: Request, answer: Option<Response>)

  /** The answers of clock, policy, ledger and providers during one call. */
  datatype Oracles = Oracles(
    now: Time, later: Time,
    decision: Option<Decision>, error: string,
    firstAppend: bool, secondAppend: bool,
    primary: Option<Response>, fallback: Option<Response>)

  datatype Invocation = Invocation(subject: Subject, request: Request, oracles: Oracles)

  const NO_RESPONSE := Response("", "", "", Tokens(0, 0), "")

  function CallAction(request: Request): Action {
    BareAction("model_call", request.purpose)
  }

  function AskFor(i: Invocation): DecisionRequest {
    DecisionRequest(i.subject, CallAction(i.request), "", i.oracles.now, Usage(0, 0))
  }

  function PrimaryOf(r: Route): Pair { Pair(r.provider, r.model) }
  function FallbackOf(r: Route): Pair { Pair(r.fallbackProvider, r.fallbackModel) }

  /** outcomeAction: who served the call, and whom it fell back from. */
  function OutcomeAction(action: Action, resp: Response): Action {
    if resp.provider == "" then action
    else
      action.(resource := resp.provider + "/" + resp.model +
              if resp.fallbackFrom != "" then " (fallback from " + resp.fallbackFrom + ")" else "")
  }

  function Attempted(record: ActionRecord, ok: bool): Event {
    if ok then Appended(record) else AppendFailed(record)
  }

  // ---------- a call as a value ----------

  function NoRouteReason(purpose: string): string {
    "no route configured for purpose " + purpose
  }

  function UnapprovedReason(r: Route): string {
    "provider " + r.provider + " model " + r.model + " is not an approved Model Catalog entry"
  }

  function UnrecordedReason(error: string): string {
    "could not durably record this decision, denying: " + error
  }

  /** Why a call stops before policy is asked, or policy's answer to it. */
  function Ruling(c: Config, i: Invocation): Decision {
    var purpose := i.request.purpose;
    if purpose !in c.routes then
      Decision(Deny, [], "modelgw.no_route", NoRouteReason(purpose))
    else if !Approved(c, PrimaryOf(c.routes[purpose])) then
      Decision(Deny, [], "modelcatalog.unapproved", UnapprovedReason(c.routes[purpose]))
    else
      match i.oracles.decision
      case Some(d) => d
      case None => Decision(Deny, [], "modelgw.pdp_error", i.oracles.error)
  }

  /** Whether the call gets as far as asking policy. */
  predicate Eligible(c: Config, i: Invocation) {
    i.request.purpose in c.routes && Approved(c, PrimaryOf(c.routes[i.request.purpose]))
  }

  function RulingRecord(c: Config, i: Invocation): ActionRecord {
    var d := Ruling(c, i);
    ActionRecord(i.oracles.now, i.subject, CallAction(i.request), d, if Permits(d) then Allowed else Denied, None)
  }

  predicate FallsBack(c: Config, r: Route, o: Oracles) {
    o.primary.None? && r.fallbackProvider != "" && Approved(c, FallbackOf(r))
  }

  /** What the providers are asked and what comes back. */
  function Served(c: Config, r: Route, o: Oracles): Option<Response> {
    if o.primary.Some? then o.primary
    else if FallsBack(c, r, o) && o.fallback.Some? then Some(o.fallback.value.(fallbackFrom := r.provider))
    else None
  }

  function ProviderEvents(c: Config, r: Route, req: Request, o: Oracles): seq<Event> {
    [Called(PrimaryOf(r), req, o.primary)] + if FallsBack(c, r, o) then [Called(FallbackOf(r), req, o.fallback)] else []
  }

  function OutcomeRecord(c: Config, i: Invocation, served: Option<Response>): ActionRecord {
    var resp := if served.Some? then served.value else NO_RESPONSE;
    ActionRecord(i.oracles.later, i.subject, OutcomeAction(CallAction(i.request), resp), Ruling(c, i),
                 if served.Some? then Allowed else Failed, None)
  }

  /** The call reaches its providers. */
  predicate Proceeds(c: Config, i: Invocation) {
    Eligible(c, i) && Permits(Ruling(c, i)) && i.oracles.firstAppend
  }

  /** Everything one call does to the world, in order. */
  function CallTrace(c: Config, i: Invocation): seq<Event> {
    var ruling := Attempted(RulingRecord(c, i), i.oracles.firstAppend);
    if !Eligible(c, i) then [ruling]
    else if !Proceeds(c, i) then [Asked(AskFor(i)), ruling]
    else [Asked(AskFor(i)), ruling] + ServiceTrace(c, i, c.routes[i.request.purpose])
  }

  /** What an authorized call does. */
  function ServiceTrace(c: Config, i: Invocation, r: Route): seq<Event> {
    var o := i.oracles;
    ProviderEvents(c, r, i.request, o) + [Attempted(OutcomeRecord(c, i, Served(c, r, o)), o.secondAppend)]
  }

  function CallOutcome(c: Config, i: Invocation): Completion {
    var d := Ruling(c, i);
    if Proceeds(c, i) then
      match Served(c, c.routes[i.request.purpose], i.oracles)
      case Some(resp) => Completed(resp)
      case None => ProviderFailed
    else if Permits(d) then
      Refused("modelgw.audit_unavailable", UnrecordedReason(i.oracles.error))
    else
      var silent := Eligible(c, i) && i.oracles.decision.Some? && d.reason == "";
      Refused(d.policyId, if silent then "denied by policy" else d.reason)
  }

  lemma OnlyEligiblePermits(c: Config, i: Invocation)
    ensures Permits(Ruling(c, i)) ==> Eligible(c, i) && i.oracles.decision.Some?
  {
  }

  // ---------- the gateway ----------

  method CheckRoute(providers: set<string>, r: Route) returns (problem: Option<Problem>)
    ensures problem.None? <==> ValidRoute(providers, r)
    ensures problem.Some? ==> HasProblem(providers, r, problem.value)
  {
    if r.provider == "" {
      return Some(ProviderRequired);
    }
    if r.provider !in providers {
      return Some(ProviderUnknown);
    }
    if r.model == "" {
      return Some(ModelRequired);
    }
    if r.model == "latest" {
      return Some(ModelIsAlias);
    }
    if r.fallbackProvider != "" {
      if r.fallbackProvider !in providers {
        return Some(FallbackUnknown);
      }
      if r.fallbackModel == "" {
        return Some(FallbackRequired);
      }
      if r.fallbackModel == "latest" {
        return Some(FallbackIsAlias);
      }
    }
    return None;
  }

  /** The records that reached the ledger. */
  function Recorded(t: seq<Event>): seq<ActionRecord> {
    if t == [] then []
    else Recorded(t[..|t| - 1]) + if t[|t| - 1].Appended? then [t[|t| - 1].record] else []
  }

  lemma RecordedMore(t: seq<Event>, e: Event)
    ensures Recorded(t + [e]) == Recorded(t) + if e.Appended? then [e.record] else []
  {
    assert (t + [e])[..|t|] == t;
  }

  class Gateway {
    const config: Config
    /** What the gateway has asked, recorded and called so far. */
    ghost var trace: seq<Event>
    /** The records the ledger holds. */
    var ledger: seq<ActionRecord>

    /** The ledger holds exactly the appended records, in order. */
    ghost predicate Valid()
      reads this
    {
      ledger == Recorded(trace)
    }

    constructor (config: Config)
      ensures this.config == config && trace == [] && ledger == []
    {
      this.config, trace, ledger := config, [], [];
    }

    /** New: a gateway exists exactly when every route is valid; otherwise the
        report names a route and a problem it has. */
    static method New(config: Config) returns (g: Gateway?, purpose: string, problem: Option<Problem>)
      ensures g != null <==> ValidConfig(config)
      ensures g != null ==> fresh(g) && g.config == config && g.trace == [] && g.ledger == []
      ensures g == null ==> purpose in config.routes && problem.Some?
                            && HasProblem(config.providers, config.routes[purpose], problem.value)
    {
      var left := config.routes.Keys;
      while left != {}
        invariant left <= config.routes.Keys
        invariant forall p | p in config.routes.Keys - left :: ValidRoute(config.providers, config.routes[p])
        decreases |left|
      {
        purpose :| purpose in left;
        problem := CheckRoute(config.providers, config.routes[purpose]);
        if problem.Some? {
          return null, purpose, problem;
        }
        left := left - {purpose};
      }
      g := new Gateway(config);
      return g, "", None;
    }

    method AppendRecord(record: ActionRecord, ok: bool)
      requires Valid()
      modifies this
      ensures Valid() && trace == old(trace) + [Attempted(record, ok)]
    {
      RecordedMore(trace, Attempted(record, ok));
      if ok {
        ledger := ledger + [record];
      }
      trace := trace + [Attempted(record, ok)];
    }

    /** denyf: record the denial; a lost record does not turn it into anything else. */
    method RecordDenial(i: Invocation, policyId: string, reason: string) returns (r: Completion)
      requires Valid()
      modifies this
      ensures Valid()
      ensures var record := ActionRecord(i.oracles.now, i.subject, CallAction(i.request),
                                         Decision(Deny, [], policyId, reason), Denied, None);
              trace == old(trace) + [Attempted(record, i.oracles.firstAppend)]
      ensures r == Refused(policyId, reason)
    {
      var decision := Decision(Deny, [], policyId, reason);
      var record := ActionRecord(i.oracles.now, i.subject, CallAction(i.request), decision, Denied, None);
      AppendRecord(record, i.oracles.firstAppend);
      return Refused(policyId, reason);
    }

    /** call: the primary provider, then the fallback if there is an approved one. */
    method CallProviders(route: Route, req: Request, o: Oracles) returns (resp: Option<Response>)
      requires Valid()
      modifies this
      ensures Valid() && trace == old(trace) + ProviderEvents(config, route, req, o)
      ensures resp == Served(config, route, o)
    {
      RecordedMore(trace, Called(Pair(route.provider, route.model), req, o.primary));
      trace := trace + [Called(Pair(route.provider, route.model), req, o.primary)];
      if o.primary.Some? {
        return o.primary;
      }
      if route.fallbackProvider == "" {
        return None;
      }
      var alternate := Pair(route.fallbackProvider, route.fallbackModel);
      if alternate !in config.catalog || !config.catalog[alternate] {
        return None;
      }
      RecordedMore(trace, Called(alternate, req, o.fallback));
      trace := trace + [Called(alternate, req, o.fallback)];
      if o.fallback.None? {
        return None;
      }
      return Some(o.fallback.value.(fallbackFrom := route.provider));
    }

    /** The part of Complete after the decision is recorded: call, record the
        outcome, answer. */
    method Fulfil(i: Invocation, route: Route) returns (r: Completion)
      requires Valid() && Proceeds(config, i) && route == config.routes[i.request.purpose]
      modifies this
      ensures Valid() && trace == old(trace) + ServiceTrace(config, i, route)
      ensures r == CallOutcome(config, i)
    {
      var served := CallProviders(route, i.request, i.oracles);
      AppendRecord(OutcomeRecord(config, i, served), i.oracles.secondAppend);
      return if served.Some? then Completed(served.value) else ProviderFailed;
    }

    /** The checks that need neither policy nor provider. */
    method Admit(i: Invocation) returns (refusal: Option<Completion>)
      requires Valid()
      modifies this
      ensures Valid()
      ensures refusal.None? <==> Eligible(config, i)
      ensures refusal.None? ==> trace == old(trace)
      ensures refusal.Some? ==> trace == old(trace) + CallTrace(config, i) && refusal.value == CallOutcome(config, i)
    {
      var purpose := i.request.purpose;
      var r;
      if purpose !in config.routes {
        r := RecordDenial(i, "modelgw.no_route", NoRouteReason(purpose));
        return Some(r);
      }
      var route := config.routes[purpose];
      var pair := Pair(route.provider, route.model);
      if pair !in config.catalog || !config.catalog[pair] {
        r := RecordDenial(i, "modelcatalog.unapproved", UnapprovedReason(route));
        return Some(r);
      }
      return None;
    }

    /** Ask policy and record the ruling. */
    method AskPolicy(i: Invocation) returns (refusal: Option<Completion>)
      requires Valid() && Eligible(config, i)
      modifies this
      ensures Valid()
      ensures trace == old(trace) + [Asked(AskFor(i)), Attempted(RulingRecord(config, i), i.oracles.firstAppend)]
      ensures refusal.None? <==> Proceeds(config, i)
      ensures refusal.Some? ==> refusal.value == CallOutcome(config, i)
    {
      var o := i.oracles;
      RecordedMore(trace, Asked(AskFor(i)));
      trace := trace + [Asked(AskFor(i))];
      if o.decision.None? {
        var r := RecordDenial(i, "modelgw.pdp_error", o.error);
        return Some(r);
      }
      var decision := o.decision.value;
      if !(decision.outcome == Allow || decision.outcome == AllowWithObligations) {
        AppendRecord(ActionRecord(o.now, i.subject, CallAction(i.request), decision, Denied, None), o.firstAppend);
        return Some(Refused(decision.policyId, if decision.reason == "" then "denied by policy" else decision.reason));
      }
      AppendRecord(ActionRecord(o.now, i.subject, CallAction(i.request), decision, Allowed, None), o.firstAppend);
      if !o.firstAppend {
        return Some(Refused("modelgw.audit_unavailable", UnrecordedReason(o.error)));
      }
      return None;
    }

    /** Complete: its events and its answer. */
    method Complete(i: Invocation) returns (r: Completion)
      requires Valid()
      modifies this
      ensures Valid() && trace == old(trace) + CallTrace(config, i)
      ensures r == CallOutcome(config, i)
    {
      var refusal := Admit(i);
      if refusal.Some? {
        return refusal.value;
      }
      refusal := AskPolicy(i);
      if refusal.Some? {
        return refusal.value;
      }
      r := Fulfil(i, config.routes[i.request.purpose]);
    }
  }
}
