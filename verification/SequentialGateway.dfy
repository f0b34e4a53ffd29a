/** CallTool as the gateway object runs it (internal/gateway/gateway.go): one
    request after another, changing the usage tracker, the provenance cache and
    the ledger in place. Every call is a run of the request machine. */
module SequentialGateway {
  import opened Types
  import opened Interleaving
  import opened ToolGateway
  import U = UsageWindow
  import P = ProvenanceTracking
  import O = Obligations

  /** What identity, policy, ledger, broker, upstream and clock answer during
      one call. */
  datatype Oracles = Oracles(
    who: Option<Subject>, identityError: string,
    decision: Option<Decision>, policyError: string,
    recorded: bool, exchanged: bool,
    raw: Option<ToolResult>,
    failureRecorded: bool, failedAt: Time)

  // ---------- runs of one request ----------

  /** The label carries the answers the oracles give in this phase. */
  predicate Fits(o: Oracles, phase: Phase, l: Label) {
    match l
    case Identify(_, who, error) => who == o.who && error == o.identityError
    case Decide(_, answer, error) => answer == o.decision && error == o.policyError
    case Append(_, ok, at) => if phase.Failing? then ok == o.failureRecorded && at == o.failedAt else ok == o.recorded
    case Exchange(_, ok) => ok == o.exchanged
    case Call(_, raw, _) => raw == o.raw
    case Begin(_, _, _) => false
    case Refresh(_) => false
    case _ => true
  }

  ghost predicate Takes(c: Config, o: Oracles, pid: nat, s: State, l: Label) {
    && !l.Begin? && !l.Refresh? && l.pid == pid
    && pid in s.procs && Enabled(c, s.procs[pid], l) && Fits(o, s.procs[pid].phase, l)
  }

  ghost predicate Scripted(c: Config, o: Oracles, pid: nat, s: State, labels: seq<Label>) {
    labels != [] ==>
      var front := labels[..|labels| - 1];
      Scripted(c, o, pid, s, front) && Takes(c, o, pid, StepAll(c, s, front), labels[|labels| - 1])
  }

  /** From s to s' by steps of this request alone, with the oracles' answers. */
  ghost predicate Runs(c: Config, o: Oracles, pid: nat, s: State, s': State) {
    exists labels :: Scripted(c, o, pid, s, labels) && StepAll(c, s, labels) == s'
  }

  lemma RunsNowhere(c: Config, o: Oracles, pid: nat, s: State)
    ensures Runs(c, o, pid, s, s)
  {
    assert Scripted(c, o, pid, s, []) && StepAll(c, s, []) == s;
  }

  lemma RunsOn(c: Config, o: Oracles, pid: nat, s: State, mid: State, l: Label)
    requires Runs(c, o, pid, s, mid) && Takes(c, o, pid, mid, l)
    ensures Runs(c, o, pid, s, Step(c, mid, l))
  {
    var labels :| Scripted(c, o, pid, s, labels) && StepAll(c, s, labels) == mid;
    assert (labels + [l])[..|labels|] == labels;
    assert Scripted(c, o, pid, s, labels + [l]) && StepAll(c, s, labels + [l]) == Step(c, mid, l);
  }

  /** The steps of a request lead from states in `ok` to states in `ok`. */
  ghost predicate StaysIn(c: Config, o: Oracles, pid: nat, ok: State -> bool) {
    forall s: State, l: Label :: ok(s) && Takes(c, o, pid, s, l) ==> ok(Step(c, s, l))
  }

  ghost function RunsFrom(c: Config, o: Oracles, pid: nat, start: State): State -> bool {
    s => Reachable(c, s) && Runs(c, o, pid, start, s)
  }

  lemma RunsStay(c: Config, o: Oracles, pid: nat, start: State)
    ensures StaysIn(c, o, pid, RunsFrom(c, o, pid, start))
  {
    var ok := RunsFrom(c, o, pid, start);
    forall s: State, l: Label | ok(s) && Takes(c, o, pid, s, l) ensures ok(Step(c, s, l)) {
      ReachableOn(c, s, l);
      RunsOn(c, o, pid, start, s, l);
    }
  }

  lemma ReachableOn(c: Config, s: State, l: Label)
    requires Reachable(c, s)
    ensures Reachable(c, Step(c, s, l))
  {
    var labels :| Run(c, labels) == s;
    assert (labels + [l])[..|labels|] == labels;
    assert Run(c, labels + [l]) == Step(c, s, l);
  }

  // ---------- what the machine's trace says about the ledger ----------

  function RecordsIn(t: seq<Tagged<Event>>): seq<ActionRecord> {
    if t == [] then []
    else RecordsIn(t[..|t| - 1]) + if t[|t| - 1].event.Appended? then [t[|t| - 1].event.record] else []
  }

  /** One request to an upstream. */
  datatype Sent = Sent(upstream: string, action: Action)

  function SentIn(t: seq<Tagged<Event>>): seq<Sent> {
    if t == [] then []
    else
      var e := t[|t| - 1].event;
      SentIn(t[..|t| - 1]) + if e.Called? then [Sent(e.upstream, e.action)] else []
  }

  /** What at most one event adds to the ledger and to the upstream requests. */
  function RecordOf(events: seq<Event>): seq<ActionRecord> {
    if |events| == 1 && events[0].Appended? then [events[0].record] else []
  }

  function SentOf(events: seq<Event>): seq<Sent> {
    if |events| == 1 && events[0].Called? then [Sent(events[0].upstream, events[0].action)] else []
  }

  lemma LogsGrow(t: seq<Tagged<Event>>, pid: nat, events: seq<Event>)
    requires |events| <= 1
    ensures var t' := t + Tag(pid, events);
            && RecordsIn(t') == RecordsIn(t) + RecordOf(events) && SentIn(t') == SentIn(t) + SentOf(events)
  {
    if events == [] {
      assert t + Tag(pid, events) == t;
    } else {
      assert (t + Tag(pid, events))[..|t|] == t;
    }
  }

  /** A delivery goes by policy's answer and leaves one record, of that answer. */
  predicate DeliversAsDecided(o: Oracles, before: seq<ActionRecord>, after: seq<ActionRecord>, result: ToolResult) {
    && o.decision.Some? && Permits(o.decision.value) && o.raw.Some?
    && result == (if o.decision.value.outcome == AllowWithObligations
                  then O.MaskResult(o.raw.value, o.decision.value.obligations) else o.raw.value)
    && |after| == |before| + 1 && after[..|before|] == before
    && after[|before|].decision == o.decision.value && after[|before|].outcome == Allowed
    && o.who == Some(after[|before|].subject)
  }

  // ---------- the gateway object ----------

  class Gateway {
    const config: Config
    const usage: U.UsageTracker
    const prov: P.ProvenanceCache
    var routes: map<string, string>
    var ledger: seq<ActionRecord>
    var sent: seq<Sent>
    /** The machine state this object stands in. */
    ghost var m: State

    ghost predicate Mirrors(s: State)
      reads this, usage, prov
    {
      && usage.window == U.DEFAULT_WINDOW && prov.ttl == P.CACHE_TTL && prov.maxSize == P.CACHE_MAX_SIZE
      && routes == s.routes && usage.state == s.usage && prov.bySubject == s.prov
      && ledger == RecordsIn(s.trace) && sent == SentIn(s.trace)
    }

    ghost predicate Valid()
      reads this, usage, prov
    {
      Mirrors(m) && Reachable(config, m)
    }

    constructor (config: Config)
      ensures Valid() && this.config == config && m == Initial()
      ensures fresh(usage) && fresh(prov) && ledger == [] && sent == []
    {
      this.config := config;
      usage := new U.UsageTracker();
      prov := new P.ProvenanceCache();
      routes, ledger, sent, m := map[], [], [], Initial();
      new;
      assert Run(config, []) == m;
    }

    /** The registry's new index takes effect for requests routed from now on. */
    method UseRoutes(index: map<string, string>)
      requires Valid()
      modifies this
      ensures Valid() && m == Step(config, old(m), Refresh(index))
    {
      ReachableOn(config, m, Refresh(index));
      routes := index;
      m := Step(config, m, Refresh(index));
    }

    /** The request stands at `phase`, and the machine in a state that `ok` holds of. */
    ghost predicate At(pid: nat, request: Request, now: Time, o: Oracles, ok: State -> bool, phase: Phase)
      reads this
    {
      && StaysIn(config, o, pid, ok) && ok(m)
      && pid in m.procs && m.procs[pid] == Proc(request, now, phase)
    }

    /** One step of the machine beside the code. */
    ghost method Take(l: Label, pid: nat, o: Oracles, ok: State -> bool)
      requires StaysIn(config, o, pid, ok) && ok(m) && Takes(config, o, pid, m, l)
      modifies this`m
      ensures ok(m)
      ensures m == Moved(old(m), pid, Advance(config, old(m), old(m).procs[pid], l))
    {
      m := Step(config, m, l);
    }

    method AppendRecord(record: ActionRecord, ok: bool)
      modifies this`ledger
      ensures ledger == old(ledger) + if ok then [record] else []
    {
      if ok {
        ledger := ledger + [record];
      }
    }

    /** The four deny helpers: record the denial; a lost record changes nothing. */
    method DenyAtGate(pid: nat, request: Request, now: Time, o: Oracles, ghost ok: State -> bool, gate: Gate,
                      record: ActionRecord, ghost who: Option<Subject>, ghost route: Option<string>)
      returns (response: Response)
      requires Mirrors(m) && At(pid, request, now, o, ok, Denying(gate, record, who, route))
      modifies this
      ensures Mirrors(m) && Ended(pid, request, now, o, ok, response)
      ensures response.Refused?
    {
      AppendRecord(record, o.recorded);
      TakeDenial(pid, request, now, o, ok, gate, record, who, route);
      return GateRefusal(gate, record);
    }

    ghost method TakeDenial(pid: nat, request: Request, now: Time, o: Oracles, ok: State -> bool, gate: Gate,
                            record: ActionRecord, who: Option<Subject>, route: Option<string>)
      requires At(pid, request, now, o, ok, Denying(gate, record, who, route))
      modifies this`m
      ensures Ended(pid, request, now, o, ok, GateRefusal(gate, record))
      ensures m.usage == old(m.usage) && m.prov == old(m.prov) && m.routes == old(m.routes)
      ensures SentIn(m.trace) == old(SentIn(m.trace))
      ensures RecordsIn(m.trace) == old(RecordsIn(m.trace)) + if o.recorded then [record] else []
    {
      LogsGrow(m.trace, pid, [Attempted(record, o.recorded)]);
      Take(Append(pid, o.recorded, now), pid, o, ok);
    }

    /** The request has finished with `response`. */
    ghost predicate Answered(pid: nat, request: Request, now: Time, response: Response)
      reads this
    {
      && pid in m.procs && m.procs[pid].request == request && m.procs[pid].now == now
      && m.procs[pid].phase.Finished? && m.procs[pid].phase.response == response
    }

    ghost predicate Ended(pid: nat, request: Request, now: Time, o: Oracles, ok: State -> bool, response: Response)
      reads this
    {
      StaysIn(config, o, pid, ok) && ok(m) && Answered(pid, request, now, response)
    }

    /** Identity and the agent gate. */
    method ResolveCaller(pid: nat, request: Request, now: Time, o: Oracles, ghost ok: State -> bool)
      returns (refusal: Option<Response>, subject: Subject)
      requires Mirrors(m) && At(pid, request, now, o, ok, Fresh)
      modifies this
      ensures Mirrors(m)
      ensures refusal.Some? ==> Ended(pid, request, now, o, ok, refusal.value) && !refusal.value.Delivered?
      ensures refusal.None? ==>
                At(pid, request, now, o, ok, Routing(subject)) && ledger == old(ledger) && o.who == Some(subject)
    {
      var r;
      LogsGrow(m.trace, pid, [Identified(o.who)]);
      Take(Identify(pid, o.who, o.identityError), pid, o, ok);
      if o.who.None? {
        subject := UNKNOWN_SUBJECT;
        var record := GateRecord(now, UNKNOWN_SUBJECT, request.tool, Identity, o.identityError);
        r := DenyAtGate(pid, request, now, o, ok, Identity, record, None, None);
        return Some(r), subject;
      }
      subject := o.who.value;
      if !AgentDeclared(config, subject) {
        var record := GateRecord(now, subject, request.tool, AgentGate, AgentDenyReason(config, subject));
        r := DenyAtGate(pid, request, now, o, ok, AgentGate, record, o.who, None);
        return Some(r), subject;
      }
      return None, subject;
    }

    /** Routing, the declaration gate and the upstream pin. */
    method ResolveTool(pid: nat, request: Request, now: Time, o: Oracles, ghost ok: State -> bool, subject: Subject)
      returns (refusal: Option<Response>, upstream: string, entry: ToolEntry)
      requires Mirrors(m) && At(pid, request, now, o, ok, Routing(subject))
      modifies this
      ensures Mirrors(m)
      ensures refusal.Some? ==> Ended(pid, request, now, o, ok, refusal.value) && !refusal.value.Delivered?
      ensures refusal.None? ==>
                && At(pid, request, now, o, ok, Tainting(subject, upstream, entry, request.arguments, map[]))
                && ledger == old(ledger)
    {
      upstream, entry := "", ToolEntry("", "", [], []);
      var r;
      var tool := request.tool;
      LogsGrow(m.trace, pid, [Routed(RouteOf(routes, tool))]);
      Take(Route(pid), pid, o, ok);
      if tool !in routes {
        return Some(UnknownTool), upstream, entry;
      }
      upstream := routes[tool];
      if tool !in config.tools {
        r := DenyAtGate(pid, request, now, o, ok, Declaration,
                        GateRecord(now, subject, tool, Declaration, "tool is not registered"),
                        Some(subject), Some(upstream));
        return Some(r), upstream, entry;
      }
      entry := config.tools[tool];
      if entry.upstream != "" && entry.upstream != upstream {
        r := DenyAtGate(pid, request, now, o, ok, Pin,
                        GateRecord(now, subject, tool, Pin, PinDenyReason(tool, entry.upstream, upstream)),
                        Some(subject), Some(upstream));
        return Some(r), upstream, entry;
      }
      return None, upstream, entry;
    }

    /** taintArguments: label every argument from the cache. */
    method TaintArguments(pid: nat, request: Request, now: Time, o: Oracles, ghost ok: State -> bool,
                          subject: Subject, upstream: string, entry: ToolEntry)
      returns (tainted: map<string, Value>)
      requires Mirrors(m) && At(pid, request, now, o, ok, Tainting(subject, upstream, entry, request.arguments, map[]))
      modifies this`m
      ensures Mirrors(m) && At(pid, request, now, o, ok, Tainting(subject, upstream, entry, map[], tainted))
    {
      var left := request.arguments;
      tainted := map[];
      while left != map[]
        invariant Mirrors(m) && At(pid, request, now, o, ok, Tainting(subject, upstream, entry, left, tainted))
        decreases |left|
      {
        var name :| name in left;
        var val := left[name];
        var origin := P.UNTRUSTED;
        if val.Str? {
          origin := prov.ResolveValue(subject.id, val.text, now);
        }
        LogsGrow(m.trace, pid, []);
        Take(Taint(pid, name), pid, o, ok);
        tainted := tainted[name := Value(val, origin)];
        left := left - {name};
      }
    }

    /** Count the attempt; the question to policy carries the count. */
    method CountAttempt(pid: nat, request: Request, now: Time, o: Oracles, ghost ok: State -> bool,
                        subject: Subject, upstream: string, entry: ToolEntry, tainted: map<string, Value>)
      returns (dr: DecisionRequest)
      requires Mirrors(m) && At(pid, request, now, o, ok, Tainting(subject, upstream, entry, map[], tainted))
      modifies this`m, usage
      ensures Mirrors(m) && At(pid, request, now, o, ok, Asking(dr, upstream)) && dr.subject == subject
    {
      var action := Action("tool_call", request.tool, "", tainted, entry.risk, entry.dataClasses, entry.scopes);
      var counted := usage.UsageOf(subject.id, now);
      dr := DecisionRequest(subject, action, request.requestId, now, counted);
      TakeCount(pid, request, now, o, ok, subject, upstream, entry, tainted);
    }

    ghost method TakeCount(pid: nat, request: Request, now: Time, o: Oracles, ok: State -> bool,
                           subject: Subject, upstream: string, entry: ToolEntry, tainted: map<string, Value>)
      requires At(pid, request, now, o, ok, Tainting(subject, upstream, entry, map[], tainted))
      modifies this`m
      ensures var p := Proc(request, now, Fresh);
              var calls := U.Count(old(m.usage), subject.id, now, U.DEFAULT_WINDOW) + 1;
              var dr := RequestFor(p, subject, ActionFor(p, entry, tainted), calls);
              At(pid, request, now, o, ok, Asking(dr, upstream))
      ensures m.usage == U.Record(old(m.usage), subject.id, now, U.DEFAULT_WINDOW)
      ensures m.prov == old(m.prov) && m.routes == old(m.routes)
      ensures RecordsIn(m.trace) == old(RecordsIn(m.trace)) && SentIn(m.trace) == old(SentIn(m.trace))
    {
      LogsGrow(m.trace, pid, [Counted(subject.id, now, U.Count(m.usage, subject.id, now, U.DEFAULT_WINDOW) + 1)]);
      Take(CountUsage(pid), pid, o, ok);
    }

    /** Ask policy; an error is a denial. */
    method AskPolicy(pid: nat, request: Request, now: Time, o: Oracles, ghost ok: State -> bool, dr: DecisionRequest,
                     upstream: string)
      returns (decision: Decision)
      requires Mirrors(m) && At(pid, request, now, o, ok, Asking(dr, upstream))
      modifies this`m
      ensures Mirrors(m) && At(pid, request, now, o, ok, Recording(dr, upstream, decision))
      ensures o.decision.Some? ==> decision == o.decision.value
      ensures o.decision.None? ==> decision.outcome == Deny
    {
      decision := if o.decision.Some? then o.decision.value else Decision(Deny, [], "pdp.error", o.policyError);
      TakeDecide(pid, request, now, o, ok, dr, upstream);
    }

    ghost method TakeDecide(pid: nat, request: Request, now: Time, o: Oracles, ok: State -> bool, dr: DecisionRequest,
                            upstream: string)
      requires At(pid, request, now, o, ok, Asking(dr, upstream))
      modifies this`m
      ensures At(pid, request, now, o, ok, Recording(dr, upstream, DecisionOf(o.decision, o.policyError)))
      ensures m.usage == old(m.usage) && m.prov == old(m.prov) && m.routes == old(m.routes)
      ensures RecordsIn(m.trace) == old(RecordsIn(m.trace)) && SentIn(m.trace) == old(SentIn(m.trace))
    {
      LogsGrow(m.trace, pid, [Asked(dr)]);
      Take(Decide(pid, o.decision, o.policyError), pid, o, ok);
    }

    /** Commit the decision record before anything else happens. */
    method CommitDecision(pid: nat, request: Request, now: Time, o: Oracles, ghost ok: State -> bool,
                          dr: DecisionRequest, upstream: string, decision: Decision)
      returns (refusal: Option<Response>)
      requires Mirrors(m) && At(pid, request, now, o, ok, Recording(dr, upstream, decision))
      modifies this
      ensures Mirrors(m)
      ensures refusal.Some? ==> Ended(pid, request, now, o, ok, refusal.value) && !refusal.value.Delivered?
      ensures refusal.None? ==>
                && At(pid, request, now, o, ok, Authorized(dr, upstream, decision))
                && Permits(decision)
                && ledger == old(ledger) + [ActionRecord(now, dr.subject, dr.action, decision, Allowed, None)]
    {
      var allowed := decision.outcome == Allow || decision.outcome == AllowWithObligations;
      var record := ActionRecord(now, dr.subject, dr.action, decision, if allowed then Allowed else Denied, None);
      AppendRecord(record, o.recorded);
      TakeCommit(pid, request, now, o, ok, dr, upstream, decision);
      if !o.recorded {
        return Some(Refused("could not durably record this decision, denying"));
      }
      if !allowed {
        return Some(Refused(if decision.reason == "" then "denied by policy" else decision.reason));
      }
      return None;
    }

    ghost method TakeCommit(pid: nat, request: Request, now: Time, o: Oracles, ok: State -> bool,
                            dr: DecisionRequest, upstream: string, decision: Decision)
      requires At(pid, request, now, o, ok, Recording(dr, upstream, decision))
      modifies this`m
      ensures !o.recorded ==>
                Ended(pid, request, now, o, ok, Refused("could not durably record this decision, denying"))
      ensures o.recorded && !Permits(decision) ==> Ended(pid, request, now, o, ok, Refusal(decision))
      ensures o.recorded && Permits(decision) ==> At(pid, request, now, o, ok, Authorized(dr, upstream, decision))
      ensures m.usage == old(m.usage) && m.prov == old(m.prov) && m.routes == old(m.routes)
      ensures SentIn(m.trace) == old(SentIn(m.trace))
      ensures RecordsIn(m.trace) ==
              old(RecordsIn(m.trace)) + if o.recorded then [DecisionRecord(now, dr, decision)] else []
    {
      LogsGrow(m.trace, pid, [Attempted(DecisionRecord(now, dr, decision), o.recorded)]);
      Take(Append(pid, o.recorded, now), pid, o, ok);
    }

    /** Record that an authorized call failed, as a second record. */
    method RecordFailure(pid: nat, request: Request, now: Time, o: Oracles, ghost ok: State -> bool,
                         dr: DecisionRequest, upstream: string, decision: Decision, ghost reached: bool)
      returns (response: Response)
      requires Mirrors(m) && At(pid, request, now, o, ok, Failing(dr, upstream, decision, reached))
      modifies this
      ensures Mirrors(m) && Ended(pid, request, now, o, ok, response)
      ensures response == CallFailed
    {
      var record := ActionRecord(o.failedAt, dr.subject, dr.action, decision, Failed, None);
      AppendRecord(record, o.failureRecorded);
      LogsGrow(m.trace, pid, [Attempted(record, o.failureRecorded)]);
      Take(Append(pid, o.failureRecorded, o.failedAt), pid, o, ok);
      return CallFailed;
    }

    /** The request is ready to reach its upstream. */
    ghost function Ready(dr: DecisionRequest, upstream: string, decision: Decision): Phase {
      if config.brokered then Credentialed(dr, upstream, decision) else Authorized(dr, upstream, decision)
    }

    /** Exchange the credential if a broker is configured. */
    method ObtainCredential(pid: nat, request: Request, now: Time, o: Oracles, ghost ok: State -> bool,
                            dr: DecisionRequest, upstream: string, decision: Decision)
      returns (failure: Option<Response>)
      requires Mirrors(m) && At(pid, request, now, o, ok, Authorized(dr, upstream, decision))
      modifies this
      ensures Mirrors(m)
      ensures failure.Some? ==> Ended(pid, request, now, o, ok, failure.value) && !failure.value.Delivered?
      ensures failure.None? ==> At(pid, request, now, o, ok, Ready(dr, upstream, decision)) && ledger == old(ledger)
    {
      if config.brokered {
        LogsGrow(m.trace, pid, [Exchanged(o.exchanged)]);
        Take(Exchange(pid, o.exchanged), pid, o, ok);
        if !o.exchanged {
          var r := RecordFailure(pid, request, now, o, ok, dr, upstream, decision, false);
          return Some(r);
        }
      }
      return None;
    }

    /** Call the upstream; record a failure, or redact, remember and answer. */
    method CallUpstream(pid: nat, request: Request, now: Time, o: Oracles, ghost ok: State -> bool,
                        dr: DecisionRequest, upstream: string, decision: Decision)
      returns (response: Response)
      requires Mirrors(m) && At(pid, request, now, o, ok, Ready(dr, upstream, decision))
      modifies this, prov
      ensures Mirrors(m) && Ended(pid, request, now, o, ok, response)
      ensures response.Delivered? ==>
                && o.raw.Some? && ledger == old(ledger)
                && response.result == if decision.outcome == AllowWithObligations
                                      then O.MaskResult(o.raw.value, decision.obligations) else o.raw.value
    {
      sent := sent + [Sent(upstream, dr.action)];
      if o.raw.None? {
        TakeCall(pid, request, now, o, ok, dr, upstream, decision, []);
        response := RecordFailure(pid, request, now, o, ok, dr, upstream, decision, true);
        return;
      }
      var result := o.raw.value;
      if decision.outcome == AllowWithObligations {
        result := O.ApplyObligations(result, decision.obligations);
        O.SequentialIsSimultaneous(o.raw.value, decision.obligations);
      }
      ghost var visited := RecordResultProvenance(dr.subject.id, upstream, result, now);
      TakeCall(pid, request, now, o, ok, dr, upstream, decision, visited);
      RememberAll(pid, request, now, o, ok, dr, upstream, decision, o.raw.value, P.Strings(visited));
      TakeFinish(pid, request, now, o, ok);
      return Delivered(result);
    }

    ghost method TakeCall(pid: nat, request: Request, now: Time, o: Oracles, ok: State -> bool,
                          dr: DecisionRequest, upstream: string, decision: Decision, visited: seq<Json>)
      requires At(pid, request, now, o, ok, Ready(dr, upstream, decision))
      requires o.raw.Some? ==> RemembersInOrder(Deliver(decision, o.raw.value), visited)
      modifies this`m
      ensures At(pid, request, now, o, ok,
                 if o.raw.None? then Failing(dr, upstream, decision, true)
                 else Remembering(dr, upstream, decision, o.raw.value, P.Strings(visited), []))
      ensures m.usage == old(m.usage) && m.prov == old(m.prov) && m.routes == old(m.routes)
      ensures RecordsIn(m.trace) == old(RecordsIn(m.trace))
      ensures SentIn(m.trace) == old(SentIn(m.trace)) + [Sent(upstream, dr.action)]
    {
      LogsGrow(m.trace, pid, [Called(dr.subject, upstream, dr.action, now, decision, o.raw)]);
      Take(Call(pid, o.raw, visited), pid, o, ok);
    }

    ghost method TakeFinish(pid: nat, request: Request, now: Time, o: Oracles, ok: State -> bool)
      requires pid in m.procs && m.procs[pid].phase.Remembering? && m.procs[pid].phase.pending == []
      requires At(pid, request, now, o, ok, m.procs[pid].phase)
      modifies this`m
      ensures var from := old(m.procs[pid].phase);
              Ended(pid, request, now, o, ok, Delivered(Deliver(from.decision, from.raw)))
      ensures m.usage == old(m.usage) && m.prov == old(m.prov) && m.routes == old(m.routes)
      ensures RecordsIn(m.trace) == old(RecordsIn(m.trace)) && SentIn(m.trace) == old(SentIn(m.trace))
    {
      LogsGrow(m.trace, pid, []);
      Take(Finish(pid), pid, o, ok);
    }

    /** recordResultProvenance: remember where the top-level strings came from. */
    method RecordResultProvenance(subject: string, upstream: string, result: ToolResult, now: Time)
      returns (ghost visited: seq<Json>)
      modifies prov
      ensures prov.ttl == old(prov.ttl) && prov.maxSize == old(prov.maxSize)
      ensures RemembersInOrder(result, visited)
      ensures prov.bySubject == P.RecordEach(old(prov.bySubject),
                P.Sightings(subject, P.Strings(visited), LabelFor(config, upstream), now), prov.maxSize, prov.ttl)
    {
      visited := [];
      if result.structured.Doc? {
        var source := if upstream in config.upstreamProvenance then config.upstreamProvenance[upstream]
                      else Provenance(upstream, false);
        visited := prov.RecordTopLevelStrings(subject, result.structured.tree, source, now);
      }
    }

    /** The machine's Remember steps for one delivered result. */
    ghost method RememberAll(pid: nat, request: Request, now: Time, o: Oracles, ok: State -> bool,
                             dr: DecisionRequest, upstream: string, decision: Decision, raw: ToolResult,
                             values: seq<string>)
      requires At(pid, request, now, o, ok, Remembering(dr, upstream, decision, raw, values, []))
      modifies this`m
      ensures var xs := P.Sightings(dr.subject.id, values, LabelFor(config, upstream), now);
              && At(pid, request, now, o, ok, Remembering(dr, upstream, decision, raw, [], xs))
              && m.prov == P.RecordEach(old(m.prov), xs, P.CACHE_MAX_SIZE, P.CACHE_TTL)
      ensures m.usage == old(m.usage) && m.routes == old(m.routes)
      ensures RecordsIn(m.trace) == old(RecordsIn(m.trace)) && SentIn(m.trace) == old(SentIn(m.trace))
    {
      var xs := P.Sightings(dr.subject.id, values, LabelFor(config, upstream), now);
      for i := 0 to |values|
        invariant At(pid, request, now, o, ok, Remembering(dr, upstream, decision, raw, values[i..], xs[..i]))
        invariant m.prov == P.RecordEach(old(m.prov), xs[..i], P.CACHE_MAX_SIZE, P.CACHE_TTL)
        invariant m.usage == old(m.usage) && m.routes == old(m.routes)
        invariant RecordsIn(m.trace) == old(RecordsIn(m.trace)) && SentIn(m.trace) == old(SentIn(m.trace))
      {
        TakeRemember(pid, request, now, o, ok, Remembering(dr, upstream, decision, raw, values[i..], xs[..i]));
        assert values[i..][1..] == values[i + 1..];
        assert xs[..i + 1] == xs[..i] + [xs[i]];
        assert xs[..i + 1][..i] == xs[..i];
      }
      assert xs[..|values|] == xs && values[|values|..] == [];
    }

    ghost method TakeRemember(pid: nat, request: Request, now: Time, o: Oracles, ok: State -> bool, from: Phase)
      requires from.Remembering? && from.pending != [] && At(pid, request, now, o, ok, from)
      modifies this`m
      ensures var x := P.Sighting(from.dr.subject.id, from.pending[0], LabelFor(config, from.upstream), now);
              && At(pid, request, now, o, ok, from.(pending := from.pending[1..], remembered := from.remembered + [x]))
              && m.prov == P.Record(old(m.prov), x, P.CACHE_MAX_SIZE, P.CACHE_TTL)
      ensures m.usage == old(m.usage) && m.routes == old(m.routes)
      ensures RecordsIn(m.trace) == old(RecordsIn(m.trace)) && SentIn(m.trace) == old(SentIn(m.trace))
    {
      var x := P.Sighting(from.dr.subject.id, from.pending[0], LabelFor(config, from.upstream), now);
      LogsGrow(m.trace, pid, [Remembered(x)]);
      Take(Remember(pid), pid, o, ok);
    }

    /** The part of CallTool after policy was asked: record, exchange, call. */
    method Serve(pid: nat, request: Request, now: Time, o: Oracles, ghost ok: State -> bool,
                 dr: DecisionRequest, upstream: string, decision: Decision)
      returns (response: Response)
      requires Mirrors(m) && At(pid, request, now, o, ok, Recording(dr, upstream, decision))
      modifies this, prov
      ensures Mirrors(m) && Ended(pid, request, now, o, ok, response)
      ensures response.Delivered? ==>
                && o.raw.Some? && Permits(decision)
                && response.result == (if decision.outcome == AllowWithObligations
                                       then O.MaskResult(o.raw.value, decision.obligations) else o.raw.value)
                && ledger == old(ledger) + [ActionRecord(now, dr.subject, dr.action, decision, Allowed, None)]
    {
      var refusal := CommitDecision(pid, request, now, o, ok, dr, upstream, decision);
      if refusal.Some? {
        return refusal.value;
      }
      var failure := ObtainCredential(pid, request, now, o, ok, dr, upstream, decision);
      if failure.Some? {
        return failure.value;
      }
      response := CallUpstream(pid, request, now, o, ok, dr, upstream, decision);
    }

    /** The part of CallTool before policy answers, and then the rest. */
    method Handle(pid: nat, request: Request, now: Time, o: Oracles, ghost ok: State -> bool)
      returns (response: Response)
      requires Mirrors(m) && At(pid, request, now, o, ok, Fresh)
      modifies this, usage, prov
      ensures Mirrors(m) && Ended(pid, request, now, o, ok, response)
      ensures response.Delivered? ==> DeliversAsDecided(o, old(ledger), ledger, response.result)
    {
      var refusal, subject := ResolveCaller(pid, request, now, o, ok);
      if refusal.Some? {
        return refusal.value;
      }
      var upstream, entry;
      refusal, upstream, entry := ResolveTool(pid, request, now, o, ok, subject);
      if refusal.Some? {
        return refusal.value;
      }
      var tainted := TaintArguments(pid, request, now, o, ok, subject, upstream, entry);
      var dr := CountAttempt(pid, request, now, o, ok, subject, upstream, entry, tainted);
      var decision := AskPolicy(pid, request, now, o, ok, dr, upstream);
      response := Serve(pid, request, now, o, ok, dr, upstream, decision);
    }

    /** CallTool: a run of the request machine from its start to its end, with
        exactly the oracles' answers and no step of any other request; ledger,
        upstream requests, counters and cache are those of the machine. What is
        delivered is the upstream's answer with every target of policy's own
        obligations masked, after exactly one record: policy's own answer. */
    method CallTool(pid: nat, request: Request, now: Time, o: Oracles) returns (response: Response)
      requires Valid() && pid !in m.procs
      modifies this, usage, prov
      ensures Valid()
      ensures Runs(config, o, pid, Step(config, old(m), Begin(pid, request, now)), m)
      ensures Answered(pid, request, now, response)
      ensures response.Delivered? ==> DeliversAsDecided(o, old(ledger), ledger, response.result)
    {
      ghost var start := Step(config, m, Begin(pid, request, now));
      ghost var ok := RunsFrom(config, o, pid, start);
      ReachableOn(config, m, Begin(pid, request, now));
      RunsNowhere(config, o, pid, start);
      RunsStay(config, o, pid, start);
      m := start;
      response := Handle(pid, request, now, o, ok);
    }
  }
}
