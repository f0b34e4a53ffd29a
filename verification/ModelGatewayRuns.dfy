/** What every interleaving of model calls keeps. */
module ModelGatewayRuns {
  import opened Types
  import opened Interleaving
  import opened ModelGateway

  predicate IsAppended(e: Event) { e.Appended? }

  /** A trace of concurrent calls: what each call has done so far is a prefix of
      what it does. Calls share no state besides the ledger. */
  ghost predicate Interleaves(c: Config, calls: map<nat, Invocation>, t: seq<Tagged<Event>>) {
    forall pid: nat :: Project(t, pid) <= if pid in calls then CallTrace(c, calls[pid]) else []
  }

  /** The position of the decision record in a call. */
  function RulingAt(c: Config, i: Invocation): nat {
    if Eligible(c, i) then 1 else 0
  }

  lemma RulingIsThere(c: Config, i: Invocation)
    ensures RulingAt(c, i) < |CallTrace(c, i)|
    ensures CallTrace(c, i)[RulingAt(c, i)] == Attempted(RulingRecord(c, i), i.oracles.firstAppend)
    ensures Proceeds(c, i) ==>
              && CallTrace(c, i)[2..] == ServiceTrace(c, i, c.routes[i.request.purpose])
              && CallTrace(c, i)[..2] == [Asked(AskFor(i)), Appended(RulingRecord(c, i))]
    ensures !Proceeds(c, i) ==> |CallTrace(c, i)| == RulingAt(c, i) + 1
  {
  }

  // ---------- provider calls ----------

  /** A provider call uses an approved, pinned pair of the route its purpose
      names: the primary, or the fallback after the primary failed. */
  predicate Governed(c: Config, t: seq<Event>, b: nat)
    requires b < |t| && t[b].Called?
  {
    var pair, purpose := t[b].pair, t[b].request.purpose;
    && Approved(c, pair) && Pinned(pair.model) && pair.provider in c.providers
    && purpose in c.routes
    && (pair == PrimaryOf(c.routes[purpose])
        || (&& pair == FallbackOf(c.routes[purpose]) && c.routes[purpose].fallbackProvider != ""
            && b > 0 && t[b - 1] == Called(PrimaryOf(c.routes[purpose]), t[b].request, None)))
  }

  /** The record under which a request reaches providers: it carries policy's
      own answer to the call. */
  predicate Covers(e: Event, i: Invocation) {
    && e.Appended? && e.record.outcome == Allowed
    && i.oracles.decision == Some(e.record.decision) && Permits(e.record.decision)
    && e.record.subject == i.subject
    && e.record.action == Action("model_call", i.request.purpose, "", map[], "", [], [])
  }

  lemma CallIsGoverned(c: Config, i: Invocation, b: nat)
    requires ValidConfig(c) && b < |CallTrace(c, i)| && CallTrace(c, i)[b].Called?
    ensures b > 1 && Covers(CallTrace(c, i)[1], i) && CallTrace(c, i)[b].request == i.request
    ensures Governed(c, CallTrace(c, i), b)
  {
    var t := CallTrace(c, i);
    RulingIsThere(c, i);
    assert Proceeds(c, i);
    var r := c.routes[i.request.purpose];
    assert ValidRoute(c.providers, r);
    assert b >= 2;
    assert t[2..][b - 2] == t[b];
    assert t[2] == Called(PrimaryOf(r), i.request, i.oracles.primary) by {
      assert t[2..][0] == t[2];
    }
    assert t[..2][1] == t[1];
  }

  /** In every interleaving, each provider call is governed and follows that
      same call's Allowed record, which was successfully appended. */
  lemma ProviderCallsAreRecordedFirst(c: Config, calls: map<nat, Invocation>, t: seq<Tagged<Event>>, n: nat)
    returns (j: nat)
    requires ValidConfig(c) && Interleaves(c, calls, t) && n < |t| && t[n].event.Called?
    ensures t[n].pid in calls
    ensures j < n && t[j].pid == t[n].pid && Covers(t[j].event, calls[t[n].pid])
    ensures var b := |Project(t[..n], t[n].pid)|;
            b < |Project(t, t[n].pid)| && Project(t, t[n].pid)[b] == t[n].event && Governed(c, Project(t, t[n].pid), b)
  {
    var pid := t[n].pid;
    PositionInProjection(t, n);
    var own, b := Project(t, pid), |Project(t[..n], pid)|;
    assert own <= if pid in calls then CallTrace(c, calls[pid]) else [];
    var i := calls[pid];
    CallIsGoverned(c, i, b);
    assert forall a | 0 <= a <= b :: own[a] == CallTrace(c, i)[a];
    j := ProjectedIsInTrace(t[..n], pid, 1);
    assert Project(t[..n], pid)[1] == own[..b][1] == own[1];
  }

  // ---------- policy's answer ----------

  predicate ReachesProviders(t: seq<Event>) {
    exists e :: e in t && e.Called?
  }

  /** A call reaches its providers if and only if its purpose has a route whose
      pair is approved, policy answered and its answer permits, and the decision
      was recorded; and then it does not end in a refusal. */
  lemma ReachesProvidersExactly(c: Config, i: Invocation)
    ensures ReachesProviders(CallTrace(c, i)) <==>
            && i.request.purpose in c.routes && Approved(c, PrimaryOf(c.routes[i.request.purpose]))
            && i.oracles.decision.Some? && Permits(i.oracles.decision.value)
            && i.oracles.firstAppend
    ensures CallOutcome(c, i).Refused? <==> !ReachesProviders(CallTrace(c, i))
  {
    OnlyEligiblePermits(c, i);
    RulingIsThere(c, i);
    if Proceeds(c, i) {
      var t := CallTrace(c, i);
      assert t[2] == t[2..][0] == Called(PrimaryOf(c.routes[i.request.purpose]), i.request, i.oracles.primary);
      assert t[2] in t;
    }
  }

  /** The decision a call is recorded under: policy's answer if it was asked and
      answered, a denial under its own policy id otherwise. */
  predicate RuledBy(c: Config, i: Invocation, d: Decision) {
    if i.request.purpose !in c.routes then d.outcome == Deny && d.policyId == "modelgw.no_route"
    else if !Approved(c, PrimaryOf(c.routes[i.request.purpose])) then
      d.outcome == Deny && d.policyId == "modelcatalog.unapproved"
    else if i.oracles.decision.None? then d == Decision(Deny, [], "modelgw.pdp_error", i.oracles.error)
    else d == i.oracles.decision.value
  }

  /** Every record of a call carries the decision it was ruled by; it is Denied
      exactly if that does not permit. */
  lemma RecordsCarryTheRuling(c: Config, i: Invocation, e: Event)
    requires e in CallTrace(c, i) && (e.Appended? || e.AppendFailed?)
    ensures var record := if e.Appended? then e.record else e.lost;
            && RuledBy(c, i, record.decision) && record.subject == i.subject
            && record.action.kind == "model_call" && record.action.tool == i.request.purpose
            && (record.outcome == Denied <==> !Permits(record.decision))
  {
    RulingIsThere(c, i);
  }

  /** What policy is asked: this subject, this purpose, at this time. */
  lemma QuestionIsAboutTheCall(c: Config, i: Invocation)
    requires Eligible(c, i)
    ensures CallTrace(c, i)[0] ==
            Asked(DecisionRequest(i.subject, Action("model_call", i.request.purpose, "", map[], "", [], []), "",
                                  i.oracles.now, Usage(0, 0)))
  {
  }

  /** A call that reaches its providers is answered by the primary if that
      answers, else by the fallback if there is an approved one that answers, and
      fails otherwise; nothing else is asked. */
  lemma ServedExactly(c: Config, i: Invocation)
    requires ReachesProviders(CallTrace(c, i))
    ensures i.request.purpose in c.routes
    ensures var r, o, t := c.routes[i.request.purpose], i.oracles, CallTrace(c, i);
            var falls := o.primary.None? && r.fallbackProvider != ""
                         && Approved(c, Pair(r.fallbackProvider, r.fallbackModel));
            && |t| == (if falls then 5 else 4)
            && t[2] == Called(Pair(r.provider, r.model), i.request, o.primary)
            && (falls ==> t[3] == Called(Pair(r.fallbackProvider, r.fallbackModel), i.request, o.fallback))
            && CallOutcome(c, i) == (
                 if o.primary.Some? then Completed(o.primary.value)
                 else if falls && o.fallback.Some? then Completed(o.fallback.value.(fallbackFrom := r.provider))
                 else ProviderFailed)
  {
    ReachesProvidersExactly(c, i);
    RulingIsThere(c, i);
    var t, service := CallTrace(c, i), ServiceTrace(c, i, c.routes[i.request.purpose]);
    assert t[2] == t[2..][0] == service[0];
    assert |service| == 3 ==> t[3] == t[2..][1] == service[1];
  }

  /** A call whose answer does not permit is not served, and says why. */
  lemma DeniedIsRefused(c: Config, i: Invocation, d: Decision)
    requires Eligible(c, i) && i.oracles.decision == Some(d) && !Permits(d)
    ensures !ReachesProviders(CallTrace(c, i))
    ensures CallOutcome(c, i) == Refused(d.policyId, if d.reason == "" then "denied by policy" else d.reason)
  {
    ReachesProvidersExactly(c, i);
  }

  // ---------- records ----------

  lemma CountService(c: Config, i: Invocation, r: Route)
    ensures Count(ServiceTrace(c, i, r), IsAppended) == if i.oracles.secondAppend then 1 else 0
  {
    var events := ProviderEvents(c, r, i.request, i.oracles);
    var last := Attempted(OutcomeRecord(c, i, Served(c, r, i.oracles)), i.oracles.secondAppend);
    CountConcat(events, [last], IsAppended);
    CountOne(last, IsAppended);
    CountOne(events[0], IsAppended);
    if |events| == 2 {
      CountConcat([events[0]], [events[1]], IsAppended);
      CountOne(events[1], IsAppended);
      assert events == [events[0]] + [events[1]];
    } else {
      assert events == [events[0]];
    }
  }

  /** A completed call's records: one if it was refused, two if it reached its
      providers, less the ones whose append failed. */
  lemma CountRecords(c: Config, i: Invocation)
    ensures Count(CallTrace(c, i), IsAppended) ==
            (if i.oracles.firstAppend then 1 else 0) + (if Proceeds(c, i) && i.oracles.secondAppend then 1 else 0)
  {
    var t := CallTrace(c, i);
    var asked: seq<Event> := if Eligible(c, i) then [Asked(AskFor(i))] else [];
    var ruling := Attempted(RulingRecord(c, i), i.oracles.firstAppend);
    var service := if Proceeds(c, i) then ServiceTrace(c, i, c.routes[i.request.purpose]) else [];
    assert t == asked + [ruling] + service;
    CountConcat(asked + [ruling], service, IsAppended);
    CountConcat(asked, [ruling], IsAppended);
    CountOne(ruling, IsAppended);
    CountOne(Asked(AskFor(i)), IsAppended);
    if Proceeds(c, i) {
      CountService(c, i, c.routes[i.request.purpose]);
    }
  }

  lemma LosesNothing(c: Config, i: Invocation)
    requires forall e | e in CallTrace(c, i) :: !e.AppendFailed?
    ensures i.oracles.firstAppend && (Proceeds(c, i) ==> i.oracles.secondAppend)
  {
    var t := CallTrace(c, i);
    RulingIsThere(c, i);
    assert t[RulingAt(c, i)] in t;
    if Proceeds(c, i) {
      var service := ServiceTrace(c, i, c.routes[i.request.purpose]);
      assert t[|t| - 1] == t[2..][|service| - 1] == service[|service| - 1];
      assert t[|t| - 1] in t;
    }
  }

  /** When no append fails, a finished call leaves exactly one record if it was
      refused and exactly two if it was not, in any interleaving. */
  lemma RecordsPerCall(c: Config, calls: map<nat, Invocation>, t: seq<Tagged<Event>>, pid: nat)
    requires Interleaves(c, calls, t) && pid in calls && Project(t, pid) == CallTrace(c, calls[pid])
    requires forall e | e in Project(t, pid) :: !e.AppendFailed?
    ensures Count(Project(t, pid), IsAppended) == if CallOutcome(c, calls[pid]).Refused? then 1 else 2
  {
    LosesNothing(c, calls[pid]);
    CountRecords(c, calls[pid]);
    OnlyEligiblePermits(c, calls[pid]);
  }

  // ---------- fallback ----------

  /** The record an answered call ends with. */
  lemma OutcomeIsLast(c: Config, i: Invocation)
    requires Proceeds(c, i)
    ensures var t, served := CallTrace(c, i), Served(c, c.routes[i.request.purpose], i.oracles);
            && |t| > 2
            && t[|t| - 1] == Attempted(OutcomeRecord(c, i, served), i.oracles.secondAppend)
  {
    RulingIsThere(c, i);
    var t := CallTrace(c, i);
    var service := ServiceTrace(c, i, c.routes[i.request.purpose]);
    assert t[|t| - 1] == t[2..][|service| - 1] == service[|service| - 1];
  }

  /** The text that names both the serving pair and the provider it replaced. */
  function FallbackText(resp: Response, from: string): string {
    resp.provider + "/" + resp.model + " (fallback from " + from + ")"
  }

  /** Fallback is recorded, never silent: a response that did not come from the
      primary carries the primary's name, and the attempted outcome record names
      the serving pair and the primary exactly when the serving provider
      reported its own name; without one the record shows no resource at all. */
  lemma FallbackIsRecorded(c: Config, i: Invocation)
    requires ValidConfig(c) && CallOutcome(c, i).Completed? && i.oracles.primary.None?
    ensures var t, resp, primary := CallTrace(c, i), CallOutcome(c, i).response, c.routes[i.request.purpose].provider;
            var record := OutcomeRecord(c, i, Some(resp));
            && resp.fallbackFrom == primary != ""
            && |t| > 3 && t[|t| - 1] == Attempted(record, i.oracles.secondAppend)
            && t[|t| - 2] == Called(FallbackOf(c.routes[i.request.purpose]), i.request, i.oracles.fallback)
            && record.outcome == Allowed && record.subject == i.subject
            && (record.action.resource == FallbackText(resp, primary) <==> resp.provider != "")
            && (resp.provider == "" <==> record.action.resource == "")
  {
    OutcomeIsLast(c, i);
    RulingIsThere(c, i);
    var t, r := CallTrace(c, i), c.routes[i.request.purpose];
    assert ValidRoute(c.providers, r);
    var service := ServiceTrace(c, i, r);
    assert |service| == 3 && service[1] == Called(FallbackOf(r), i.request, i.oracles.fallback);
    assert t[|t| - 2] == t[2..][1] == service[1];
    var resp := CallOutcome(c, i).response;
    assert |FallbackText(resp, r.provider)| >= 1;
    assert resp.provider != "" ==>
        resp.provider + "/" + resp.model + (" (fallback from " + r.provider + ")") == FallbackText(resp, r.provider);
  }

  /** A response of the primary provider is passed on as it came. If it reports
      its name, the record names the serving pair, and a fallback exactly when the
      provider itself claimed one; without a name the record shows no resource. */
  lemma PrimaryIsRecorded(c: Config, i: Invocation)
    requires CallOutcome(c, i).Completed? && i.oracles.primary.Some?
    ensures var t, resp := CallTrace(c, i), CallOutcome(c, i).response;
            var record := OutcomeRecord(c, i, Some(resp));
            && Some(resp) == i.oracles.primary
            && |t| == 4 && t[3] == Attempted(record, i.oracles.secondAppend)
            && (resp.provider == "" <==> record.action.resource == "")
            && (resp.provider != "" ==>
                  (record.action.resource == resp.provider + "/" + resp.model <==> resp.fallbackFrom == ""))
  {
    OutcomeIsLast(c, i);
    RulingIsThere(c, i);
  }
}
