/** The shared state of the Tool Gateway is a replay of its trace, and every
    trusted label in a decision request was earned earlier in the trace. */
module ToolGatewayTaint {
  import opened Types
  import opened Interleaving
  import opened ToolGateway
  import opened ToolGatewayRuns
  import U = UsageWindow
  import P = ProvenanceTracking

  // ---------- shared state as history ----------

  /** The usage attempts of a trace. */
  function Attempts(t: seq<Tagged<Event>>): seq<U.Attempt> {
    if t == [] then []
    else
      var e := t[|t| - 1].event;
      Attempts(t[..|t| - 1]) + if e.Counted? then [U.Attempt(e.subject, e.at)] else []
  }

  /** The provenance records of a trace. */
  function SightingsIn(t: seq<Tagged<Event>>): seq<P.Sighting> {
    if t == [] then []
    else
      var e := t[|t| - 1].event;
      SightingsIn(t[..|t| - 1]) + if e.Remembered? then [e.sighting] else []
  }

  ghost predicate SharedIsHistory(s: State) {
    && s.usage == U.Replay(Attempts(s.trace), U.DEFAULT_WINDOW)
    && s.prov == P.Replay(SightingsIn(s.trace), P.CACHE_MAX_SIZE, P.CACHE_TTL)
  }

  /** A move touches the shared state exactly as its event says. */
  predicate Accounted(s: State, m: Move) {
    && |m.events| <= 1
    && m.usage == (if |m.events| == 1 && m.events[0].Counted?
                   then U.Record(s.usage, m.events[0].subject, m.events[0].at, U.DEFAULT_WINDOW) else s.usage)
    && m.prov == (if |m.events| == 1 && m.events[0].Remembered?
                  then P.Record(s.prov, m.events[0].sighting, P.CACHE_MAX_SIZE, P.CACHE_TTL) else s.prov)
    && (|m.events| == 1 && m.events[0].Counted? ==>
          m.events[0].calls == U.Count(s.usage, m.events[0].subject, m.events[0].at, U.DEFAULT_WINDOW) + 1)
  }

  lemma GateIsAccounted(c: Config, s: State, p: Proc, l: Label)
    requires Enabled(c, p, l) && (l.Identify? || l.Route? || l.Taint? || l.Finish?)
    ensures Accounted(s, Advance(c, s, p, l))
  {
  }

  lemma DenialIsAccounted(s: State, p: Proc, ok: bool)
    requires p.phase.Denying?
    ensures Accounted(s, OnAppendDenial(s, p, ok))
  {
  }

  lemma DecisionIsAccounted(s: State, p: Proc, ok: bool)
    requires p.phase.Recording?
    ensures Accounted(s, OnAppendDecision(s, p, ok))
  {
  }

  lemma FailureIsAccounted(s: State, p: Proc, ok: bool, at: Time)
    requires p.phase.Failing?
    ensures Accounted(s, OnAppendFailure(s, p, ok, at))
  {
  }

  lemma AppendIsAccounted(c: Config, s: State, p: Proc, l: Label)
    requires Enabled(c, p, l) && l.Append?
    ensures Accounted(s, Advance(c, s, p, l))
  {
    if p.phase.Denying? {
      DenialIsAccounted(s, p, l.ok);
    } else if p.phase.Recording? {
      DecisionIsAccounted(s, p, l.ok);
    } else {
      FailureIsAccounted(s, p, l.ok, l.at);
    }
  }

  lemma CallIsAccounted(c: Config, s: State, p: Proc, l: Label)
    requires Enabled(c, p, l) && (l.Decide? || l.Exchange? || l.Call?)
    ensures Accounted(s, Advance(c, s, p, l))
  {
  }

  lemma SharedIsAccounted(c: Config, s: State, p: Proc, l: Label)
    requires Enabled(c, p, l) && (l.CountUsage? || l.Remember?)
    ensures Accounted(s, Advance(c, s, p, l))
  {
  }

  lemma AdvanceIsAccounted(c: Config, s: State, p: Proc, l: Label)
    requires Enabled(c, p, l)
    ensures Accounted(s, Advance(c, s, p, l))
  {
    if l.Append? {
      AppendIsAccounted(c, s, p, l);
    } else if l.Decide? || l.Exchange? || l.Call? {
      CallIsAccounted(c, s, p, l);
    } else if l.CountUsage? || l.Remember? {
      SharedIsAccounted(c, s, p, l);
    } else {
      GateIsAccounted(c, s, p, l);
    }
  }

  lemma HistoryGrows(t: seq<Tagged<Event>>, x: Tagged<Event>)
    ensures Attempts(t + [x]) == Attempts(t) + if x.event.Counted? then [U.Attempt(x.event.subject, x.event.at)] else []
    ensures SightingsIn(t + [x]) == SightingsIn(t) + if x.event.Remembered? then [x.event.sighting] else []
  {
    assert (t + [x])[..|t|] == t;
  }

  lemma ReplayAttempt(h: seq<U.Attempt>, a: U.Attempt, window: int)
    ensures U.Replay(h + [a], window) == U.Record(U.Replay(h, window), a.subject, a.at, window)
  {
    assert (h + [a])[..|h|] == h;
  }

  lemma ReplaySighting(h: seq<P.Sighting>, x: P.Sighting)
    ensures P.Replay(h + [x], P.CACHE_MAX_SIZE, P.CACHE_TTL) ==
            P.Record(P.Replay(h, P.CACHE_MAX_SIZE, P.CACHE_TTL), x, P.CACHE_MAX_SIZE, P.CACHE_TTL)
  {
    assert (h + [x])[..|h|] == h;
  }

  lemma SharedMoved(s: State, pid: nat, m: Move)
    requires SharedIsHistory(s) && pid in s.procs && Accounted(s, m)
    ensures SharedIsHistory(Moved(s, pid, m))
  {
    if m.events == [] {
      assert s.trace + Tag(pid, m.events) == s.trace;
    } else {
      var e := m.events[0];
      assert s.trace + Tag(pid, m.events) == s.trace + [Tagged(pid, e)];
      HistoryGrows(s.trace, Tagged(pid, e));
      if e.Counted? {
        ReplayAttempt(Attempts(s.trace), U.Attempt(e.subject, e.at), U.DEFAULT_WINDOW);
      }
      if e.Remembered? {
        ReplaySighting(SightingsIn(s.trace), e.sighting);
      }
      assert e.Counted? || Attempts(s.trace + [Tagged(pid, e)]) == Attempts(s.trace);
      assert e.Remembered? || SightingsIn(s.trace + [Tagged(pid, e)]) == SightingsIn(s.trace);
    }
  }

  lemma SharedStep(c: Config, s: State, l: Label)
    requires SharedIsHistory(s)
    ensures SharedIsHistory(Step(c, s, l))
  {
    if !l.Begin? && !l.Refresh? && l.pid in s.procs && Enabled(c, s.procs[l.pid], l) {
      AdvanceIsAccounted(c, s, s.procs[l.pid], l);
      SharedMoved(s, l.pid, Advance(c, s, s.procs[l.pid], l));
    }
  }

  lemma {:induction false} SharedHolds(c: Config, labels: seq<Label>)
    ensures SharedIsHistory(Run(c, labels))
  {
    if labels != [] {
      SharedHolds(c, labels[..|labels| - 1]);
      SharedStep(c, Run(c, labels[..|labels| - 1]), labels[|labels| - 1]);
    }
  }

  /** In every reachable state the usage counters are the replay of the counted
      attempts, and the provenance cache is the replay of the remembered values. */
  lemma SharedStateIsHistory(c: Config, s: State)
    requires Reachable(c, s)
    ensures SharedIsHistory(s)
  {
    var labels :| Run(c, labels) == s;
    SharedHolds(c, labels);
  }

  // ---------- which requests are counted ----------

  /** Everything the gates look at is open: the credential was resolved to a
      declared agent, the tool was routed, is declared, and its pin allows the
      upstream it was routed to. */
  predicate GatesPass(c: Config, p: Proc, t: seq<Event>) {
    && |t| >= 2
    && t[0].Identified? && t[0].who.Some? && AgentDeclared(c, t[0].who.value)
    && t[1].Routed? && t[1].route.Some?
    && p.request.tool in c.tools && PinHolds(c.tools[p.request.tool], t[1].route.value)
  }

  /** The first events of a request are what identity answered and, for a
      declared agent, what the routing table answered. */
  predicate AnswersFirst(c: Config, t: seq<Event>) {
    && |t| >= 1 && t[0].Identified?
    && (t[0].who.Some? && AgentDeclared(c, t[0].who.value) ==> |t| >= 2 && t[1].Routed?)
  }

  /** The attempt and then the question to policy, for the identified subject. */
  predicate CountedThenAsked(now: Time, t: seq<Event>) {
    && |t| >= 4 && t[0].Identified? && t[0].who.Some? && t[3].Asked?
    && t[3].request.subject == t[0].who.value
    && t[2] == Counted(t[0].who.value.id, now, t[3].request.usage.callsInWindow)
  }

  /** A finished request was counted, once and before policy was asked, if and
      only if it passed the identity, agent, routing, declaration and upstream
      gates; whether it was then allowed or denied plays no part. */
  lemma CountedExactlyWhenGatesPass(c: Config, s: State, pid: nat)
    requires Reachable(c, s) && HasFinished(s, pid)
    ensures var t, p := Project(s.trace, pid), s.procs[pid];
            && AnswersFirst(c, t)
            && Count(t, IsCounted) == (if GatesPass(c, p, t) then 1 else 0)
            && (GatesPass(c, p, t) ==> CountedThenAsked(p.now, t))
  {
    ReachableLocal(c, s);
    var p := s.procs[pid];
    if p.phase.from.Denying? {
      DeniedIsNotCounted(c, p);
    } else if p.phase.from.Routing? {
      UnroutedIsNotCounted(c, p);
    } else {
      PassedIsCounted(c, p);
    }
  }

  lemma DeniedIsNotCounted(c: Config, p: Proc)
    requires Valid(c, p, p.phase) && p.phase.Finished? && p.phase.from.Denying?
    ensures var t := Trail(c, p.now, p.phase); AnswersFirst(c, t) && !GatesPass(c, p, t) && Count(t, IsCounted) == 0
  {
    CountNone(Trail(c, p.now, p.phase), IsCounted);
  }

  lemma UnroutedIsNotCounted(c: Config, p: Proc)
    requires Valid(c, p, p.phase) && p.phase.Finished? && p.phase.from.Routing?
    ensures var t := Trail(c, p.now, p.phase); AnswersFirst(c, t) && !GatesPass(c, p, t) && Count(t, IsCounted) == 0
  {
    CountNone(Trail(c, p.now, p.phase), IsCounted);
  }

  lemma PassedIsCounted(c: Config, p: Proc)
    requires Valid(c, p, p.phase) && p.phase.Finished? && !p.phase.from.Denying? && !p.phase.from.Routing?
    ensures var t := Trail(c, p.now, p.phase);
            AnswersFirst(c, t) && GatesPass(c, p, t) && CountedThenAsked(p.now, t) && Count(t, IsCounted) == 1
  {
    var t, from := Trail(c, p.now, p.phase), p.phase.from;
    CountedThird(c, p);
    NoSecondCount(c, p);
    CountThird(t);
  }

  lemma CountThird(t: seq<Event>)
    requires |t| >= 3 && IsCounted(t[2]) && !IsCounted(t[0]) && !IsCounted(t[1])
    requires forall e | e in t[3..] :: !IsCounted(e)
    ensures Count(t, IsCounted) == 1
  {
    var head := [t[0], t[1]];
    assert t == head + [t[2]] + t[3..];
    CountConcat(head + [t[2]], t[3..], IsCounted);
    CountConcat(head, [t[2]], IsCounted);
    CountOne(t[2], IsCounted);
    CountNone(head, IsCounted);
    CountNone(t[3..], IsCounted);
  }

  lemma CountedThird(c: Config, p: Proc)
    requires Valid(c, p, p.phase) && p.phase.Finished?
    requires p.phase.from.Recording? || p.phase.from.Failing? || p.phase.from.Remembering?
    ensures var t, dr := Trail(c, p.now, p.phase), p.phase.from.dr;
            && |t| >= 4 && t[0] == Identified(Some(dr.subject)) && t[1] == Routed(Some(p.phase.from.upstream))
            && t[2] == Counted(dr.subject.id, p.now, dr.usage.callsInWindow) && t[3] == Asked(dr)
  {
    ReadyElements(c, p.now, p.phase.from.dr, p.phase.from.upstream, p.phase.from.decision);
  }

  lemma NoSecondCount(c: Config, p: Proc)
    requires Valid(c, p, p.phase) && p.phase.Finished?
    requires p.phase.from.Recording? || p.phase.from.Failing? || p.phase.from.Remembering?
    ensures |Trail(c, p.now, p.phase)| >= 3
    ensures forall e | e in Trail(c, p.now, p.phase)[3..] :: !IsCounted(e)
  {
    var t, from := Trail(c, p.now, p.phase), p.phase.from;
    ReadyElements(c, p.now, from.dr, from.upstream, from.decision);
    forall i | 3 <= i < |t| ensures !IsCounted(t[i]) {}
  }

  // ---------- the gate events are the answers ----------

  /** The index installed by the last refresh of a run. */
  function IndexAfter(labels: seq<Label>): map<string, string> {
    if labels == [] then map[]
    else
      var last := labels[|labels| - 1];
      if last.Refresh? then last.routes else IndexAfter(labels[..|labels| - 1])
  }

  lemma {:induction false} RoutesAreTheIndex(c: Config, labels: seq<Label>)
    ensures Run(c, labels).routes == IndexAfter(labels)
  {
    if labels != [] {
      RoutesAreTheIndex(c, labels[..|labels| - 1]);
    }
  }

  /** The identity event carries what identity answered, and the routing event
      what the index of the last refresh says about the tool. */
  lemma GateEventsAreTheAnswers(c: Config, labels: seq<Label>, l: Label)
    requires (l.Identify? || l.Route?) && l.pid in Run(c, labels).procs && Enabled(c, Run(c, labels).procs[l.pid], l)
    ensures var s := Run(c, labels);
            Run(c, labels + [l]).trace == s.trace +
              [Tagged(l.pid, if l.Identify? then Identified(l.who)
                             else Routed(RouteOf(IndexAfter(labels), s.procs[l.pid].request.tool)))]
  {
    var s := Run(c, labels);
    assert (labels + [l])[..|labels|] == labels;
    RoutesAreTheIndex(c, labels);
    GateEvent(c, s, s.procs[l.pid], l);
  }

  lemma GateEvent(c: Config, s: State, p: Proc, l: Label)
    requires (l.Identify? || l.Route?) && Enabled(c, p, l)
    ensures Advance(c, s, p, l).events ==
            [if l.Identify? then Identified(l.who) else Routed(RouteOf(s.routes, p.request.tool))]
  {
  }

  /** The count a request reports to policy is the count its attempt has in
      the history of all attempts. */
  lemma CountsAreReported(c: Config, s: State, i: nat)
    requires Reachable(c, s) && i < |s.trace| && s.trace[i].event.Counted?
    ensures |Attempts(s.trace[..i])| < |Attempts(s.trace)|
    ensures var k, e := |Attempts(s.trace[..i])|, s.trace[i].event;
            && Attempts(s.trace)[k] == U.Attempt(e.subject, e.at)
            && e.calls == U.Reported(Attempts(s.trace), k, U.DEFAULT_WINDOW)
  {
    var labels :| Run(c, labels) == s;
    CountsHold(c, labels);
    assert CountIsRight(s.trace, i);
    AttemptAt(s.trace, i);
  }

  /** Where a counted event stands in the history of attempts. */
  lemma AttemptAt(t: seq<Tagged<Event>>, i: nat)
    requires i < |t| && t[i].event.Counted?
    ensures var h, k := Attempts(t), |Attempts(t[..i])|;
            k < |h| && h[k] == U.Attempt(t[i].event.subject, t[i].event.at) && h[..k] == Attempts(t[..i])
  {
    AttemptsPrefix(t, i + 1);
    assert t[..i + 1][..i] == t[..i];
    var h, k := Attempts(t), |Attempts(t[..i])|;
    assert h[..k + 1] == Attempts(t[..i + 1]);
    assert h[..k + 1][..k] == h[..k];
  }

  lemma {:induction false} AttemptsPrefix(t: seq<Tagged<Event>>, n: nat)
    requires n <= |t|
    ensures Attempts(t[..n]) <= Attempts(t)
    decreases |t|
  {
    if n == |t| {
      assert t[..n] == t;
    } else {
      assert t[..|t| - 1][..n] == t[..n];
      AttemptsPrefix(t[..|t| - 1], n);
    }
  }

  predicate CountIsRight(t: seq<Tagged<Event>>, i: nat)
    requires i < |t|
  {
    t[i].event.Counted? ==>
      t[i].event.calls ==
      U.Count(U.Replay(Attempts(t[..i]), U.DEFAULT_WINDOW), t[i].event.subject, t[i].event.at, U.DEFAULT_WINDOW) + 1
  }

  lemma {:induction false} CountsHold(c: Config, labels: seq<Label>)
    ensures forall i | 0 <= i < |Run(c, labels).trace| :: CountIsRight(Run(c, labels).trace, i)
  {
    if labels != [] {
      var s, l := Run(c, labels[..|labels| - 1]), labels[|labels| - 1];
      CountsHold(c, labels[..|labels| - 1]);
      SharedHolds(c, labels[..|labels| - 1]);
      CountsStep(c, s, l);
    }
  }

  lemma CountsStep(c: Config, s: State, l: Label)
    requires SharedIsHistory(s)
    requires forall i | 0 <= i < |s.trace| :: CountIsRight(s.trace, i)
    ensures forall i | 0 <= i < |Step(c, s, l).trace| :: CountIsRight(Step(c, s, l).trace, i)
  {
    var t := Step(c, s, l).trace;
    if !l.Begin? && !l.Refresh? && l.pid in s.procs && Enabled(c, s.procs[l.pid], l) {
      AdvanceIsAccounted(c, s, s.procs[l.pid], l);
    }
    assert s.trace <= t && |t| <= |s.trace| + 1;
    forall i | 0 <= i < |t| ensures CountIsRight(t, i) {
      if i < |s.trace| {
        assert CountIsRight(s.trace, i);
        assert t[..i] == s.trace[..i];
      } else {
        assert t[..i] == s.trace;
      }
    }
  }

  // ---------- the rate a policy limit enforces ----------

  /** The count a request of the subject reported, at a time in the window from
      `x`, was within the limit. */
  function WithinLimit(subject: string, limit: nat, x: Time): Event -> bool {
    (e: Event) => e.Counted? && e.subject == subject && x <= e.at < x + U.DEFAULT_WINDOW && e.calls <= limit
  }

  lemma LastReported(t: seq<Tagged<Event>>, subject: string, limit: nat, x: Time)
    requires t != [] && CountIsRight(t, |t| - 1)
    ensures U.Admitted(Attempts(t), subject, limit, x, U.DEFAULT_WINDOW) ==
            U.Admitted(Attempts(t[..|t| - 1]), subject, limit, x, U.DEFAULT_WINDOW) +
            if WithinLimit(subject, limit, x)(t[|t| - 1].event) then 1 else 0
  {
    var e, before := t[|t| - 1].event, Attempts(t[..|t| - 1]);
    if e.Counted? {
      U.AdmittedAppend(before, U.Attempt(e.subject, e.at), subject, limit, x, U.DEFAULT_WINDOW);
    } else {
      assert Attempts(t) == before;
    }
  }

  lemma {:induction false} ReportedWithinLimit(t: seq<Tagged<Event>>, subject: string, limit: nat, x: Time)
    requires forall i | 0 <= i < |t| :: CountIsRight(t, i)
    ensures Count(Events(t), WithinLimit(subject, limit, x)) ==
            U.Admitted(Attempts(t), subject, limit, x, U.DEFAULT_WINDOW)
  {
    if t != [] {
      var front := t[..|t| - 1];
      forall i | 0 <= i < |front| ensures CountIsRight(front, i) {
        assert CountIsRight(t, i);
        assert front[..i] == t[..i];
      }
      ReportedWithinLimit(front, subject, limit, x);
      EventsFront(t);
      LastReported(t, subject, limit, x);
    }
  }

  /** A policy that denies above `limit` calls lets through, of one subject in
      any interval of one window length, at most 2 * limit - 1 requests: in
      every interleaving whose attempts are counted in the order of their clock
      readings. */
  lemma RateBoundInRuns(c: Config, s: State, subject: string, limit: nat, x: Time)
    requires Reachable(c, s) && limit >= 1 && U.NonDecreasing(Attempts(s.trace), subject)
    ensures Count(Events(s.trace), WithinLimit(subject, limit, x)) <= 2 * limit - 1
  {
    var labels :| Run(c, labels) == s;
    CountsHold(c, labels);
    ReportedWithinLimit(s.trace, subject, limit, x);
    U.RateBound(Attempts(s.trace), subject, limit, x, U.DEFAULT_WINDOW);
  }

  // ---------- taint ----------

  /** `e` is the successful upstream call a remembered value came from: same
      subject, the upstream's configured label, dated by the start of that
      request, and the value a top-level string of what was delivered. */
  predicate Source(c: Config, e: Event, x: P.Sighting) {
    && e.Called? && e.raw.Some? && e.caller.id == x.subject
    && x.provenance == LabelFor(c, e.upstream) && x.at == e.start
    && var delivered := Deliver(e.decision, e.raw.value);
       delivered.structured.Doc? && P.IsTopLevelString(delivered.structured.tree, x.value)
  }

  lemma OnlyRememberingRemembers(c: Config, p: Proc, phase: Phase)
    requires ValidRunning(c, p, phase) && !phase.Remembering?
    ensures forall e | e in RunningTrail(c, p.now, phase) :: !e.Remembered?
  {
    if phase.Authorized? || phase.Credentialed? || phase.Failing? {
      ReadyElements(c, p.now, phase.dr, phase.upstream, phase.decision);
    }
  }

  lemma RunningRemembersItsCall(c: Config, p: Proc, phase: Phase, b: nat) returns (a: nat)
    requires ValidRunning(c, p, phase) && phase.Remembering?
    requires b < |RunningTrail(c, p.now, phase)| && RunningTrail(c, p.now, phase)[b].Remembered?
    ensures a < b && Source(c, RunningTrail(c, p.now, phase)[a], RunningTrail(c, p.now, phase)[b].sighting)
  {
    var t := RunningTrail(c, p.now, phase);
    ReadyElements(c, p.now, phase.dr, phase.upstream, phase.decision);
    a := |ReadyTrail(c, p.now, phase.dr, phase.upstream, phase.decision)|;
    var x := t[b].sighting;
    assert x == phase.remembered[b - a - 1] && x in phase.remembered;
    assert TopLevelOf(phase, x.value);
  }

  lemma EndingRemembersNothing(c: Config, p: Proc)
    requires Valid(c, p, p.phase) && p.phase.Finished?
    ensures var running := RunningTrail(c, p.now, p.phase.from);
            forall i | |running| <= i < |Trail(c, p.now, p.phase)| :: !Trail(c, p.now, p.phase)[i].Remembered?
  {
  }

  /** The phase whose trail holds a request's events up to its ending. */
  function RunningPhase(phase: Phase): Phase {
    if phase.Finished? then phase.from else phase
  }

  lemma RememberedWhileRunning(c: Config, p: Proc, b: nat)
    requires Valid(c, p, p.phase) && b < |Trail(c, p.now, p.phase)| && Trail(c, p.now, p.phase)[b].Remembered?
    ensures var phase := RunningPhase(p.phase);
            && phase.Remembering? && ValidRunning(c, p, phase)
            && RunningTrail(c, p.now, phase) <= Trail(c, p.now, p.phase)
            && b < |RunningTrail(c, p.now, phase)|
  {
    var phase := RunningPhase(p.phase);
    if p.phase.Finished? {
      EndingRemembersNothing(c, p);
    }
    if !phase.Remembering? {
      OnlyRememberingRemembers(c, p, phase);
    }
  }

  lemma RememberedFollowsCall(c: Config, p: Proc, b: nat) returns (a: nat)
    requires Valid(c, p, p.phase) && b < |Trail(c, p.now, p.phase)| && Trail(c, p.now, p.phase)[b].Remembered?
    ensures a < b && Source(c, Trail(c, p.now, p.phase)[a], Trail(c, p.now, p.phase)[b].sighting)
  {
    RememberedWhileRunning(c, p, b);
    a := RunningRemembersItsCall(c, p, RunningPhase(p.phase), b);
  }

  /** Every remembered value has its source earlier in the trace. */
  lemma RememberedHasSource(c: Config, s: State, i: nat) returns (j: nat)
    requires Reachable(c, s) && i < |s.trace| && s.trace[i].event.Remembered?
    ensures j < i && Source(c, s.trace[j].event, s.trace[i].event.sighting)
  {
    ReachableLocal(c, s);
    PositionInProjection(s.trace, i);
    var pid := s.trace[i].pid;
    var a := RememberedFollowsCall(c, s.procs[pid], |Project(s.trace[..i], pid)|);
    j := OwnEarlierEvent(s.trace, i, a);
  }

  lemma {:induction false} LatestIsInTrace(t: seq<Tagged<Event>>, subject: string, value: string) returns (i: nat)
    requires P.Latest(SightingsIn(t), subject, value).Some?
    ensures var x := P.Latest(SightingsIn(t), subject, value).value;
            && i < |t| && t[i].event == Remembered(x)
            && x.subject == subject && x.value == value != ""
  {
    var front, e := t[..|t| - 1], t[|t| - 1].event;
    i := |t| - 1;
    if e.Remembered? {
      var h := SightingsIn(t);
      assert h[..|h| - 1] == SightingsIn(front);
      if e.sighting.subject != subject || e.sighting.value != value {
        i := LatestIsInTrace(front, subject, value);
      }
    } else {
      assert SightingsIn(t) == SightingsIn(front);
      i := LatestIsInTrace(front, subject, value);
    }
  }

  // ---------- the label an argument gets ----------

  /** The label of an argument given the events so far: for a string some
      sighting of which has not been cleared away, the answer of the full history
      of sightings; for everything else, untrusted. */
  ghost function ExactLabel(t: seq<Tagged<Event>>, subject: string, v: Json, now: Time): Provenance {
    if v.Str? && P.Retained(SightingsIn(t), subject, v.text, P.CACHE_MAX_SIZE, P.CACHE_TTL)
    then P.FullHistoryAnswer(SightingsIn(t), subject, v.text, now, P.CACHE_TTL)
    else P.UNTRUSTED
  }

  lemma TaintIsExact(s: State, subject: Subject, v: Json, now: Time)
    requires SharedIsHistory(s)
    ensures TaintValue(s.prov, subject, v, now) == Value(v, ExactLabel(s.trace, subject.id, v, now))
  {
    if v.Str? {
      var h := SightingsIn(s.trace);
      P.EntriesAreRetained(h, subject.id, v.text, P.CACHE_MAX_SIZE, P.CACHE_TTL);
      P.ExactIffRetained(h, subject.id, v.text, now, P.CACHE_MAX_SIZE, P.CACHE_TTL);
    }
  }

  /** In every run, tainting an argument gives it exactly the label the events so
      far have earned it. */
  lemma TaintStepIsExact(c: Config, labels: seq<Label>, pid: nat, a: string)
    requires pid in Run(c, labels).procs && Enabled(c, Run(c, labels).procs[pid], Taint(pid, a))
    ensures var s, s' := Run(c, labels), Run(c, labels + [Taint(pid, a)]);
            var p := s.procs[pid];
            && pid in s'.procs && s'.procs[pid].phase.Tainting? && a in s'.procs[pid].phase.done
            && s'.procs[pid].phase.done[a] ==
               Value(p.phase.left[a], ExactLabel(s.trace, p.phase.subject.id, p.phase.left[a], p.now))
  {
    var s := Run(c, labels);
    assert (labels + [Taint(pid, a)])[..|labels|] == labels;
    SharedHolds(c, labels);
    TaintIsExact(s, s.procs[pid].phase.subject, s.procs[pid].phase.left[a], s.procs[pid].now);
  }

  /** The label was the exact one at some moment after the request was routed and
      before it was counted. */
  ghost predicate Labelled(t: seq<Tagged<Event>>, pid: nat, subject: string, now: Time, v: Value) {
    exists k: nat :: k <= |t| && LabelledAt(t, k, pid, subject, now, v)
  }

  ghost predicate LabelledAt(t: seq<Tagged<Event>>, k: nat, pid: nat, subject: string, now: Time, v: Value)
    requires k <= |t|
  {
    |Project(t[..k], pid)| == 2 && v.provenance == ExactLabel(t[..k], subject, v.data, now)
  }

  lemma LabelledGrows(t: seq<Tagged<Event>>, u: seq<Tagged<Event>>, pid: nat, subject: string, now: Time, v: Value)
    requires Labelled(t, pid, subject, now, v) && t <= u
    ensures Labelled(u, pid, subject, now, v)
  {
    var k: nat :| k <= |t| && LabelledAt(t, k, pid, subject, now, v);
    assert u[..k] == t[..k];
    assert LabelledAt(u, k, pid, subject, now, v);
  }

  ghost predicate ArgumentsLabelled(t: seq<Tagged<Event>>, pid: nat, subject: string, now: Time,
                                    args: map<string, Value>) {
    forall a | a in args :: Labelled(t, pid, subject, now, args[a])
  }

  /** The labels a request holds before policy is asked. */
  ghost predicate PhaseLabelled(t: seq<Tagged<Event>>, pid: nat, now: Time, phase: Phase) {
    && (phase.Tainting? ==> ArgumentsLabelled(t, pid, phase.subject.id, now, phase.done))
    && (phase.Asking? ==> ArgumentsLabelled(t, pid, phase.dr.subject.id, now, phase.dr.action.arguments))
  }

  ghost predicate AskedLabelled(t: seq<Tagged<Event>>, i: nat)
    requires i < |t|
  {
    t[i].event.Asked? ==>
      var dr := t[i].event.request;
      ArgumentsLabelled(t[..i], t[i].pid, dr.subject.id, dr.time, dr.action.arguments)
  }

  ghost predicate LabelsAreExact(s: State) {
    && (forall pid | pid in s.procs :: PhaseLabelled(s.trace, pid, s.procs[pid].now, s.procs[pid].phase))
    && (forall i | 0 <= i < |s.trace| :: AskedLabelled(s.trace, i))
  }

  lemma ArgumentsGrow(t: seq<Tagged<Event>>, u: seq<Tagged<Event>>, pid: nat, subject: string, now: Time,
                      args: map<string, Value>)
    requires ArgumentsLabelled(t, pid, subject, now, args) && t <= u
    ensures ArgumentsLabelled(u, pid, subject, now, args)
  {
    forall a | a in args ensures Labelled(u, pid, subject, now, args[a]) {
      LabelledGrows(t, u, pid, subject, now, args[a]);
    }
  }

  lemma PhaseLabelledGrows(t: seq<Tagged<Event>>, u: seq<Tagged<Event>>, pid: nat, now: Time, phase: Phase)
    requires PhaseLabelled(t, pid, now, phase) && t <= u
    ensures PhaseLabelled(u, pid, now, phase)
  {
    if phase.Tainting? {
      ArgumentsGrow(t, u, pid, phase.subject.id, now, phase.done);
    }
    if phase.Asking? {
      ArgumentsGrow(t, u, pid, phase.dr.subject.id, now, phase.dr.action.arguments);
    }
  }

  /** A move leaves only exact labels and asks only under exact ones. */
  ghost predicate MoveLabelled(s: State, pid: nat, p: Proc, m: Move) {
    && PhaseLabelled(s.trace, pid, p.now, m.phase)
    && (forall e | e in m.events && e.Asked? ::
          ArgumentsLabelled(s.trace, pid, e.request.subject.id, e.request.time, e.request.action.arguments))
  }

  lemma TaintStepIsLabelled(s: State, pid: nat, p: Proc, a: string)
    requires SharedIsHistory(s) && PhaseLabelled(s.trace, pid, p.now, p.phase) && |Project(s.trace, pid)| == 2
    requires p.phase.Tainting? && a in p.phase.left
    ensures MoveLabelled(s, pid, p, OnTaint(s, p, a))
  {
    var t, subject, v := s.trace, p.phase.subject, p.phase.left[a];
    TaintIsExact(s, subject, v, p.now);
    assert t[..|t|] == t;
    assert LabelledAt(t, |t|, pid, subject.id, p.now, TaintValue(s.prov, subject, v, p.now));
  }

  lemma AskingIsLabelled(c: Config, s: State, pid: nat, p: Proc, l: Label)
    requires Valid(c, p, p.phase) && Enabled(c, p, l) && (l.CountUsage? || l.Decide?)
    requires PhaseLabelled(s.trace, pid, p.now, p.phase)
    ensures MoveLabelled(s, pid, p, Advance(c, s, p, l))
  {
  }

  lemma GatesAreLabelled(c: Config, s: State, pid: nat, p: Proc, l: Label)
    requires Enabled(c, p, l) && (l.Identify? || l.Route?)
    ensures MoveLabelled(s, pid, p, Advance(c, s, p, l))
  {
  }

  lemma DecisionAsksNothing(s: State, pid: nat, p: Proc, ok: bool)
    requires p.phase.Recording?
    ensures MoveLabelled(s, pid, p, OnAppendDecision(s, p, ok))
  {
  }

  lemma DenialAsksNothing(s: State, pid: nat, p: Proc, ok: bool)
    requires p.phase.Denying?
    ensures MoveLabelled(s, pid, p, OnAppendDenial(s, p, ok))
  {
  }

  lemma FailureAsksNothing(s: State, pid: nat, p: Proc, ok: bool, at: Time)
    requires p.phase.Failing?
    ensures MoveLabelled(s, pid, p, OnAppendFailure(s, p, ok, at))
  {
  }

  lemma AppendsAreLabelled(c: Config, s: State, pid: nat, p: Proc, l: Label)
    requires Enabled(c, p, l) && l.Append?
    ensures MoveLabelled(s, pid, p, Advance(c, s, p, l))
  {
    if p.phase.Recording? {
      DecisionAsksNothing(s, pid, p, l.ok);
    } else if p.phase.Denying? {
      DenialAsksNothing(s, pid, p, l.ok);
    } else {
      FailureAsksNothing(s, pid, p, l.ok, l.at);
    }
  }

  lemma EffectsAreLabelled(c: Config, s: State, pid: nat, p: Proc, l: Label)
    requires Enabled(c, p, l) && (l.Exchange? || l.Call? || l.Remember? || l.Finish?)
    ensures MoveLabelled(s, pid, p, Advance(c, s, p, l))
  {
  }

  lemma AdvanceIsLabelled(c: Config, s: State, pid: nat, p: Proc, l: Label)
    requires SharedIsHistory(s) && Valid(c, p, p.phase) && Enabled(c, p, l)
    requires Project(s.trace, pid) == Trail(c, p.now, p.phase)
    requires PhaseLabelled(s.trace, pid, p.now, p.phase)
    ensures MoveLabelled(s, pid, p, Advance(c, s, p, l))
  {
    if l.Taint? {
      TaintStepIsLabelled(s, pid, p, l.argument);
    } else if l.CountUsage? || l.Decide? {
      AskingIsLabelled(c, s, pid, p, l);
    } else if l.Append? {
      AppendsAreLabelled(c, s, pid, p, l);
    } else if l.Identify? || l.Route? {
      GatesAreLabelled(c, s, pid, p, l);
    } else {
      EffectsAreLabelled(c, s, pid, p, l);
    }
  }

  lemma LabelsStep(c: Config, s: State, l: Label)
    requires SharedIsHistory(s) && LocalInvariant(c, s) && LabelsAreExact(s)
    ensures LabelsAreExact(Step(c, s, l))
  {
    if !l.Begin? && !l.Refresh? && l.pid in s.procs && Enabled(c, s.procs[l.pid], l) {
      var m := Advance(c, s, s.procs[l.pid], l);
      AdvanceIsLabelled(c, s, l.pid, s.procs[l.pid], l);
      AdvanceIsAccounted(c, s, s.procs[l.pid], l);
      LabelsMoved(s, l.pid, m);
    }
  }

  lemma LabelsMoved(s: State, pid: nat, m: Move)
    requires LabelsAreExact(s) && pid in s.procs && |m.events| <= 1
    requires MoveLabelled(s, pid, s.procs[pid], m)
    ensures LabelsAreExact(Moved(s, pid, m))
  {
    var after := Moved(s, pid, m);
    var t := after.trace;
    forall who | who in after.procs ensures PhaseLabelled(t, who, after.procs[who].now, after.procs[who].phase) {
      PhaseLabelledGrows(s.trace, t, who, after.procs[who].now, after.procs[who].phase);
    }
    forall i | 0 <= i < |t| ensures AskedLabelled(t, i) {
      if i < |s.trace| {
        assert AskedLabelled(s.trace, i);
        assert t[..i] == s.trace[..i];
      } else {
        assert t[..i] == s.trace;
        assert t[i].event == m.events[0] && m.events[0] in m.events;
      }
    }
  }

  lemma {:induction false} LabelsHold(c: Config, labels: seq<Label>)
    ensures LabelsAreExact(Run(c, labels))
  {
    if labels != [] {
      LabelsHold(c, labels[..|labels| - 1]);
      SharedHolds(c, labels[..|labels| - 1]);
      LocalHolds(c, labels[..|labels| - 1]);
      LabelsStep(c, Run(c, labels[..|labels| - 1]), labels[|labels| - 1]);
    }
  }

  /** In every interleaving, every label policy is shown is the exact one at some
      moment of its own request between routing and counting: no earned label is
      withheld, none that was not earned is given. */
  lemma LabelsShownAreExact(c: Config, s: State, i: nat, a: string) returns (k: nat)
    requires Reachable(c, s) && i < |s.trace| && s.trace[i].event.Asked?
    requires a in s.trace[i].event.request.action.arguments
    ensures var dr := s.trace[i].event.request;
            && k <= i && |Project(s.trace[..k], s.trace[i].pid)| == 2
            && dr.action.arguments[a].provenance ==
               ExactLabel(s.trace[..k], dr.subject.id, dr.action.arguments[a].data, dr.time)
  {
    var labels :| Run(c, labels) == s;
    LabelsHold(c, labels);
    assert AskedLabelled(s.trace, i);
    var dr, t, pid := s.trace[i].event.request, s.trace[..i], s.trace[i].pid;
    assert Labelled(t, pid, dr.subject.id, dr.time, dr.action.arguments[a]);
    k :| k <= |t| && LabelledAt(t, k, pid, dr.subject.id, dr.time, dr.action.arguments[a]);
    assert t[..k] == s.trace[..k];
  }

  /** A trusted label has a live sighting of that value behind it. */
  lemma TrustedIsRemembered(t: seq<Tagged<Event>>, subject: string, v: Json, now: Time) returns (i: nat)
    requires ExactLabel(t, subject, v, now).trusted
    ensures i < |t| && t[i].event.Remembered? && v.Str? && v.text != ""
    ensures var x := t[i].event.sighting;
            && x.subject == subject && x.value == v.text
            && x.provenance == ExactLabel(t, subject, v, now) && now < x.at + P.CACHE_TTL
  {
    i := LatestIsInTrace(t, subject, v.text);
  }

  /** Taint soundness over every interleaving: an argument labelled trusted in a
      decision request is a non-empty string that an earlier upstream call in
      the trace, by the same subject to an upstream configured with that very
      trusted label, delivered as a top-level string of its structured content
      after redaction; and that call's start plus 15 minutes is still ahead of
      this request's start. */
  lemma TaintSoundness(c: Config, s: State, i: nat, a: string) returns (j: nat)
    requires Reachable(c, s) && i < |s.trace| && s.trace[i].event.Asked?
    requires a in s.trace[i].event.request.action.arguments
    requires s.trace[i].event.request.action.arguments[a].provenance.trusted
    ensures var dr := s.trace[i].event.request;
            var v := dr.action.arguments[a];
            && j < i && v.data.Str? && v.data.text != ""
            && s.trace[j].event.Called? && s.trace[j].event.raw.Some?
            && var e := s.trace[j].event;
               && e.caller.id == dr.subject.id
               && e.upstream in c.upstreamProvenance && c.upstreamProvenance[e.upstream] == v.provenance
               && (var delivered := Deliver(e.decision, e.raw.value);
                   delivered.structured.Doc? && P.IsTopLevelString(delivered.structured.tree, v.data.text))
               && dr.time < e.start + 15 * MINUTE
  {
    var dr := s.trace[i].event.request;
    var k := LabelsShownAreExact(c, s, i, a);
    var n := TrustedIsRemembered(s.trace[..k], dr.subject.id, dr.action.arguments[a].data, dr.time);
    j := RememberedHasSource(c, s, n);
  }

  // ---------- what a delivery leaves behind ----------

  /** The label an upstream's values get: the configured one, else untrusted. */
  predicate IsLabelOf(c: Config, upstream: string, x: Provenance) {
    if upstream in c.upstreamProvenance then x == c.upstreamProvenance[upstream] else x == Provenance(upstream, false)
  }

  function ValuesOf(xs: seq<P.Sighting>): (r: seq<string>)
    ensures |r| == |xs| && forall i | 0 <= i < |xs| :: r[i] == xs[i].value
  {
    seq(|xs|, i requires 0 <= i < |xs| => xs[i].value)
  }

  /** Remembered and pending values together are the strings of the document. */
  ghost predicate RemembersAll(phase: Phase) {
    phase.Remembering? ==>
      exists visited ::
        && RemembersInOrder(Deliver(phase.decision, phase.raw), visited)
        && P.Strings(visited) == ValuesOf(phase.remembered) + phase.pending
  }

  ghost predicate ProcRemembers(p: Proc) {
    RemembersAll(RunningPhase(p.phase))
  }

  lemma CallRemembers(c: Config, s: State, p: Proc, l: Label)
    requires Enabled(c, p, l) && l.Call?
    ensures RemembersAll(RunningPhase(Advance(c, s, p, l).phase))
  {
    var phase := Advance(c, s, p, l).phase;
    if phase.Remembering? {
      assert P.Strings(l.visited) == ValuesOf([]) + phase.pending;
    }
  }

  lemma RememberRemembers(c: Config, s: State, p: Proc)
    requires p.phase.Remembering? && p.phase.pending != [] && RemembersAll(p.phase)
    ensures RemembersAll(OnRemember(c, s, p).phase)
  {
    var visited :| && RemembersInOrder(Deliver(p.phase.decision, p.phase.raw), visited)
                   && P.Strings(visited) == ValuesOf(p.phase.remembered) + p.phase.pending;
    var after := OnRemember(c, s, p).phase;
    assert ValuesOf(after.remembered) + after.pending == ValuesOf(p.phase.remembered) + p.phase.pending;
  }

  /** Steps other than those two neither start nor change remembering. */
  lemma OthersRemember(c: Config, s: State, p: Proc, l: Label)
    requires Enabled(c, p, l) && !l.Call? && !l.Remember? && RemembersAll(RunningPhase(p.phase))
    ensures RemembersAll(RunningPhase(Advance(c, s, p, l).phase))
  {
    if l.Finish? {
      assert RunningPhase(Advance(c, s, p, l).phase) == p.phase;
    } else {
      NotRemembering(c, s, p, l);
    }
  }

  lemma AppendRemembersNothing(c: Config, s: State, p: Proc, l: Label)
    requires Enabled(c, p, l) && l.Append?
    ensures !RunningPhase(Advance(c, s, p, l).phase).Remembering?
  {
    if p.phase.Recording? {
      DecisionRemembersNothing(s, p, l.ok);
    } else if p.phase.Denying? {
      assert OnAppendDenial(s, p, l.ok).phase.from == p.phase;
    } else {
      assert OnAppendFailure(s, p, l.ok, l.at).phase.from == p.phase;
    }
  }

  lemma DecisionRemembersNothing(s: State, p: Proc, ok: bool)
    requires p.phase.Recording?
    ensures !RunningPhase(OnAppendDecision(s, p, ok).phase).Remembering?
  {
  }

  lemma GateRemembersNothing(c: Config, s: State, p: Proc, l: Label)
    requires Enabled(c, p, l) && (l.Identify? || l.Route?)
    ensures !RunningPhase(Advance(c, s, p, l).phase).Remembering?
  {
  }

  lemma NotRemembering(c: Config, s: State, p: Proc, l: Label)
    requires Enabled(c, p, l) && !l.Call? && !l.Remember? && !l.Finish?
    ensures !RunningPhase(Advance(c, s, p, l).phase).Remembering?
  {
    if l.Append? {
      AppendRemembersNothing(c, s, p, l);
    } else if l.Identify? || l.Route? {
      GateRemembersNothing(c, s, p, l);
    }
  }

  ghost predicate AllRemember(s: State) {
    forall pid | pid in s.procs :: ProcRemembers(s.procs[pid])
  }

  lemma RemembersStep(c: Config, s: State, l: Label)
    requires AllRemember(s)
    ensures AllRemember(Step(c, s, l))
  {
    if !l.Begin? && !l.Refresh? && l.pid in s.procs && Enabled(c, s.procs[l.pid], l) {
      var p := s.procs[l.pid];
      assert ProcRemembers(p);
      if l.Call? {
        CallRemembers(c, s, p, l);
      } else if l.Remember? {
        RememberRemembers(c, s, p);
      } else {
        OthersRemember(c, s, p, l);
      }
      RemembersMoved(s, l.pid, Advance(c, s, p, l));
    }
  }

  lemma RemembersMoved(s: State, pid: nat, m: Move)
    requires AllRemember(s) && pid in s.procs && RemembersAll(RunningPhase(m.phase))
    ensures AllRemember(Moved(s, pid, m))
  {
    forall who | who in Moved(s, pid, m).procs ensures ProcRemembers(Moved(s, pid, m).procs[who]) {
      assert ProcRemembers(s.procs[who]);
    }
  }

  lemma {:induction false} RemembersHold(c: Config, labels: seq<Label>)
    ensures AllRemember(Run(c, labels))
  {
    if labels != [] {
      RemembersHold(c, labels[..|labels| - 1]);
      RemembersStep(c, Run(c, labels[..|labels| - 1]), labels[|labels| - 1]);
    }
  }

  /** The event by which a delivered value was remembered. */
  predicate RememberedAs(c: Config, p: Proc, e: Event, value: string)
    requires p.phase.Finished? && p.phase.from.Remembering?
  {
    && e.Remembered? && e.sighting.value == value && e.sighting.at == p.now
    && e.sighting.subject == p.phase.from.dr.subject.id && IsLabelOf(c, p.phase.from.upstream, e.sighting.provenance)
  }

  /** When a request is delivered, every top-level string of the delivered
      structured content has been remembered for its subject, under the label
      configured for its upstream, as of its start. */
  lemma DeliveryIsRemembered(c: Config, s: State, pid: nat, value: string) returns (i: nat)
    requires Reachable(c, s) && HasFinished(s, pid) && s.procs[pid].phase.response.Delivered?
    requires var result := s.procs[pid].phase.response.result;
             result.structured.Doc? && P.IsTopLevelString(result.structured.tree, value)
    ensures s.procs[pid].phase.from.Remembering?
    ensures i < |s.trace| && s.trace[i].pid == pid && RememberedAs(c, s.procs[pid], s.trace[i].event, value)
  {
    var labels :| Run(c, labels) == s;
    LocalHolds(c, labels);
    RemembersHold(c, labels);
    var p := s.procs[pid];
    assert ProcRemembers(p);
    var b := TrailRemembers(c, p, value);
    i := ProjectedIsInTrace(s.trace, pid, b);
  }

  lemma RememberedOf(phase: Phase, value: string) returns (n: nat)
    requires phase.Remembering? && phase.pending == [] && RemembersAll(phase)
    requires TopLevelOf(phase, value)
    ensures n < |phase.remembered| && phase.remembered[n].value == value
  {
    var visited :| && RemembersInOrder(Deliver(phase.decision, phase.raw), visited)
                   && P.Strings(visited) == ValuesOf(phase.remembered) + phase.pending;
    P.VisitsFindTopLevelStrings(Deliver(phase.decision, phase.raw).structured.tree, visited, value);
    assert value in ValuesOf(phase.remembered);
    n :| n < |phase.remembered| && ValuesOf(phase.remembered)[n] == value;
  }

  lemma RememberedAt(c: Config, now: Time, phase: Phase, n: nat)
    requires phase.Remembering? && n < |phase.remembered|
    ensures var b := |ReadyTrail(c, now, phase.dr, phase.upstream, phase.decision)| + 1 + n;
            b < |RunningTrail(c, now, phase)| && RunningTrail(c, now, phase)[b] == Remembered(phase.remembered[n])
  {
  }

  lemma TrailRemembers(c: Config, p: Proc, value: string) returns (b: nat)
    requires Valid(c, p, p.phase) && p.phase.Finished? && p.phase.response.Delivered? && ProcRemembers(p)
    requires var result := p.phase.response.result;
             result.structured.Doc? && P.IsTopLevelString(result.structured.tree, value)
    ensures p.phase.from.Remembering?
    ensures b < |Trail(c, p.now, p.phase)| && RememberedAs(c, p, Trail(c, p.now, p.phase)[b], value)
  {
    var from := p.phase.from;
    var n := RememberedOf(from, value);
    assert from.remembered[n] in from.remembered;
    RememberedAt(c, p.now, from, n);
    b := |ReadyTrail(c, p.now, from.dr, from.upstream, from.decision)| + 1 + n;
  }
}
