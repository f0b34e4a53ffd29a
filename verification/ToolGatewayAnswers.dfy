/** What policy is asked, what it answers, and that the answer is what is
    recorded, acted on and told, in every interleaving of tool calls. */
module ToolGatewayAnswers {
  import opened Types
  import opened Interleaving
  import opened ToolGateway
  import opened ToolGatewayRuns
  import U = UsageWindow

  // ---------- the answer is kept ----------

  /** The decision a request goes by, once policy was asked. */
  function DecisionIn(phase: Phase): Option<Decision> {
    match if phase.Finished? then phase.from else phase
    case Recording(_, _, d) => Some(d)
    case Authorized(_, _, d) => Some(d)
    case Credentialed(_, _, d) => Some(d)
    case Remembering(_, _, d, _, _, _) => Some(d)
    case Failing(_, _, d, _) => Some(d)
    case _ => None
  }

  /** `d` is what policy answered, or the denial an error stands for. */
  predicate IsAnswer(d: Decision, answer: Option<Decision>, error: string) {
    match answer
    case Some(said) => d == said
    case None => d == Decision(Deny, [], "pdp.error", error)
  }

  /** Label `n` of the run is the step at which policy answered this request. */
  ghost predicate AnsweredAt(c: Config, labels: seq<Label>, pid: nat, n: nat) {
    && n < |labels| && labels[n].Decide? && labels[n].pid == pid
    && pid in Run(c, labels[..n]).procs && Run(c, labels[..n]).procs[pid].phase.Asking?
  }

  /** Policy answered the request, and every answer it gave it is `d`. */
  ghost predicate AnsweredWith(c: Config, labels: seq<Label>, pid: nat, d: Decision) {
    && (exists n: nat :: AnsweredAt(c, labels, pid, n))
    && (forall n: nat | AnsweredAt(c, labels, pid, n) :: IsAnswer(d, labels[n].answer, labels[n].error))
  }

  ghost predicate NotAnswered(c: Config, labels: seq<Label>, pid: nat) {
    forall n: nat :: !AnsweredAt(c, labels, pid, n)
  }

  ghost predicate AnswerKept(c: Config, labels: seq<Label>, pid: nat, s: State) {
    match if pid in s.procs then DecisionIn(s.procs[pid].phase) else None
    case Some(d) => AnsweredWith(c, labels, pid, d)
    case None => NotAnswered(c, labels, pid)
  }

  lemma AnsweredBefore(c: Config, labels: seq<Label>, l: Label, pid: nat, n: nat)
    requires n < |labels|
    ensures AnsweredAt(c, labels + [l], pid, n) <==> AnsweredAt(c, labels, pid, n)
  {
    assert (labels + [l])[..n] == labels[..n] && (labels + [l])[n] == labels[n];
  }

  lemma AnsweredNow(c: Config, labels: seq<Label>, l: Label, pid: nat)
    ensures AnsweredAt(c, labels + [l], pid, |labels|) <==>
            && l.Decide? && l.pid == pid
            && pid in Run(c, labels).procs && Run(c, labels).procs[pid].phase.Asking?
  {
    assert (labels + [l])[..|labels|] == labels && (labels + [l])[|labels|] == l;
  }

  /** A step that is no answer to the request leaves what is known of it. */
  lemma NoNewAnswer(c: Config, labels: seq<Label>, l: Label, pid: nat, d: Decision)
    requires !AnsweredAt(c, labels + [l], pid, |labels|)
    ensures AnsweredWith(c, labels, pid, d) ==> AnsweredWith(c, labels + [l], pid, d)
    ensures NotAnswered(c, labels, pid) ==> NotAnswered(c, labels + [l], pid)
  {
    forall n: nat | n < |labels| ensures AnsweredAt(c, labels + [l], pid, n) <==> AnsweredAt(c, labels, pid, n) {
      AnsweredBefore(c, labels, l, pid, n);
    }
    if AnsweredWith(c, labels, pid, d) {
      var n: nat :| AnsweredAt(c, labels, pid, n);
      assert AnsweredAt(c, labels + [l], pid, n);
      forall k: nat | AnsweredAt(c, labels + [l], pid, k)
        ensures IsAnswer(d, (labels + [l])[k].answer, (labels + [l])[k].error)
      {
        assert k < |labels| && AnsweredAt(c, labels, pid, k) && (labels + [l])[k] == labels[k];
      }
    }
  }

  /** The first answer is the only one. */
  lemma FirstAnswer(c: Config, labels: seq<Label>, l: Label, pid: nat, d: Decision)
    requires NotAnswered(c, labels, pid) && AnsweredAt(c, labels + [l], pid, |labels|)
    requires l.Decide? && IsAnswer(d, l.answer, l.error)
    ensures AnsweredWith(c, labels + [l], pid, d)
  {
    forall k: nat | AnsweredAt(c, labels + [l], pid, k) ensures k == |labels| {
      if k < |labels| {
        AnsweredBefore(c, labels, l, pid, k);
      }
    }
  }

  /** Only an answer changes the decision a request goes by. */
  lemma DecisionStays(c: Config, s: State, p: Proc, l: Label)
    requires Enabled(c, p, l) && !l.Decide?
    ensures DecisionIn(Advance(c, s, p, l).phase) == DecisionIn(p.phase)
  {
    if l.Append? {
      AppendKeeps(c, s, p, l);
    } else if l.Identify? || l.Route? {
      GateKeeps(c, s, p, l);
    }
  }

  lemma DecidedKeeps(s: State, p: Proc, ok: bool)
    requires p.phase.Recording?
    ensures DecisionIn(OnAppendDecision(s, p, ok).phase) == DecisionIn(p.phase)
  {
  }

  lemma AppendKeeps(c: Config, s: State, p: Proc, l: Label)
    requires Enabled(c, p, l) && l.Append?
    ensures DecisionIn(Advance(c, s, p, l).phase) == DecisionIn(p.phase)
  {
    if p.phase.Recording? {
      DecidedKeeps(s, p, l.ok);
    } else if p.phase.Denying? {
      assert OnAppendDenial(s, p, l.ok).phase.from == p.phase;
    } else {
      assert OnAppendFailure(s, p, l.ok, l.at).phase.from == p.phase;
    }
  }

  lemma GateKeeps(c: Config, s: State, p: Proc, l: Label)
    requires Enabled(c, p, l) && (l.Identify? || l.Route?)
    ensures DecisionIn(Advance(c, s, p, l).phase) == DecisionIn(p.phase)
  {
  }

  /** What a step does to the decision a request goes by. */
  lemma DecisionStep(c: Config, s: State, l: Label, pid: nat)
    ensures var s' := Step(c, s, l);
            var before := if pid in s.procs then DecisionIn(s.procs[pid].phase) else None;
            var after := if pid in s'.procs then DecisionIn(s'.procs[pid].phase) else None;
            if l.Decide? && l.pid == pid && pid in s.procs && s.procs[pid].phase.Asking?
            then before.None? && after.Some? && IsAnswer(after.value, l.answer, l.error)
            else after == before
  {
    if l.Begin? || l.Refresh? {
      BeginKeeps(c, s, l, pid);
    } else if l.pid in s.procs && Enabled(c, s.procs[l.pid], l) {
      if !l.Decide? {
        DecisionStays(c, s, s.procs[l.pid], l);
      }
      MovedKeeps(s, l.pid, Advance(c, s, s.procs[l.pid], l), pid);
    }
  }

  lemma BeginKeeps(c: Config, s: State, l: Label, pid: nat)
    requires l.Begin? || l.Refresh?
    ensures var s' := Step(c, s, l);
            (if pid in s'.procs then DecisionIn(s'.procs[pid].phase) else None) ==
            (if pid in s.procs then DecisionIn(s.procs[pid].phase) else None)
  {
  }

  lemma MovedKeeps(s: State, who: nat, m: Move, pid: nat)
    requires who in s.procs
    ensures var s' := Moved(s, who, m);
            && (pid in s'.procs <==> pid in s.procs)
            && (pid in s.procs ==> s'.procs[pid].phase == if pid == who then m.phase else s.procs[pid].phase)
  {
  }

  lemma {:induction false} AnswersHold(c: Config, labels: seq<Label>, pid: nat)
    ensures AnswerKept(c, labels, pid, Run(c, labels))
  {
    if labels != [] {
      var front, l := labels[..|labels| - 1], labels[|labels| - 1];
      AnswersHold(c, front, pid);
      AnswerStep(c, front, Run(c, front), l, pid);
      assert labels == front + [l];
    }
  }

  lemma AnswerStep(c: Config, labels: seq<Label>, s: State, l: Label, pid: nat)
    requires s == Run(c, labels) && AnswerKept(c, labels, pid, s)
    ensures AnswerKept(c, labels + [l], pid, Step(c, s, l))
  {
    DecisionStep(c, s, l, pid);
    AnsweredNow(c, labels, l, pid);
    var s' := Step(c, s, l);
    var after := if pid in s'.procs then DecisionIn(s'.procs[pid].phase) else None;
    if AnsweredAt(c, labels + [l], pid, |labels|) {
      FirstAnswer(c, labels, l, pid, after.value);
    } else {
      NoNewAnswer(c, labels, l, pid, if after.Some? then after.value else Decision(Deny, [], "", ""));
    }
  }

  // ---------- what events say ----------

  predicate IsRecord(e: Event) {
    e.Appended? || e.AppendFailed?
  }

  function RecordIn(e: Event): ActionRecord
    requires IsRecord(e)
  {
    if e.Appended? then e.record else e.lost
  }

  /** A record of a request policy was asked about: about what was asked, under
      the decision the request goes by, dated by its start unless it is the later
      record of a failure, and denied exactly if that decision does not permit. */
  predicate Reports(r: ActionRecord, now: Time, dr: DecisionRequest, d: Option<Decision>) {
    && d == Some(r.decision) && r.subject == dr.subject && r.action == dr.action
    && (r.outcome == Denied <==> !Permits(r.decision))
    && (r.outcome != Failed ==> r.timestamp == now)
  }

  /** Events 2 and 3 of a request that got as far as policy are its count and
      its question; a record before that is a gate's denial. */
  predicate Says(now: Time, phase: Phase, t: seq<Event>, b: nat)
    requires b < |t|
  {
    && (t[b].Called? ==> DecisionIn(phase) == Some(t[b].decision))
    && (t[b].Asked? ==> b == 3)
    && (IsRecord(t[b]) ==>
          if |t| > 3 && t[3].Asked? then b > 3 && Reports(RecordIn(t[b]), now, t[3].request, DecisionIn(phase))
          else RecordIn(t[b]).outcome == Denied && !Permits(RecordIn(t[b]).decision))
  }

  lemma ServedSays(c: Config, p: Proc, phase: Phase, b: nat)
    requires ValidRunning(c, p, phase) && b < |RunningTrail(c, p.now, phase)|
    requires phase.Remembering? || phase.Failing?
    ensures |RunningTrail(c, p.now, phase)| > 3 && RunningTrail(c, p.now, phase)[3] == Asked(phase.dr)
    ensures Says(p.now, phase, RunningTrail(c, p.now, phase), b)
  {
    ReadyElements(c, p.now, phase.dr, phase.upstream, phase.decision);
  }

  lemma RunningSays(c: Config, p: Proc, phase: Phase, b: nat)
    requires ValidRunning(c, p, phase) && b < |RunningTrail(c, p.now, phase)|
    ensures Says(p.now, phase, RunningTrail(c, p.now, phase), b)
  {
    if phase.Remembering? || phase.Failing? {
      ServedSays(c, p, phase, b);
    } else if phase.Recording? || phase.Authorized? || phase.Credentialed? {
      ReadyElements(c, p.now, phase.dr, phase.upstream, phase.decision);
    }
  }

  /** The ending of a denied request. */
  lemma DeniedSays(c: Config, p: Proc, b: nat)
    requires Valid(c, p, p.phase) && p.phase.Finished? && (p.phase.from.Denying? || p.phase.from.Routing?)
    requires |RunningTrail(c, p.now, p.phase.from)| <= b < |Trail(c, p.now, p.phase)|
    ensures Says(p.now, p.phase, Trail(c, p.now, p.phase), b)
  {
  }

  /** The ending of a request policy was asked about. */
  lemma RecordingEndSays(c: Config, p: Proc, b: nat)
    requires Valid(c, p, p.phase) && p.phase.Finished? && p.phase.from.Recording?
    requires |RunningTrail(c, p.now, p.phase.from)| <= b < |Trail(c, p.now, p.phase)|
    ensures Says(p.now, p.phase, Trail(c, p.now, p.phase), b)
  {
    ReadyElements(c, p.now, p.phase.from.dr, p.phase.from.upstream, p.phase.from.decision);
  }

  lemma FailingEndSays(c: Config, p: Proc, b: nat)
    requires Valid(c, p, p.phase) && p.phase.Finished? && p.phase.from.Failing?
    requires |RunningTrail(c, p.now, p.phase.from)| <= b < |Trail(c, p.now, p.phase)|
    ensures Says(p.now, p.phase, Trail(c, p.now, p.phase), b)
  {
    var from := p.phase.from;
    ServedSays(c, p, from, 0);
    var running, t := RunningTrail(c, p.now, from), Trail(c, p.now, p.phase);
    assert t[3] == running[3] && t[b] == p.phase.last[0];
  }

  /** An ending does not change what the events before it say. */
  lemma EarlierSays(now: Time, phase: Phase, running: seq<Event>, last: seq<Event>, b: nat)
    requires phase.Finished? && b < |running| && Says(now, phase.from, running, b)
    requires |running| > 3 || forall e | e in running :: !IsRecord(e)
    requires !phase.from.Finished?
    ensures Says(now, phase, running + last, b)
  {
    assert DecisionIn(phase) == DecisionIn(phase.from);
    assert running[b] in running;
  }

  lemma ShortTrailHasNoRecord(c: Config, p: Proc, phase: Phase)
    requires ValidRunning(c, p, phase) && |RunningTrail(c, p.now, phase)| <= 3
    ensures forall e | e in RunningTrail(c, p.now, phase) :: !IsRecord(e)
  {
    if phase.Authorized? || phase.Credentialed? || phase.Remembering? || phase.Failing? {
      ReadyElements(c, p.now, phase.dr, phase.upstream, phase.decision);
    }
  }

  lemma TrailSays(c: Config, p: Proc, b: nat)
    requires Valid(c, p, p.phase) && b < |Trail(c, p.now, p.phase)|
    ensures Says(p.now, p.phase, Trail(c, p.now, p.phase), b)
  {
    if !p.phase.Finished? {
      RunningSays(c, p, p.phase, b);
    } else if b < |RunningTrail(c, p.now, p.phase.from)| {
      var running := RunningTrail(c, p.now, p.phase.from);
      RunningSays(c, p, p.phase.from, b);
      if |running| <= 3 {
        ShortTrailHasNoRecord(c, p, p.phase.from);
      }
      EarlierSays(p.now, p.phase, running, p.phase.last, b);
    } else if p.phase.from.Denying? || p.phase.from.Routing? {
      DeniedSays(c, p, b);
    } else if p.phase.from.Recording? {
      RecordingEndSays(c, p, b);
    } else {
      FailingEndSays(c, p, b);
    }
  }

  // ---------- over every run ----------

  /** The request put its question to policy in this trace. */
  predicate HasAsked(t: seq<Tagged<Event>>, pid: nat, dr: DecisionRequest) {
    exists j :: 0 <= j < |t| && t[j] == Tagged(pid, Asked(dr))
  }

  /** What event i says, in terms of its own request. */
  lemma EventSays(c: Config, s: State, i: nat)
    requires LocalInvariant(c, s) && i < |s.trace|
    ensures var pid := s.trace[i].pid;
            var b := |Project(s.trace[..i], pid)|;
            && pid in s.procs && b < |Project(s.trace, pid)| && Project(s.trace, pid)[b] == s.trace[i].event
            && Says(s.procs[pid].now, s.procs[pid].phase, Project(s.trace, pid), b)
  {
    PositionInProjection(s.trace, i);
    TrailSays(c, s.procs[s.trace[i].pid], |Project(s.trace[..i], s.trace[i].pid)|);
  }

  /** The question of a request is its event 3. */
  lemma QuestionIsThird(c: Config, s: State, n: nat, pid: nat, dr: DecisionRequest)
    requires LocalInvariant(c, s) && n <= |s.trace| && HasAsked(s.trace[..n], pid, dr)
    ensures |Project(s.trace, pid)| > 3 && Project(s.trace, pid)[3] == Asked(dr)
  {
    var j :| 0 <= j < n && s.trace[..n][j] == Tagged(pid, Asked(dr));
    EventSays(c, s, j);
  }

  /** Nothing but policy's answer is acted on: in every run, the decision under
      which an upstream is called, and the decision of every record of a request
      that had asked policy, is what policy answered that request; where policy
      failed, it is a denial that names the error. */
  lemma DecisionsAreAnswers(c: Config, labels: seq<Label>, i: nat)
    requires i < |Run(c, labels).trace|
    ensures var t := Run(c, labels).trace;
            && (t[i].event.Called? ==> AnsweredWith(c, labels, t[i].pid, t[i].event.decision))
            && (forall dr | IsRecord(t[i].event) && HasAsked(t[..i], t[i].pid, dr) ::
                  AnsweredWith(c, labels, t[i].pid, RecordIn(t[i].event).decision))
  {
    var s := Run(c, labels);
    LocalHolds(c, labels);
    AnswersHold(c, labels, s.trace[i].pid);
    EventSays(c, s, i);
    forall dr | IsRecord(s.trace[i].event) && HasAsked(s.trace[..i], s.trace[i].pid, dr)
      ensures AnsweredWith(c, labels, s.trace[i].pid, RecordIn(s.trace[i].event).decision)
    {
      QuestionIsThird(c, s, i, s.trace[i].pid, dr);
    }
  }

  /** Every record tells what happened: after a question to policy it is about
      that very question; before one it is a gate's denial; and it is Denied
      exactly if its decision does not permit. */
  lemma RecordsSayWhatHappened(c: Config, s: State, i: nat)
    requires Reachable(c, s) && i < |s.trace| && IsRecord(s.trace[i].event)
    ensures var r, pid := RecordIn(s.trace[i].event), s.trace[i].pid;
            && (r.outcome == Denied <==> !Permits(r.decision))
            && pid in s.procs
            && forall dr | HasAsked(s.trace[..i], pid, dr) ::
                 Reports(r, s.procs[pid].now, dr, DecisionIn(s.procs[pid].phase))
  {
    ReachableLocal(c, s);
    EventSays(c, s, i);
    var pid := s.trace[i].pid;
    forall dr | HasAsked(s.trace[..i], pid, dr)
      ensures Reports(RecordIn(s.trace[i].event), s.procs[pid].now, dr, DecisionIn(s.procs[pid].phase))
    {
      QuestionIsThird(c, s, i, pid, dr);
    }
  }

  /** What policy is asked about a request. */
  predicate AsksAbout(c: Config, p: Proc, dr: DecisionRequest) {
    && AgentDeclared(c, dr.subject) && p.request.tool in c.tools
    && Describes(dr.action, p.request.tool, c.tools[p.request.tool])
    && dr.action.arguments.Keys == p.request.arguments.Keys
    && (forall a | a in dr.action.arguments :: dr.action.arguments[a].data == p.request.arguments[a])
    && dr.requestId == p.request.requestId && dr.time == p.now && dr.usage.windowSeconds == 60
  }

  /** Every question names the identified subject, the tool with its registry
      metadata, exactly the request's arguments, its id, its start and a window
      of sixty seconds. */
  lemma QuestionsAreComplete(c: Config, s: State, i: nat)
    requires Reachable(c, s) && i < |s.trace| && s.trace[i].event.Asked?
    ensures var pid, dr := s.trace[i].pid, s.trace[i].event.request;
            && pid in s.procs && AsksAbout(c, s.procs[pid], dr)
            && Project(s.trace, pid) != [] && Project(s.trace, pid)[0] == Identified(Some(dr.subject))
  {
    ReachableLocal(c, s);
    EventSays(c, s, i);
    TrailAsks(c, s.procs[s.trace[i].pid]);
  }

  lemma TrailAsks(c: Config, p: Proc)
    requires Valid(c, p, p.phase) && |Trail(c, p.now, p.phase)| > 3 && Trail(c, p.now, p.phase)[3].Asked?
    ensures var t := Trail(c, p.now, p.phase);
            AsksAbout(c, p, t[3].request) && t[0] == Identified(Some(t[3].request.subject))
  {
    var phase := if p.phase.Finished? then p.phase.from else p.phase;
    AskedPhase(c, p, phase);
    assert U.Seconds(U.DEFAULT_WINDOW) == 60;
    assert RunningTrail(c, p.now, phase) <= Trail(c, p.now, p.phase);
  }

  lemma AskedPhase(c: Config, p: Proc, phase: Phase)
    requires ValidRunning(c, p, phase)
    ensures var t := RunningTrail(c, p.now, phase);
            if DecisionIn(phase).Some?
            then |t| > 3 && t[0] == Identified(Some(phase.dr.subject)) && t[3] == Asked(phase.dr)
                 && Admitted(c, p, phase.dr, phase.upstream)
            else |t| <= 3 && forall e | e in t :: !e.Asked?
  {
    if DecisionIn(phase).Some? {
      ReadyElements(c, p.now, phase.dr, phase.upstream, phase.decision);
    }
  }

  /** Every upstream call is made for the identified subject, to the upstream the
      tool was routed to, and that upstream is the one the tool is pinned to. */
  lemma CallsGoWhereRouted(c: Config, s: State, i: nat)
    requires Reachable(c, s) && i < |s.trace| && s.trace[i].event.Called?
    ensures var pid, e := s.trace[i].pid, s.trace[i].event;
            && pid in s.procs && s.procs[pid].request.tool in c.tools
            && |Project(s.trace, pid)| > 1
            && Project(s.trace, pid)[0] == Identified(Some(e.caller))
            && Project(s.trace, pid)[1] == Routed(Some(e.upstream))
            && (c.tools[s.procs[pid].request.tool].upstream == "" ||
                c.tools[s.procs[pid].request.tool].upstream == e.upstream)
            && e.start == s.procs[pid].now
  {
    ReachableLocal(c, s);
    PositionInProjection(s.trace, i);
    TrailCalls(c, s.procs[s.trace[i].pid], |Project(s.trace[..i], s.trace[i].pid)|);
  }

  lemma TrailCalls(c: Config, p: Proc, b: nat)
    requires Valid(c, p, p.phase) && b < |Trail(c, p.now, p.phase)| && Trail(c, p.now, p.phase)[b].Called?
    ensures var t := Trail(c, p.now, p.phase);
            && p.request.tool in c.tools && PinHolds(c.tools[p.request.tool], t[b].upstream)
            && |t| > 1 && t[0] == Identified(Some(t[b].caller)) && t[1] == Routed(Some(t[b].upstream))
            && t[b].start == p.now
  {
    var phase := if p.phase.Finished? then p.phase.from else p.phase;
    var running := RunningTrail(c, p.now, phase);
    assert running <= Trail(c, p.now, p.phase);
    EndingCallsNothing(c, p);
    RunningCalls(c, p, phase, b);
  }

  lemma EndingCallsNothing(c: Config, p: Proc)
    requires Valid(c, p, p.phase)
    ensures p.phase.Finished? ==> forall e | e in p.phase.last :: !e.Called?
  {
  }

  lemma RunningCalls(c: Config, p: Proc, phase: Phase, b: nat)
    requires ValidRunning(c, p, phase) && b < |RunningTrail(c, p.now, phase)| &&
             RunningTrail(c, p.now, phase)[b].Called?
    ensures var t := RunningTrail(c, p.now, phase);
            && p.request.tool in c.tools && PinHolds(c.tools[p.request.tool], t[b].upstream)
            && |t| > 1 && t[0] == Identified(Some(t[b].caller)) && t[1] == Routed(Some(t[b].upstream))
            && t[b].start == p.now
  {
    if DecisionIn(phase).Some? {
      ReadyElements(c, p.now, phase.dr, phase.upstream, phase.decision);
    }
  }

  /** How a request that ended is answered. */
  predicate Tells(p: Proc) {
    p.phase.Finished? ==>
      match p.phase.from
      case Denying(gate, record, _, _) =>
        p.phase.response == Refused(if gate == Identity then "credential not recognized" else record.decision.reason)
      case Routing(_) => p.phase.response == UnknownTool
      case Recording(_, _, d) =>
        && p.phase.response.Refused?
        && (WasRecorded(p.phase.last) ==>
              !Permits(d) && p.phase.response == Refused(if d.reason == "" then "denied by policy" else d.reason))
      case Failing(_, _, _, _) => p.phase.response == CallFailed
      case _ => p.phase.response.Delivered?
  }

  predicate WasRecorded(last: seq<Event>) {
    |last| == 1 && last[0].Appended?
  }

  /** A caller whose credential is unknown is told nothing else; a gate and policy
      say why they refuse. */
  lemma RefusalsSayWhy(c: Config, s: State, pid: nat)
    requires Reachable(c, s) && pid in s.procs
    ensures Tells(s.procs[pid])
  {
    ReachableLocal(c, s);
    EndTells(c, s.procs[pid]);
  }

  lemma EndTells(c: Config, p: Proc)
    requires Valid(c, p, p.phase)
    ensures Tells(p)
  {
  }
}
