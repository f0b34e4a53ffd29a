/** Whole runs of the Tool Gateway under one policy, compared with what
    ListTools shows (internal/gateway/gateway.go). */
module ListingRuns {
  import opened Types
  import opened ToolGateway
  import opened Listing

  /** A step of the request is answered by the policy where it asks, and by the
      listing's index where it is routed. Other requests may be answered by
      anything, and refreshes may come at any time. */
  ghost predicate StepFollows(decide: Decider, index: map<string, string>, pid: nat, s: State, l: Label) {
    && (l.Decide? && l.pid == pid && pid in s.procs && s.procs[pid].phase.Asking? ==>
          l.answer == decide(s.procs[pid].phase.dr))
    && (l.Route? && l.pid == pid ==> s.routes == index)
  }

  ghost predicate Follows(c: Config, decide: Decider, index: map<string, string>, pid: nat, labels: seq<Label>) {
    labels != [] ==>
      var front := labels[..|labels| - 1];
      Follows(c, decide, index, pid, front) && StepFollows(decide, index, pid, Run(c, front), labels[|labels| - 1])
  }

  function Underlying(phase: Phase): Phase {
    if phase.Finished? then phase.from else phase
  }

  /** What a request's phase says about the index and the policy. */
  predicate PhaseAgrees(c: Config, decide: Decider, index: map<string, string>, p: Proc) {
    var phase, tool := Underlying(p.phase), p.request.tool;
    match phase
    case Routing(_) => p.phase.Finished? ==> tool !in index
    case Denying(gate, _, _, _) =>
      && (gate == Declaration ==> tool !in c.tools)
      && (gate == Pin ==> tool in index && tool in c.tools && c.tools[tool].upstream != index[tool])
    case Tainting(_, _, _, _, _) => tool in index
    case Asking(_, _) => tool in index
    case Recording(dr, _, d) => tool in index && Permits(d) == Passes(decide, dr)
    case Authorized(dr, _, d) => tool in index && Permits(d) == Passes(decide, dr)
    case Credentialed(dr, _, d) => tool in index && Permits(d) == Passes(decide, dr)
    case Remembering(dr, _, d, _, _, _) => tool in index && Permits(d) == Passes(decide, dr)
    case Failing(dr, _, d, _) => tool in index && Permits(d) == Passes(decide, dr)
    case _ => true
  }

  ghost predicate Agrees(c: Config, decide: Decider, index: map<string, string>, pid: nat, s: State) {
    pid in s.procs ==> PhaseAgrees(c, decide, index, s.procs[pid])
  }

  lemma RouteAgrees(c: Config, decide: Decider, s: State, p: Proc)
    requires p.phase.Routing?
    ensures PhaseAgrees(c, decide, s.routes, p.(phase := OnRoute(c, s, p, p.phase.subject).phase))
  {
  }

  lemma IdentifyAgrees(c: Config, decide: Decider, index: map<string, string>, s: State, p: Proc,
                       who: Option<Subject>, error: string)
    ensures PhaseAgrees(c, decide, index, p.(phase := OnIdentify(c, s, p, who, error).phase))
  {
  }

  lemma GateAgrees(c: Config, decide: Decider, index: map<string, string>, s: State, p: Proc, l: Label)
    requires Enabled(c, p, l) && (l.Identify? || l.Route?) && (l.Route? ==> s.routes == index)
    ensures PhaseAgrees(c, decide, index, p.(phase := Advance(c, s, p, l).phase))
  {
    if l.Route? {
      RouteAgrees(c, decide, s, p);
    } else {
      IdentifyAgrees(c, decide, index, s, p, l.who, l.error);
    }
  }

  lemma AskAgrees(c: Config, decide: Decider, index: map<string, string>, s: State, p: Proc, l: Label)
    requires Enabled(c, p, l) && (l.Taint? || l.CountUsage? || l.Decide?) && PhaseAgrees(c, decide, index, p)
    requires l.Decide? ==> l.answer == decide(p.phase.dr)
    ensures PhaseAgrees(c, decide, index, p.(phase := Advance(c, s, p, l).phase))
  {
  }

  lemma DenialAgrees(c: Config, decide: Decider, index: map<string, string>, s: State, p: Proc, ok: bool)
    requires p.phase.Denying? && PhaseAgrees(c, decide, index, p)
    ensures PhaseAgrees(c, decide, index, p.(phase := OnAppendDenial(s, p, ok).phase))
  {
  }

  lemma DecisionAgrees(c: Config, decide: Decider, index: map<string, string>, s: State, p: Proc, ok: bool)
    requires p.phase.Recording? && PhaseAgrees(c, decide, index, p)
    ensures PhaseAgrees(c, decide, index, p.(phase := OnAppendDecision(s, p, ok).phase))
  {
  }

  lemma FailureAgrees(c: Config, decide: Decider, index: map<string, string>, s: State, p: Proc, ok: bool, at: Time)
    requires p.phase.Failing? && PhaseAgrees(c, decide, index, p)
    ensures PhaseAgrees(c, decide, index, p.(phase := OnAppendFailure(s, p, ok, at).phase))
  {
  }

  lemma AppendAgrees(c: Config, decide: Decider, index: map<string, string>, s: State, p: Proc, l: Label)
    requires Enabled(c, p, l) && l.Append? && PhaseAgrees(c, decide, index, p)
    ensures PhaseAgrees(c, decide, index, p.(phase := Advance(c, s, p, l).phase))
  {
    if p.phase.Denying? {
      DenialAgrees(c, decide, index, s, p, l.ok);
    } else if p.phase.Recording? {
      DecisionAgrees(c, decide, index, s, p, l.ok);
    } else {
      FailureAgrees(c, decide, index, s, p, l.ok, l.at);
    }
  }

  lemma EffectAgrees(c: Config, decide: Decider, index: map<string, string>, s: State, p: Proc, l: Label)
    requires Enabled(c, p, l) && (l.Exchange? || l.Call? || l.Remember? || l.Finish?) &&
             PhaseAgrees(c, decide, index, p)
    ensures PhaseAgrees(c, decide, index, p.(phase := Advance(c, s, p, l).phase))
  {
  }

  lemma AdvanceAgrees(c: Config, decide: Decider, index: map<string, string>, s: State, p: Proc, l: Label)
    requires Enabled(c, p, l) && PhaseAgrees(c, decide, index, p)
    requires l.Decide? ==> l.answer == decide(p.phase.dr)
    requires l.Route? ==> s.routes == index
    ensures PhaseAgrees(c, decide, index, p.(phase := Advance(c, s, p, l).phase))
  {
    if l.Identify? || l.Route? {
      GateAgrees(c, decide, index, s, p, l);
    } else if l.Taint? || l.CountUsage? || l.Decide? {
      AskAgrees(c, decide, index, s, p, l);
    } else if l.Append? {
      AppendAgrees(c, decide, index, s, p, l);
    } else {
      EffectAgrees(c, decide, index, s, p, l);
    }
  }

  lemma AgreesStep(c: Config, decide: Decider, index: map<string, string>, pid: nat, s: State, l: Label)
    requires Agrees(c, decide, index, pid, s) && StepFollows(decide, index, pid, s, l)
    ensures Agrees(c, decide, index, pid, Step(c, s, l))
  {
    if l.Begin? || l.Refresh? {
      AgreesBegins(c, decide, index, pid, s, l);
    } else if l.pid in s.procs && Enabled(c, s.procs[l.pid], l) {
      if l.pid == pid {
        AdvanceAgrees(c, decide, index, s, s.procs[pid], l);
      }
      AgreesMoved(c, decide, index, pid, s, l.pid, Advance(c, s, s.procs[l.pid], l));
    }
  }

  lemma AgreesMoved(c: Config, decide: Decider, index: map<string, string>, pid: nat, s: State, who: nat, m: Move)
    requires Agrees(c, decide, index, pid, s) && who in s.procs
    requires who == pid ==> PhaseAgrees(c, decide, index, s.procs[pid].(phase := m.phase))
    ensures Agrees(c, decide, index, pid, Moved(s, who, m))
  {
  }

  /** A new request has nothing to agree with yet. */
  lemma AgreesBegins(c: Config, decide: Decider, index: map<string, string>, pid: nat, s: State, l: Label)
    requires Agrees(c, decide, index, pid, s) && (l.Begin? || l.Refresh?)
    ensures Agrees(c, decide, index, pid, Step(c, s, l))
  {
  }

  lemma {:induction false} RunAgrees(c: Config, decide: Decider, index: map<string, string>, pid: nat,
                                     labels: seq<Label>)
    requires Follows(c, decide, index, pid, labels)
    ensures Agrees(c, decide, index, pid, Run(c, labels))
  {
    if labels != [] {
      var front := labels[..|labels| - 1];
      RunAgrees(c, decide, index, pid, front);
      AgreesStep(c, decide, index, pid, Run(c, front), labels[|labels| - 1]);
    }
  }

  /** Whom a request acts for, once that is known to be a declared agent. */
  function KnownSubject(phase: Phase): Option<Subject> {
    match Underlying(phase)
    case Routing(subject) => Some(subject)
    case Denying(gate, _, who, _) => if gate == Declaration || gate == Pin then who else None
    case Tainting(subject, _, _, _, _) => Some(subject)
    case Asking(dr, _) => Some(dr.subject)
    case Recording(dr, _, _) => Some(dr.subject)
    case Authorized(dr, _, _) => Some(dr.subject)
    case Credentialed(dr, _, _) => Some(dr.subject)
    case Remembering(dr, _, _, _, _, _) => Some(dr.subject)
    case Failing(dr, _, _, _) => Some(dr.subject)
    case _ => None
  }

  /** Policy let the request through, whether or not a later step failed. */
  predicate LetThrough(phase: Phase) {
    match Underlying(phase)
    case Recording(_, _, d) => Permits(d)
    case Authorized(_, _, _) => true
    case Credentialed(_, _, _) => true
    case Remembering(_, _, _, _, _, _) => true
    case Failing(_, _, _, _) => true
    case _ => false
  }

  predicate StoppedAtPin(phase: Phase) {
    phase.Finished? && phase.from.Denying? && phase.from.gate == Pin
  }

  lemma DecidedAgrees(c: Config, decide: Decider, listed: seq<Listed>, index: map<string, string>, p: Proc,
                      dr: DecisionRequest, upstream: string, v: Viewer)
    requires Indexes(index, listed) && LooksAtToolOnly(decide)
    requires Admitted(c, p, dr, upstream) && p.request.tool in index && dr.subject == v.subject
    ensures Passes(decide, dr) <==> Shows(VisibleTools(c, v, decide, ToolsOf(listed)), p.request.tool)
  {
    var name := p.request.tool;
    ShownIff(c, v, decide, listed, index, name);
    assert SameTool(ListRequest(v, name, c.tools[name]), dr);
  }

  lemma FinishedAgrees(c: Config, decide: Decider, listed: seq<Listed>, index: map<string, string>, p: Proc, v: Viewer)
    requires Indexes(index, listed) && LooksAtToolOnly(decide)
    requires Valid(c, p, p.phase) && PhaseAgrees(c, decide, index, p) && p.phase.Finished?
    requires KnownSubject(p.phase) == Some(v.subject) && !StoppedAtPin(p.phase)
    ensures LetThrough(p.phase) <==> Shows(VisibleTools(c, v, decide, ToolsOf(listed)), p.request.tool)
  {
    var from := p.phase.from;
    if from.Recording? || from.Remembering? || from.Failing? {
      DecidedAgrees(c, decide, listed, index, p, from.dr, from.upstream, v);
    } else {
      ShownIff(c, v, decide, listed, index, p.request.tool);
    }
  }

  /** Listing and calling agree over whole runs: a finished request of a declared
      agent that was routed by the listing's index, was answered by a policy that
      looks only at the tool, and was not stopped by the upstream pin got past
      policy exactly when its tool is among those shown to that agent, at whatever
      time and usage the list is asked for, and whatever other requests did. */
  lemma CallsMatchListing(c: Config, decide: Decider, listed: seq<Listed>, index: map<string, string>,
                          labels: seq<Label>, pid: nat, v: Viewer)
    requires Indexes(index, listed) && LooksAtToolOnly(decide) && Follows(c, decide, index, pid, labels)
    requires pid in Run(c, labels).procs
    requires var phase := Run(c, labels).procs[pid].phase;
             phase.Finished? && KnownSubject(phase) == Some(v.subject) && !StoppedAtPin(phase)
    ensures var p := Run(c, labels).procs[pid];
            LetThrough(p.phase) <==> Shows(VisibleTools(c, v, decide, ToolsOf(listed)), p.request.tool)
  {
    var p := Run(c, labels).procs[pid];
    LocalHolds(c, labels);
    RunAgrees(c, decide, index, pid, labels);
    FinishedAgrees(c, decide, listed, index, p, v);
  }
}
