/** What every interleaving of tool calls keeps: records come before effects,
    labels are earned, counters are history. */
module ToolGatewayRuns {
  import opened Types
  import opened Interleaving
  import opened ToolGateway
  import O = Obligations

  predicate IsAppended(e: Event) { e.Appended? }
  predicate IsAllowed(e: Event) { e.Appended? && e.record.outcome == Allowed }
  predicate IsCalled(e: Event) { e.Called? }
  predicate IsCounted(e: Event) { e.Counted? }

  // ---------- within one request ----------

  /** `e` carries the subject, action and decision of an Allowed record. */
  predicate Authorizes(allowed: Event, subject: Subject, action: Action, d: Decision) {
    && IsAllowed(allowed)
    && allowed.record.subject == subject && allowed.record.action == action && allowed.record.decision == d
  }

  lemma ReadyElements(c: Config, now: Time, dr: DecisionRequest, upstream: string, d: Decision)
    ensures var t := ReadyTrail(c, now, dr, upstream, d);
            && |t| == (if c.brokered then 6 else 5)
            && t[0] == Identified(Some(dr.subject)) && t[1] == Routed(Some(upstream))
            && t[2] == Counted(dr.subject.id, now, dr.usage.callsInWindow) && t[3] == Asked(dr)
            && t[4] == Appended(DecisionRecord(now, dr, d))
            && (c.brokered ==> t[5] == Exchanged(true))
            && AuthorizedTrail(now, dr, upstream, d) == t[..5]
  {
  }

  predicate FollowsAllowed(t: seq<Event>, b: nat)
    requires b < |t|
  {
    && (t[b].Called? ==> 4 < b && Authorizes(t[4], t[b].caller, t[b].action, t[b].decision))
    && (t[b].Appended? && t[b].record.outcome == Failed ==>
          4 < b && Authorizes(t[4], t[b].record.subject, t[b].record.action, t[b].record.decision))
  }

  lemma ServedEffectsFollowAllowed(c: Config, p: Proc, phase: Phase, b: nat)
    requires ValidRunning(c, p, phase) && b < |RunningTrail(c, p.now, phase)| && phase.Remembering?
    ensures FollowsAllowed(RunningTrail(c, p.now, phase), b)
  {
    ReadyElements(c, p.now, phase.dr, phase.upstream, phase.decision);
  }

  lemma FailedEffectsFollowAllowed(c: Config, p: Proc, phase: Phase, b: nat)
    requires ValidRunning(c, p, phase) && b < |RunningTrail(c, p.now, phase)| && phase.Failing?
    ensures FollowsAllowed(RunningTrail(c, p.now, phase), b)
  {
    ReadyElements(c, p.now, phase.dr, phase.upstream, phase.decision);
  }

  lemma RunningEffectsFollowAllowed(c: Config, p: Proc, phase: Phase, b: nat)
    requires ValidRunning(c, p, phase) && b < |RunningTrail(c, p.now, phase)|
    ensures FollowsAllowed(RunningTrail(c, p.now, phase), b)
  {
    if phase.Remembering? {
      ServedEffectsFollowAllowed(c, p, phase, b);
    } else if phase.Failing? {
      FailedEffectsFollowAllowed(c, p, phase, b);
    } else if phase.Authorized? || phase.Credentialed? {
      ReadyElements(c, p.now, phase.dr, phase.upstream, phase.decision);
    }
  }

  lemma EffectsFollowAllowed(c: Config, p: Proc, b: nat)
    requires Valid(c, p, p.phase) && b < |Trail(c, p.now, p.phase)|
    ensures FollowsAllowed(Trail(c, p.now, p.phase), b)
  {
    if p.phase.Finished? {
      var running := RunningTrail(c, p.now, p.phase.from);
      if b < |running| {
        RunningEffectsFollowAllowed(c, p, p.phase.from, b);
      } else {
        assert Trail(c, p.now, p.phase)[b] == p.phase.last[b - |running|];
        if p.phase.from.Failing? {
          ReadyElements(c, p.now, p.phase.from.dr, p.phase.from.upstream, p.phase.from.decision);
        }
      }
    } else {
      RunningEffectsFollowAllowed(c, p, p.phase, b);
    }
  }

  lemma CountDecided(now: Time, dr: DecisionRequest, upstream: string, which: Event -> bool)
    requires which == IsAppended || which == IsAllowed || which == IsCalled
    ensures Count(DecidedTrail(now, dr, upstream), which) == 0
  {
    CountNone(DecidedTrail(now, dr, upstream), which);
  }

  lemma CountReady(c: Config, now: Time, dr: DecisionRequest, upstream: string, d: Decision, which: Event -> bool)
    requires which == IsAppended || which == IsAllowed || which == IsCalled
    ensures Count(DecidedTrail(now, dr, upstream), which) == 0
    ensures Count(AuthorizedTrail(now, dr, upstream, d), which) ==
            if which(Appended(DecisionRecord(now, dr, d))) then 1 else 0
    ensures Count(ReadyTrail(c, now, dr, upstream, d), which) ==
            if which(Appended(DecisionRecord(now, dr, d))) then 1 else 0
  {
    CountDecided(now, dr, upstream, which);
    CountConcat(DecidedTrail(now, dr, upstream), [Appended(DecisionRecord(now, dr, d))], which);
    CountOne(Appended(DecisionRecord(now, dr, d)), which);
    CountConcat(AuthorizedTrail(now, dr, upstream, d), if c.brokered then [Exchanged(true)] else [], which);
    CountNone(if c.brokered then [Exchanged(true)] else [], which);
  }

  lemma CountServed(c: Config, now: Time, phase: Phase, which: Event -> bool)
    requires phase.Remembering? && which(Appended(DecisionRecord(now, phase.dr, phase.decision))) == (which != IsCalled)
    requires which == IsAppended || which == IsAllowed || which == IsCalled
    ensures Count(RunningTrail(c, now, phase), which) == 1
  {
    var dr, d := phase.dr, phase.decision;
    var call := Called(dr.subject, phase.upstream, dr.action, now, d, Some(phase.raw));
    CountReady(c, now, dr, phase.upstream, d, which);
    CountOne(call, which);
    CountConcat(ReadyTrail(c, now, dr, phase.upstream, d), [call], which);
    CountNone(RememberedEvents(phase.remembered), which);
    CountConcat(ReadyTrail(c, now, dr, phase.upstream, d) + [call], RememberedEvents(phase.remembered), which);
  }

  lemma CountFailing(c: Config, now: Time, phase: Phase, which: Event -> bool)
    requires phase.Failing? && which(Appended(DecisionRecord(now, phase.dr, phase.decision))) == (which != IsCalled)
    requires which == IsAppended || which == IsAllowed || which == IsCalled
    ensures Count(RunningTrail(c, now, phase), which) == if which == IsCalled && !phase.reached then 0 else 1
  {
    var dr, d := phase.dr, phase.decision;
    var call := Called(dr.subject, phase.upstream, dr.action, now, d, None);
    CountReady(c, now, dr, phase.upstream, d, which);
    if phase.reached {
      CountOne(call, which);
      CountConcat(ReadyTrail(c, now, dr, phase.upstream, d), [call], which);
    } else {
      CountOne(Exchanged(false), which);
      CountConcat(AuthorizedTrail(now, dr, phase.upstream, d), [Exchanged(false)], which);
    }
  }

  /** How often an event of some kind can occur before a request ends. */
  lemma CountRunning(c: Config, p: Proc, phase: Phase, which: Event -> bool)
    requires ValidRunning(c, p, phase)
    requires which == IsAppended || which == IsAllowed || which == IsCalled
    ensures var n := Count(RunningTrail(c, p.now, phase), which);
            if which == IsCalled
            then n == if phase.Remembering? || (phase.Failing? && phase.reached) then 1 else 0
            else n == if phase.Authorized? || phase.Credentialed? || phase.Remembering? || phase.Failing? then 1 else 0
  {
    if phase.Remembering? {
      CountServed(c, p.now, phase, which);
    } else if phase.Failing? {
      CountFailing(c, p.now, phase, which);
    } else if phase.Recording? || phase.Authorized? || phase.Credentialed? {
      CountReady(c, p.now, phase.dr, phase.upstream, phase.decision, which);
    } else {
      CountEarly(c, p, phase, which);
    }
  }

  /** Nothing is recorded or called before policy is asked. */
  lemma CountEarly(c: Config, p: Proc, phase: Phase, which: Event -> bool)
    requires ValidRunning(c, p, phase)
    requires phase.Fresh? || phase.Denying? || phase.Routing? || phase.Tainting? || phase.Asking?
    requires which == IsAppended || which == IsAllowed || which == IsCalled
    ensures Count(RunningTrail(c, p.now, phase), which) == 0
  {
    CountNone(RunningTrail(c, p.now, phase), which);
  }

  lemma CountTrail(c: Config, p: Proc)
    requires Valid(c, p, p.phase)
    ensures var t := Trail(c, p.now, p.phase);
            && Count(t, IsCalled) <= Count(t, IsAllowed) <= 1
            && Count(t, IsAppended) <= 2
  {
    var running := if p.phase.Finished? then p.phase.from else p.phase;
    CountRunning(c, p, running, IsCalled);
    CountRunning(c, p, running, IsAllowed);
    CountRunning(c, p, running, IsAppended);
    CountEnding(c, p.now, p.phase, IsCalled);
    CountEnding(c, p.now, p.phase, IsAllowed);
    CountEnding(c, p.now, p.phase, IsAppended);
  }

  lemma CountEnding(c: Config, now: Time, phase: Phase, which: Event -> bool)
    ensures phase.Finished? && |phase.last| <= 1 ==>
              Count(Trail(c, now, phase), which) == Count(RunningTrail(c, now, phase.from), which) +
                                                    if |phase.last| == 1 && which(phase.last[0]) then 1 else 0
  {
    if phase.Finished? && |phase.last| <= 1 {
      CountConcat(RunningTrail(c, now, phase.from), phase.last, which);
      if phase.last != [] {
        assert phase.last == [phase.last[0]];
        CountOne(phase.last[0], which);
      }
    }
  }

  // ---------- record before effect ----------

  /** Event a of a request, if it is before event i of the trace. */
  lemma OwnEarlierEvent(t: seq<Tagged<Event>>, i: nat, a: nat) returns (j: nat)
    requires i < |t| && a < |Project(t[..i], t[i].pid)| <= |Project(t, t[i].pid)|
    ensures j < i && t[j] == Tagged(t[i].pid, Project(t, t[i].pid)[a])
  {
    PositionInProjection(t, i);
    j := ProjectedIsInTrace(t[..i], t[i].pid, a);
    assert Project(t, t[i].pid)[..|Project(t[..i], t[i].pid)|][a] == Project(t, t[i].pid)[a];
  }

  /** In every interleaving, with every oracle failing at will: an upstream
      call follows the Allowed record of that same request, successfully
      appended, for the same subject, action and decision. */
  lemma RecordBeforeEffect(c: Config, s: State, i: nat) returns (j: nat)
    requires Reachable(c, s) && i < |s.trace| && s.trace[i].event.Called?
    ensures var call := s.trace[i].event;
            && j < i && s.trace[j].pid == s.trace[i].pid
            && Authorizes(s.trace[j].event, call.caller, call.action, call.decision)
  {
    var pid := s.trace[i].pid;
    ReachableLocal(c, s);
    PositionInProjection(s.trace, i);
    EffectsFollowAllowed(c, s.procs[pid], |Project(s.trace[..i], pid)|);
    j := OwnEarlierEvent(s.trace, i, 4);
  }

  /** Every Failed record follows its own request's Allowed record. */
  lemma FailureFollowsAllowed(c: Config, s: State, i: nat) returns (j: nat)
    requires Reachable(c, s) && i < |s.trace|
    requires s.trace[i].event.Appended? && s.trace[i].event.record.outcome == Failed
    ensures var record := s.trace[i].event.record;
            && j < i && s.trace[j].pid == s.trace[i].pid
            && Authorizes(s.trace[j].event, record.subject, record.action, record.decision)
  {
    var pid := s.trace[i].pid;
    ReachableLocal(c, s);
    PositionInProjection(s.trace, i);
    EffectsFollowAllowed(c, s.procs[pid], |Project(s.trace[..i], pid)|);
    j := OwnEarlierEvent(s.trace, i, 4);
  }

  /** Upstream calls never outnumber Allowed records. */
  lemma CallsNeverOutnumberRecords(c: Config, s: State)
    requires Reachable(c, s)
    ensures Count(Events(s.trace), IsCalled) <= Count(Events(s.trace), IsAllowed)
  {
    ReachableLocal(c, s);
    forall pid: nat ensures Count(Project(s.trace, pid), IsCalled) <= Count(Project(s.trace, pid), IsAllowed) {
      if pid in s.procs {
        CountTrail(c, s.procs[pid]);
      }
    }
    CountsLift(s.trace, IsCalled, IsAllowed);
  }

  /** A request adds at most two records and calls upstream at most once. */
  lemma RecordsPerRequest(c: Config, s: State, pid: nat)
    requires Reachable(c, s)
    ensures Count(Project(s.trace, pid), IsAppended) <= 2
    ensures Count(Project(s.trace, pid), IsCalled) <= 1
  {
    ReachableLocal(c, s);
    if pid in s.procs {
      CountTrail(c, s.procs[pid]);
    } else {
      assert Project(s.trace, pid) == [];
    }
  }

  predicate HasFinished(s: State, pid: nat) {
    pid in s.procs && s.procs[pid].phase.Finished?
  }

  /** A request that ends without a record hit an unknown tool or a failed append. */
  lemma NoRecordOnlyIfUnknownOrLost(c: Config, s: State, pid: nat)
    requires Reachable(c, s) && HasFinished(s, pid)
    requires forall e | e in Project(s.trace, pid) :: !e.Appended?
    ensures s.procs[pid].phase.response == UnknownTool || exists e :: e in Project(s.trace, pid) && e.AppendFailed?
  {
    ReachableLocal(c, s);
    EndingTouchesLedger(c, s.procs[pid]);
  }

  lemma EndingTouchesLedger(c: Config, p: Proc)
    requires Valid(c, p, p.phase) && p.phase.Finished?
    ensures p.phase.response == UnknownTool ||
            exists e :: e in Trail(c, p.now, p.phase) && (e.Appended? || e.AppendFailed?)
  {
    var t, from := Trail(c, p.now, p.phase), p.phase.from;
    if from.Remembering? || from.Failing? {
      ReadyElements(c, p.now, from.dr, from.upstream, from.decision);
      assert t[4] == Appended(DecisionRecord(p.now, from.dr, from.decision));
      assert t[4] in t;
    } else if from.Denying? || from.Recording? {
      assert t[|t| - 1] == p.phase.last[0];
      assert t[|t| - 1] in t;
    }
  }

  /** The upstream call a delivered result came from. */
  predicate DeliveredFrom(t: seq<Event>, b: nat, result: ToolResult) {
    && 4 < b < |t| && t[b].Called? && t[b].raw.Some?
    && result == (if t[b].decision.outcome == AllowWithObligations
                  then O.MaskResult(t[b].raw.value, t[b].decision.obligations) else t[b].raw.value)
    && Authorizes(t[4], t[b].caller, t[b].action, t[b].decision)
  }

  /** An agent only ever receives upstream data that came from its own
      recorded call, after every obligation of the recorded decision. */
  lemma DeliveryIsRecordedAndRedacted(c: Config, s: State, pid: nat) returns (b: nat)
    requires Reachable(c, s) && HasFinished(s, pid) && s.procs[pid].phase.response.Delivered?
    ensures DeliveredFrom(Project(s.trace, pid), b, s.procs[pid].phase.response.result)
  {
    ReachableLocal(c, s);
    b := DeliveredTrail(c, s.procs[pid]);
  }

  lemma DeliveredTrail(c: Config, p: Proc) returns (b: nat)
    requires Valid(c, p, p.phase) && p.phase.Finished? && p.phase.response.Delivered?
    ensures DeliveredFrom(Trail(c, p.now, p.phase), b, p.phase.response.result)
  {
    var from := p.phase.from;
    O.SequentialIsSimultaneous(from.raw, from.decision.obligations);
    ReadyElements(c, p.now, from.dr, from.upstream, from.decision);
    b := |ReadyTrail(c, p.now, from.dr, from.upstream, from.decision)|;
    assert Trail(c, p.now, p.phase)[b] ==
           Called(from.dr.subject, from.upstream, from.dr.action, p.now, from.decision, Some(from.raw));
  }
}
