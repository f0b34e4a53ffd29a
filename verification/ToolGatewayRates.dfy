/** What a limit on the reported count enforces over runs of the Tool Gateway in
    which requests are counted in another order than they read the clock. */
module ToolGatewayRates {
  import opened Types
  import opened Interleaving
  import opened ToolGateway
  import opened ToolGatewayTaint
  import U = UsageWindow

  /** Requests start in the order of their clock readings. */
  ghost predicate ClockOrdered(labels: seq<Label>) {
    forall i, j | 0 <= i < j < |labels| && labels[i].Begin? && labels[j].Begin? :: labels[i].now <= labels[j].now
  }

  ghost predicate BoundedInRuns(c: Config, subject: string, limit: nat, bound: nat) {
    forall labels: seq<Label>, x: Time | ClockOrdered(labels) ::
      Count(Events(Run(c, labels).trace), WithinLimit(subject, limit, x)) <= bound
  }

  /** A request without arguments that some agent may make of some tool. */
  predicate Callable(c: Config, subject: Subject, request: Request, index: map<string, string>) {
    && AgentDeclared(c, subject) && request.arguments == map[]
    && request.tool in index && request.tool in c.tools
    && PinHolds(c.tools[request.tool], index[request.tool])
  }

  // ---------- a request is counted ----------

  lemma IdentifyStep(c: Config, s: State, pid: nat, subject: Subject, p: Proc)
    requires pid in s.procs && s.procs[pid] == p && p.phase == Fresh && AgentDeclared(c, subject)
    ensures var s' := Step(c, s, Identify(pid, Some(subject), ""));
            && s'.procs == s.procs[pid := p.(phase := Routing(subject))] && s'.routes == s.routes
            && Attempts(s'.trace) == Attempts(s.trace)
  {
    HistoryGrows(s.trace, Tagged(pid, Identified(Some(subject))));
    assert s.trace + Tag(pid, [Identified(Some(subject))]) == s.trace + [Tagged(pid, Identified(Some(subject)))];
  }

  lemma RouteStep(c: Config, s: State, pid: nat, subject: Subject, p: Proc)
    requires pid in s.procs && s.procs[pid] == p && p.phase == Routing(subject) &&
             Callable(c, subject, p.request, s.routes)
    ensures var s' := Step(c, s, Route(pid));
            var tool := p.request.tool;
            && s'.procs == s.procs[pid := p.(phase := Tainting(subject, s.routes[tool], c.tools[tool], map[], map[]))]
            && s'.routes == s.routes && Attempts(s'.trace) == Attempts(s.trace)
  {
    var e := Routed(RouteOf(s.routes, p.request.tool));
    HistoryGrows(s.trace, Tagged(pid, e));
    assert s.trace + Tag(pid, [e]) == s.trace + [Tagged(pid, e)];
  }

  lemma CountStep(c: Config, s: State, pid: nat, subject: Subject, p: Proc)
    requires pid in s.procs && s.procs[pid] == p && p.phase.Tainting? && p.phase.left == map[] &&
             p.phase.subject == subject
    ensures var s' := Step(c, s, CountUsage(pid));
            && s'.procs.Keys == s.procs.Keys && s'.routes == s.routes
            && (forall other | other in s.procs && other != pid :: s'.procs[other] == s.procs[other])
            && Attempts(s'.trace) == Attempts(s.trace) + [U.Attempt(subject.id, p.now)]
  {
    var e := Counted(subject.id, p.now, U.Count(s.usage, subject.id, p.now, U.DEFAULT_WINDOW) + 1);
    HistoryGrows(s.trace, Tagged(pid, e));
    assert s.trace + Tag(pid, [e]) == s.trace + [Tagged(pid, e)];
  }

  /** The steps that take a started request to its count. */
  function Handle(pid: nat, subject: Subject): seq<Label> {
    [Identify(pid, Some(subject), ""), Route(pid), CountUsage(pid)]
  }

  lemma HandleSteps(c: Config, s: State, pid: nat, subject: Subject)
    ensures StepAll(c, s, Handle(pid, subject)) ==
            Step(c, Step(c, Step(c, s, Identify(pid, Some(subject), "")), Route(pid)), CountUsage(pid))
  {
    var all := Handle(pid, subject);
    assert all[..2] == [all[0], all[1]] && all[..2][..1] == [all[0]] && [all[0]][..0] == [];
    assert StepAll(c, s, []) == s;
    assert StepAll(c, s, [all[0]]) == Step(c, s, all[0]);
    assert StepAll(c, s, all[..2]) == Step(c, Step(c, s, all[0]), all[1]);
  }

  /** Nothing but the request and the trace has changed. */
  ghost predicate OthersKept(s: State, s': State, pid: nat) {
    && s'.procs.Keys == s.procs.Keys && s'.routes == s.routes
    && forall other | other in s.procs && other != pid :: s'.procs[other] == s.procs[other]
  }

  lemma HandleCounts(c: Config, s: State, pid: nat, subject: Subject, request: Request, now: Time)
    requires pid in s.procs && s.procs[pid] == Proc(request, now, Fresh) && Callable(c, subject, request, s.routes)
    ensures var s' := StepAll(c, s, Handle(pid, subject));
            && OthersKept(s, s', pid)
            && Attempts(s'.trace) == Attempts(s.trace) + [U.Attempt(subject.id, now)]
  {
    HandleSteps(c, s, pid, subject);
    IdentifyStep(c, s, pid, subject, s.procs[pid]);
    var one := Step(c, s, Identify(pid, Some(subject), ""));
    HandleRest(c, s, one, pid, subject, request, now);
  }

  lemma HandleRest(c: Config, s: State, one: State, pid: nat, subject: Subject, request: Request, now: Time)
    requires pid in s.procs && one.procs == s.procs[pid := Proc(request, now, Routing(subject))]
    requires one.routes == s.routes && Callable(c, subject, request, one.routes)
    ensures var s' := Step(c, Step(c, one, Route(pid)), CountUsage(pid));
            && OthersKept(s, s', pid)
            && Attempts(s'.trace) == Attempts(one.trace) + [U.Attempt(subject.id, now)]
  {
    RouteStep(c, one, pid, subject, one.procs[pid]);
    var two := Step(c, one, Route(pid));
    CountStep(c, two, pid, subject, two.procs[pid]);
  }

  // ---------- started requests are counted in any order ----------

  /** Requests `from` and later have started, at these times, and nothing more. */
  ghost predicate Started(s: State, request: Request, times: seq<Time>, from: nat) {
    forall i | from <= i < |times| :: i in s.procs && s.procs[i] == Proc(request, times[i], Fresh)
  }

  function HandleAll(from: nat, n: nat, subject: Subject): seq<Label>
    decreases n - from
  {
    if from >= n then [] else Handle(from, subject) + HandleAll(from + 1, n, subject)
  }

  function AttemptsAt(subject: string, times: seq<Time>): (h: seq<U.Attempt>)
    ensures |h| == |times|
  {
    seq(|times|, i requires 0 <= i < |times| => U.Attempt(subject, times[i]))
  }

  lemma {:induction false} CountAll(c: Config, s: State, subject: Subject, request: Request, times: seq<Time>,
                                    from: nat)
    requires Callable(c, subject, request, s.routes) && from <= |times| && Started(s, request, times, from)
    ensures Attempts(StepAll(c, s, HandleAll(from, |times|, subject)).trace) ==
            Attempts(s.trace) + AttemptsAt(subject.id, times[from..])
    decreases |times| - from
  {
    if from == |times| {
      assert StepAll(c, s, []) == s;
    } else {
      var next := StepAll(c, s, Handle(from, subject));
      HandleCounts(c, s, from, subject, request, times[from]);
      StepAllConcat(c, s, Handle(from, subject), HandleAll(from + 1, |times|, subject));
      StillStarted(s, next, request, times, from);
      CountAll(c, next, subject, request, times, from + 1);
      AttemptsSplit(subject.id, times, from);
    }
  }

  lemma StillStarted(s: State, s': State, request: Request, times: seq<Time>, from: nat)
    requires Started(s, request, times, from) && OthersKept(s, s', from)
    ensures Started(s', request, times, from + 1)
  {
  }

  lemma AttemptsSplit(subject: string, times: seq<Time>, from: nat)
    requires from < |times|
    ensures AttemptsAt(subject, times[from..]) ==
            [U.Attempt(subject, times[from])] + AttemptsAt(subject, times[from + 1..])
  {
  }

  // ---------- the stalled schedule ----------

  /** Attempt times in the order of counting: every other request was started
      at time 0. */
  function StalledTimes(rounds: nat): (r: seq<Time>)
    ensures |r| == 2 * rounds
    ensures forall i | 0 <= i < |r| :: r[i] == if i % 2 == 0 then (i / 2 + 1) * U.DEFAULT_WINDOW else 0
  {
    if rounds == 0 then [] else StalledTimes(rounds - 1) + [rounds * U.DEFAULT_WINDOW, 0]
  }

  lemma {:induction false} StalledAttempts(subject: string, rounds: nat)
    ensures AttemptsAt(subject, StalledTimes(rounds)) == U.Stalled(subject, rounds, U.DEFAULT_WINDOW)
  {
    if rounds > 0 {
      StalledAttempts(subject, rounds - 1);
      assert AttemptsAt(subject, StalledTimes(rounds)) ==
             AttemptsAt(subject, StalledTimes(rounds - 1)) +
             [U.Attempt(subject, rounds * U.DEFAULT_WINDOW), U.Attempt(subject, 0)];
    }
  }

  /** The requests of time 0 start first, then the others as the clock advances. */
  function EarlyStarts(request: Request, rounds: nat): (r: seq<Label>)
    ensures |r| == rounds && forall k | 0 <= k < rounds :: r[k] == Begin(2 * k + 1, request, 0)
  {
    seq(rounds, k requires 0 <= k => Begin(2 * k + 1, request, 0))
  }

  function LateStarts(request: Request, rounds: nat): (r: seq<Label>)
    ensures |r| == rounds && forall k | 0 <= k < rounds :: r[k] == Begin(2 * k, request, (k + 1) * U.DEFAULT_WINDOW)
  {
    seq(rounds, k requires 0 <= k => Begin(2 * k, request, (k + 1) * U.DEFAULT_WINDOW))
  }

  lemma BeginStep(c: Config, s: State, l: Label)
    requires l.Begin? && l.pid !in s.procs
    ensures Step(c, s, l) == s.(procs := s.procs[l.pid := Proc(l.request, l.now, Fresh)])
  {
  }

  ghost predicate AreStarts(starts: seq<Label>) {
    && (forall i | 0 <= i < |starts| :: starts[i].Begin?)
    && (forall i, j | 0 <= i < j < |starts| :: starts[i].Begin? && starts[j].Begin? ==> starts[i].pid != starts[j].pid)
  }

  function StartedProcs(starts: seq<Label>): map<nat, Proc>
    requires forall i | 0 <= i < |starts| :: starts[i].Begin?
  {
    if starts == [] then map[]
    else
      var l := starts[|starts| - 1];
      StartedProcs(starts[..|starts| - 1])[l.pid := Proc(l.request, l.now, Fresh)]
  }

  lemma {:induction false} StartedProcsAre(starts: seq<Label>)
    requires AreStarts(starts)
    ensures forall i | 0 <= i < |starts| ::
              && starts[i].pid in StartedProcs(starts)
              && StartedProcs(starts)[starts[i].pid] == Proc(starts[i].request, starts[i].now, Fresh)
    ensures forall pid | pid in StartedProcs(starts) :: exists i :: 0 <= i < |starts| && starts[i].pid == pid
  {
    if starts != [] {
      var front := starts[..|starts| - 1];
      StartedProcsAre(front);
      forall pid | pid in StartedProcs(starts) ensures exists i :: 0 <= i < |starts| && starts[i].pid == pid {
        if pid != starts[|starts| - 1].pid {
          var i :| 0 <= i < |front| && front[i].pid == pid;
          assert starts[i].pid == pid;
        }
      }
    }
  }

  /** Distinct requests start on an idle gateway and change nothing else. */
  lemma {:induction false} StartsStart(c: Config, s: State, starts: seq<Label>)
    requires s.procs == map[] && AreStarts(starts)
    ensures StepAll(c, s, starts) == s.(procs := StartedProcs(starts))
  {
    if starts != [] {
      var front, l := starts[..|starts| - 1], starts[|starts| - 1];
      StartsStart(c, s, front);
      StartedProcsAre(front);
      assert l.pid !in StartedProcs(front);
      BeginStep(c, StepAll(c, s, front), l);
    }
  }

  // ---------- the run ----------

  function Starts(request: Request, rounds: nat): (r: seq<Label>)
    ensures |r| == 2 * rounds
  {
    EarlyStarts(request, rounds) + LateStarts(request, rounds)
  }

  lemma StartsAreStarts(request: Request, rounds: nat)
    ensures AreStarts(Starts(request, rounds)) && ClockOrdered(Starts(request, rounds))
  {
    var r := Starts(request, rounds);
    forall i | 0 <= i < |r|
      ensures r[i] == if i < rounds then Begin(2 * i + 1, request, 0)
                      else Begin(2 * (i - rounds), request, (i - rounds + 1) * U.DEFAULT_WINDOW)
    {
    }
    forall i, j | 0 <= i < j < |r| ensures r[i].pid != r[j].pid && r[i].now <= r[j].now {
      if rounds <= i {
        assert (i - rounds + 1) * U.DEFAULT_WINDOW <= (j - rounds + 1) * U.DEFAULT_WINDOW;
      }
    }
  }

  function StalledRun(subject: Subject, request: Request, index: map<string, string>, rounds: nat): seq<Label> {
    [Refresh(index)] + (Starts(request, rounds) + HandleAll(0, 2 * rounds, subject))
  }

  lemma {:induction false} HandlingStartsNothing(from: nat, n: nat, subject: Subject)
    ensures forall l | l in HandleAll(from, n, subject) :: !l.Begin?
    decreases n - from
  {
    if from < n {
      HandlingStartsNothing(from + 1, n, subject);
    }
  }

  lemma StalledRunIsOrdered(subject: Subject, request: Request, index: map<string, string>, rounds: nat)
    ensures ClockOrdered(StalledRun(subject, request, index, rounds))
  {
    var starts, rest := Starts(request, rounds), HandleAll(0, 2 * rounds, subject);
    var labels := StalledRun(subject, request, index, rounds);
    StartsAreStarts(request, rounds);
    HandlingStartsNothing(0, 2 * rounds, subject);
    forall i | |starts| < i < |labels| ensures !labels[i].Begin? {
      assert labels[i] == rest[i - 1 - |starts|] && rest[i - 1 - |starts|] in rest;
    }
    assert forall i | 1 <= i <= |starts| :: labels[i] == starts[i - 1];
  }

  lemma StartsAreStarted(request: Request, rounds: nat, s: State)
    requires s.procs == StartedProcs(Starts(request, rounds))
    ensures Started(s, request, StalledTimes(rounds), 0)
  {
    var r, times := Starts(request, rounds), StalledTimes(rounds);
    StartsAreStarts(request, rounds);
    StartedProcsAre(r);
    forall i | 0 <= i < |times| ensures i in s.procs && s.procs[i] == Proc(request, times[i], Fresh) {
      var k := if i % 2 == 0 then rounds + i / 2 else i / 2;
      assert r[k].pid == i && r[k].now == times[i] && r[k].request == request;
    }
  }

  /** The gateway can receive the stalled history: requests start in the order
      of their clock readings, and are then counted in the stalled order. */
  lemma StalledRunIsStalled(c: Config, subject: Subject, request: Request, index: map<string, string>, rounds: nat)
    requires Callable(c, subject, request, index)
    ensures Attempts(Run(c, StalledRun(subject, request, index, rounds)).trace) ==
            U.Stalled(subject.id, rounds, U.DEFAULT_WINDOW)
  {
    var starts, rest := Starts(request, rounds), HandleAll(0, 2 * rounds, subject);
    var refreshed := Initial().(routes := index);
    RunIsStepAll(c, StalledRun(subject, request, index, rounds));
    StepAllConcat(c, Initial(), [Refresh(index)], starts + rest);
    RefreshStep(c, index);
    StepAllConcat(c, refreshed, starts, rest);
    StartsAreStarts(request, rounds);
    StartsStart(c, refreshed, starts);
    var s := refreshed.(procs := StartedProcs(starts));
    StartsAreStarted(request, rounds, s);
    CountAll(c, s, subject, request, StalledTimes(rounds), 0);
    StalledAttempts(subject.id, rounds);
    assert StalledTimes(rounds)[0..] == StalledTimes(rounds);
  }

  lemma RefreshStep(c: Config, index: map<string, string>)
    ensures StepAll(c, Initial(), [Refresh(index)]) == Initial().(routes := index)
  {
    assert [Refresh(index)][..0] == [];
    assert StepAll(c, Initial(), []) == Initial();
  }

  lemma LettingThrough(c: Config, subject: Subject, request: Request, index: map<string, string>, limit: nat,
                       rounds: nat)
    requires Callable(c, subject, request, index) && limit >= 2
    ensures var t := Run(c, StalledRun(subject, request, index, rounds)).trace;
            Count(Events(t), WithinLimit(subject.id, limit, 0)) >= rounds
  {
    var labels := StalledRun(subject, request, index, rounds);
    var t := Run(c, labels).trace;
    CountsHold(c, labels);
    ReportedWithinLimit(t, subject.id, limit, 0);
    StalledRunIsStalled(c, subject, request, index, rounds);
    U.StalledIsAdmitted(subject.id, rounds, U.DEFAULT_WINDOW);
    U.AdmittedIsMonotone(Attempts(t), subject.id, 2, limit, 0, U.DEFAULT_WINDOW);
  }

  lemma AtMostOne(c: Config, labels: seq<Label>, subject: string, limit: nat, x: Time)
    requires limit <= 1
    ensures Count(Events(Run(c, labels).trace), WithinLimit(subject, limit, x)) <= 1
  {
    var t := Run(c, labels).trace;
    CountsHold(c, labels);
    ReportedWithinLimit(t, subject, limit, x);
    U.LimitOneNeedsNoOrder(Attempts(t), subject, limit, x, U.DEFAULT_WINDOW);
  }

  /** Even when requests start in the order of their clock readings, a limit on
      the reported count bounds the requests of one window length, over all
      interleavings, if and only if it is at most one: what is needed beyond
      that is that they are also counted in that order. */
  lemma BoundedInRunsExactlyUpToOne(c: Config, subject: Subject, request: Request, index: map<string, string>,
                                    limit: nat)
    requires Callable(c, subject, request, index)
    ensures (exists bound: nat :: BoundedInRuns(c, subject.id, limit, bound)) <==> limit <= 1
  {
    if limit <= 1 {
      forall labels: seq<Label>, x: Time | ClockOrdered(labels)
        ensures Count(Events(Run(c, labels).trace), WithinLimit(subject.id, limit, x)) <= 1
      {
        AtMostOne(c, labels, subject.id, limit, x);
      }
      assert BoundedInRuns(c, subject.id, limit, 1);
    } else {
      forall bound: nat ensures !BoundedInRuns(c, subject.id, limit, bound) {
        StalledRunIsOrdered(subject, request, index, bound + 1);
        LettingThrough(c, subject, request, index, limit, bound + 1);
      }
    }
  }
}
