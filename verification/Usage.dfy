/** The per-subject call counter with a window anchored at its first call
    (internal/gateway/usage.go). */
module UsageWindow {
  import opened Types

  const DEFAULT_WINDOW: int := MINUTE

  datatype WindowState = WindowState(start: Time, count: nat)
  type State = map<string, WindowState>

  predicate Open(state: State, subject: string, now: Time, window: int) {
    subject in state && now - state[subject].start < window
  }

  function Count(state: State, subject: string, now: Time, window: int): nat {
    if Open(state, subject, now, window) then state[subject].count else 0
  }

  function Record(state: State, subject: string, now: Time, window: int): State {
    state[subject := if Open(state, subject, now, window)
                     then state[subject].(count := state[subject].count + 1)
                     else WindowState(now, 1)]
  }

  /** A window as policy sees it, in whole seconds. */
  function Seconds(window: int): int {
    window / SECOND
  }

  class UsageTracker {
    var window: int
    var state: State

    constructor ()
      ensures window == DEFAULT_WINDOW && state == map[]
    {
      window, state := DEFAULT_WINDOW, map[];
    }

    /** recordAndCount: one more than peek at the same instant, and it is
        what peek reports from then on within the window. */
    method RecordAndCount(subject: string, now: Time) returns (count: nat)
      modifies this
      ensures window == old(window)
      ensures state == Record(old(state), subject, now, window)
      ensures count == old(Count(state, subject, now, window)) + 1
      ensures window > 0 ==> count == Count(state, subject, now, window)
      ensures forall other | other != subject ::
                (other in state <==> other in old(state)) && (other in state ==> state[other] == old(state)[other])
    {
      var s := WindowState(now, 0);
      if subject in state && !(now - state[subject].start >= window) {
        s := state[subject];
      }
      s := s.(count := s.count + 1);
      state := state[subject := s];
      return s.count;
    }

    method Peek(subject: string, now: Time) returns (count: nat)
      ensures count == Count(state, subject, now, window)
    {
      if subject !in state || now - state[subject].start >= window {
        return 0;
      }
      return state[subject].count;
    }

    method UsageOf(subject: string, now: Time) returns (u: Usage)
      requires window >= 0
      modifies this
      ensures window == old(window) && state == Record(old(state), subject, now, window)
      ensures u == Usage(old(Count(state, subject, now, window)) + 1, Seconds(window))
    {
      var n := RecordAndCount(subject, now);
      u := Usage(n, Seconds(window));
    }

    method UsagePeek(subject: string, now: Time) returns (u: Usage)
      requires window >= 0
      ensures u == Usage(Count(state, subject, now, window), Seconds(window))
    {
      var n := Peek(subject, now);
      u := Usage(n, Seconds(window));
    }
  }

  // ---------- the counter against the history of attempts ----------

  datatype Attempt = Attempt(subject: string, at: Time)

  function Replay(h: seq<Attempt>, window: int): State {
    if h == [] then map[]
    else
      var last := h[|h| - 1];
      Record(Replay(h[..|h| - 1], window), last.subject, last.at, window)
  }

  /** The times at which one subject attempted a call, in order. */
  function TimesOf(h: seq<Attempt>, subject: string): seq<Time> {
    if h == [] then []
    else
      var last := h[|h| - 1];
      TimesOf(h[..|h| - 1], subject) + if last.subject == subject then [last.at] else []
  }

  /** `a` is the anchor of the window in force after the calls `ts`: it opened
      a window (it is the first call, or comes a full window after an earlier
      anchor that was in force until then), and no later call did. */
  ghost predicate InForce(ts: seq<Time>, a: nat, window: int)
    decreases |ts|, a
  {
    && a < |ts|
    && (forall k | a < k < |ts| :: ts[k] - ts[a] < window)
    && (a == 0 || exists b: nat :: b < a && InForce(ts[..a], b, window) && ts[a] - ts[b] >= window)
  }

  lemma InForceExtends(ts: seq<Time>, a: nat, t: Time, window: int)
    requires InForce(ts, a, window)
    ensures t - ts[a] < window ==> InForce(ts + [t], a, window)
    ensures t - ts[a] >= window ==> InForce(ts + [t], |ts|, window)
  {
    assert (ts + [t])[..a] == ts[..a];
    assert (ts + [t])[..|ts|] == ts;
  }

  lemma {:induction false} AnchorIsUnique(ts: seq<Time>, a: nat, b: nat, window: int)
    requires InForce(ts, a, window) && InForce(ts, b, window)
    ensures a == b
    decreases |ts|
  {
    if a < b {
      AnchorNotLater(ts, a, b, window);
    } else if b < a {
      AnchorNotLater(ts, b, a, window);
    }
  }

  lemma {:induction false} AnchorNotLater(ts: seq<Time>, a: nat, b: nat, window: int)
    requires InForce(ts, a, window) && InForce(ts, b, window) && a < b
    ensures false
    decreases |ts|, b
  {
    var c: nat :| c < b && InForce(ts[..b], c, window) && ts[b] - ts[c] >= window;
    assert ts[..b][..a] == ts[..a];
    assert InForce(ts[..b], a, window);
    if c < a {
      AnchorNotLater(ts[..b], c, a, window);
    } else if a < c {
      AnchorNotLater(ts[..b], a, c, window);
    }
  }

  /** In every reachable state the counter of a subject is the number of its
      attempts since the anchor in force, which is unique, and the window
      starts at that attempt. Other subjects' attempts play no part. */
  lemma {:induction false} CounterRefinesHistory(h: seq<Attempt>, subject: string, window: int) returns (a: nat)
    ensures subject in Replay(h, window) <==> TimesOf(h, subject) != []
    ensures TimesOf(h, subject) != [] ==>
              && InForce(TimesOf(h, subject), a, window)
              && Replay(h, window)[subject] == WindowState(TimesOf(h, subject)[a], |TimesOf(h, subject)| - a)
  {
    a := 0;
    if h != [] {
      var prefix, last := h[..|h| - 1], h[|h| - 1];
      a := CounterRefinesHistory(prefix, subject, window);
      if last.subject == subject {
        var ts := TimesOf(prefix, subject);
        if ts == [] {
          a := 0;
        } else {
          InForceExtends(ts, a, last.at, window);
          if last.at - ts[a] >= window {
            a := |ts|;
          }
        }
      } else {
        assert TimesOf(h, subject) == TimesOf(prefix, subject);
      }
    }
  }

  // ---------- the rate the counter really enforces ----------

  predicate NonDecreasing(h: seq<Attempt>, subject: string) {
    forall i, j | 0 <= i < j < |h| && h[i].subject == subject && h[j].subject == subject :: h[i].at <= h[j].at
  }

  /** The count reported to attempt `i`. */
  function Reported(h: seq<Attempt>, i: nat, window: int): nat
    requires i < |h|
  {
    Count(Replay(h[..i], window), h[i].subject, h[i].at, window) + 1
  }

  predicate AdmittedAt(h: seq<Attempt>, i: nat, subject: string, limit: nat, x: Time, window: int)
    requires i < |h|
  {
    h[i].subject == subject && x <= h[i].at < x + window && Reported(h, i, window) <= limit
  }

  /** How many calls of the subject in [x, x + window) a limit on the reported count lets through. */
  function Admitted(h: seq<Attempt>, subject: string, limit: nat, x: Time, window: int): nat {
    if h == [] then 0
    else
      Admitted(h[..|h| - 1], subject, limit, x, window) +
      if AdmittedAt(h, |h| - 1, subject, limit, x, window) then 1 else 0
  }

  function Min(a: int, b: int): int { if a < b then a else b }

  lemma {:induction false} NothingBefore(h: seq<Attempt>, subject: string, limit: nat, x: Time, window: int)
    requires forall i | 0 <= i < |h| && h[i].subject == subject :: h[i].at < x
    ensures Admitted(h, subject, limit, x, window) == 0
  {
    if h != [] {
      NothingBefore(h[..|h| - 1], subject, limit, x, window);
    }
  }

  lemma {:induction false} RateInvariant(h: seq<Attempt>, subject: string, limit: nat, x: Time, window: int)
    requires limit >= 1 && window >= 1 && NonDecreasing(h, subject)
    ensures var state, n := Replay(h, window), Admitted(h, subject, limit, x, window);
            if subject !in state then n == 0
            else
              var start, count := state[subject].start, state[subject].count;
              && count >= 1
              && (exists i :: 0 <= i < |h| && h[i] == Attempt(subject, start))
              && n <= 2 * limit - 1
              && (start < x ==> n <= Min(count, limit) - 1)
              && (x <= start < x + window ==> n <= limit - 1 + Min(count, limit))
  {
    if h != [] {
      var prefix, last := h[..|h| - 1], h[|h| - 1];
      RateInvariant(prefix, subject, limit, x, window);
      if last.subject == subject && last.at < x {
        NothingBefore(h, subject, limit, x, window);
      }
      if last.subject == subject && Open(Replay(prefix, window), subject, last.at, window) {
        var i :| 0 <= i < |prefix| && prefix[i] == Attempt(subject, Replay(prefix, window)[subject].start);
        assert h[i] == prefix[i] && h[i].at <= last.at;
      }
      if last.subject != subject && subject in Replay(prefix, window) {
        var i :| 0 <= i < |prefix| && prefix[i] == Attempt(subject, Replay(prefix, window)[subject].start);
        assert h[i] == prefix[i];
      }
    }
  }

  /** A limit on the reported count admits at most 2 * limit - 1 calls of one
      subject in any half-open interval of one window length. */
  lemma RateBound(h: seq<Attempt>, subject: string, limit: nat, x: Time, window: int)
    requires limit >= 1 && window >= 1 && NonDecreasing(h, subject)
    ensures Admitted(h, subject, limit, x, window) <= 2 * limit - 1
  {
    RateInvariant(h, subject, limit, x, window);
  }

  function Repeat(subject: string, at: Time, n: nat): (r: seq<Attempt>)
    ensures |r| == n && forall i | 0 <= i < n :: r[i] == Attempt(subject, at)
  {
    seq(n, i => Attempt(subject, at))
  }

  lemma {:induction false} RepeatState(h: seq<Attempt>, subject: string, at: Time, n: nat, window: int)
    requires window >= 1 && n >= 1
    ensures var before, after := Replay(h, window), Replay(h + Repeat(subject, at, n), window);
            && subject in after
            && after[subject] ==
               WindowState(if Open(before, subject, at, window) then before[subject].start else at,
                           Count(before, subject, at, window) + n)
    decreases n
  {
    var h' := h + Repeat(subject, at, n);
    assert h'[..|h'| - 1] == h + Repeat(subject, at, n - 1);
    if n == 1 {
      assert h + Repeat(subject, at, 0) == h;
    } else {
      RepeatState(h, subject, at, n - 1, window);
    }
  }

  lemma AdmittedAppend(h: seq<Attempt>, a: Attempt, subject: string, limit: nat, x: Time, window: int)
    ensures Admitted(h + [a], subject, limit, x, window) ==
            Admitted(h, subject, limit, x, window) +
            if a.subject == subject && x <= a.at < x + window
               && Count(Replay(h, window), subject, a.at, window) + 1 <= limit
            then 1 else 0
  {
    assert (h + [a])[..|h|] == h;
  }

  lemma RepeatCount(h: seq<Attempt>, subject: string, at: Time, n: nat, window: int)
    requires window >= 1
    ensures Count(Replay(h + Repeat(subject, at, n), window), subject, at, window) ==
            Count(Replay(h, window), subject, at, window) + n
  {
    if n == 0 {
      assert h + Repeat(subject, at, n) == h;
    } else {
      RepeatState(h, subject, at, n, window);
    }
  }

  lemma RepeatMore(h: seq<Attempt>, subject: string, at: Time, n: nat)
    requires n >= 1
    ensures h + Repeat(subject, at, n) == (h + Repeat(subject, at, n - 1)) + [Attempt(subject, at)]
  {
  }

  lemma {:induction false} RepeatStep(h: seq<Attempt>, subject: string, at: Time, n: nat, limit: nat, x: Time,
                                      window: int)
    requires window >= 1 && x <= at < x + window
    requires Count(Replay(h, window), subject, at, window) + n <= limit
    ensures Admitted(h + Repeat(subject, at, n), subject, limit, x, window) ==
            Admitted(h, subject, limit, x, window) + n
    decreases n
  {
    if n == 0 {
      assert h + Repeat(subject, at, n) == h;
    } else {
      RepeatMore(h, subject, at, n);
      AdmittedAppend(h + Repeat(subject, at, n - 1), Attempt(subject, at), subject, limit, x, window);
      RepeatStep(h, subject, at, n - 1, limit, x, window);
      RepeatCount(h, subject, at, n - 1, window);
    }
  }

  /** The bound is reached: one call opens a window, limit - 1 follow at its
      last instant and limit more open the next one. */
  lemma RateBoundIsSharp(subject: string, limit: nat, window: int) returns (h: seq<Attempt>)
    requires limit >= 1 && window >= 2
    ensures NonDecreasing(h, subject)
    ensures Admitted(h, subject, limit, window - 1, window) == 2 * limit - 1
  {
    var first := [Attempt(subject, 0)];
    var second := first + Repeat(subject, window - 1, limit - 1);
    SharpStart(subject, limit, window);
    RepeatStep(second, subject, window, limit, limit, window - 1, window);
    h := second + Repeat(subject, window, limit);
  }

  /** One call at time 0 and limit - 1 at the last instant of its window. */
  lemma SharpStart(subject: string, limit: nat, window: int)
    requires limit >= 1 && window >= 2
    ensures var h := [Attempt(subject, 0)] + Repeat(subject, window - 1, limit - 1);
            && Admitted(h, subject, limit, window - 1, window) == limit - 1
            && Count(Replay(h, window), subject, window, window) == 0
  {
    var first := [Attempt(subject, 0)];
    assert first[..0] == [];
    assert Replay(first, window) == map[subject := WindowState(0, 1)];
    assert Admitted(first, subject, limit, window - 1, window) == 0;
    RepeatStep(first, subject, window - 1, limit - 1, limit, window - 1, window);
    if limit == 1 {
      assert first + Repeat(subject, window - 1, 0) == first;
    } else {
      RepeatState(first, subject, window - 1, limit - 1, window);
    }
  }

  /** Attempts whose clock was read long before they were counted: every other
      one still carries time 0. */
  function Stalled(subject: string, rounds: nat, window: int): seq<Attempt> {
    if rounds == 0 then []
    else Stalled(subject, rounds - 1, window) + [Attempt(subject, rounds * window), Attempt(subject, 0)]
  }

  /** Without ordered call times a limit of 2 admits any number of calls: the
      clock is read at the start of a request and the counter is moved later
      (gateway.go:193, :233). */
  lemma {:induction false} StalledIsAdmitted(subject: string, rounds: nat, window: int)
    requires window >= 1
    ensures Admitted(Stalled(subject, rounds, window), subject, 2, 0, window) >= rounds
    ensures rounds > 0 ==>
              && subject in Replay(Stalled(subject, rounds, window), window)
              && Replay(Stalled(subject, rounds, window), window)[subject] == WindowState(rounds * window, 2)
  {
    if rounds > 0 {
      StalledIsAdmitted(subject, rounds - 1, window);
      var prefix, h := Stalled(subject, rounds - 1, window), Stalled(subject, rounds, window);
      var mid := prefix + [Attempt(subject, rounds * window)];
      assert mid[..|mid| - 1] == prefix && h[..|h| - 1] == mid;
      assert rounds * window - (rounds - 1) * window == window;
      assert rounds * window >= 1;
      assert Replay(mid, window)[subject] == WindowState(rounds * window, 1);
      assert Reported(h, |h| - 1, window) == 2;
    }
  }

  lemma {:induction false} AdmittedIsMonotone(h: seq<Attempt>, subject: string, low: nat, high: nat, x: Time,
                                              window: int)
    requires low <= high
    ensures Admitted(h, subject, low, x, window) <= Admitted(h, subject, high, x, window)
  {
    if h != [] {
      AdmittedIsMonotone(h[..|h| - 1], subject, low, high, x, window);
    }
  }

  lemma {:induction false} OpenWindowHasCalls(h: seq<Attempt>, subject: string, window: int)
    ensures subject in Replay(h, window) ==> Replay(h, window)[subject].count >= 1
  {
    if h != [] {
      OpenWindowHasCalls(h[..|h| - 1], subject, window);
    }
  }

  lemma {:induction false} LimitOneInvariant(h: seq<Attempt>, subject: string, x: Time, window: int)
    requires window >= 1
    ensures var state, n := Replay(h, window), Admitted(h, subject, 1, x, window);
            n <= 1 && (n == 1 ==> subject in state && x <= state[subject].start)
  {
    if h != [] {
      var prefix := h[..|h| - 1];
      LimitOneInvariant(prefix, subject, x, window);
      OpenWindowHasCalls(prefix, subject, window);
    }
  }

  /** A limit of one needs no ordered times: an admitted call opens a window,
      and the next to open one comes a full window later by the clock. */
  lemma LimitOneNeedsNoOrder(h: seq<Attempt>, subject: string, limit: nat, x: Time, window: int)
    requires window >= 1 && limit <= 1
    ensures Admitted(h, subject, limit, x, window) <= 1
  {
    LimitOneInvariant(h, subject, x, window);
    AdmittedIsMonotone(h, subject, limit, 1, x, window);
  }

  ghost predicate BoundedBy(subject: string, limit: nat, window: int, bound: nat) {
    forall h: seq<Attempt>, x: Time :: Admitted(h, subject, limit, x, window) <= bound
  }

  /** Over all histories, in whatever order the clock readings come, a limit on
      the reported count bounds the admitted calls of one window length if and
      only if it is at most one. */
  lemma BoundedExactlyUpToOne(subject: string, limit: nat, window: int)
    requires window >= 1
    ensures (exists bound: nat :: BoundedBy(subject, limit, window, bound)) <==> limit <= 1
  {
    if limit <= 1 {
      forall h: seq<Attempt>, x: Time ensures Admitted(h, subject, limit, x, window) <= 1 {
        LimitOneNeedsNoOrder(h, subject, limit, x, window);
      }
      assert BoundedBy(subject, limit, window, 1);
    } else {
      forall bound: nat ensures !BoundedBy(subject, limit, window, bound) {
        var h := Stalled(subject, bound + 1, window);
        StalledIsAdmitted(subject, bound + 1, window);
        AdmittedIsMonotone(h, subject, 2, limit, 0, window);
        assert Admitted(h, subject, limit, 0, window) > bound;
      }
    }
  }
}
