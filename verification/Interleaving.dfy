/** Traces of events from many concurrent requests, and how facts about each
    request's own events carry over to the interleaved trace. */
module Interleaving {

  datatype Tagged<E> = Tagged(pid: nat, event: E)

  /** The events of one request, in order. */
  function Project<E>(t: seq<Tagged<E>>, pid: nat): seq<E> {
    if t == [] then []
    else
      var last := t[|t| - 1];
      Project(t[..|t| - 1], pid) + if last.pid == pid then [last.event] else []
  }

  function Tag<E>(pid: nat, events: seq<E>): (t: seq<Tagged<E>>)
    ensures |t| == |events|
    ensures forall i | 0 <= i < |t| :: t[i] == Tagged(pid, events[i])
  {
    seq(|events|, i requires 0 <= i < |events| => Tagged(pid, events[i]))
  }

  function Count<E>(s: seq<E>, which: E -> bool): nat {
    if s == [] then 0
    else Count(s[..|s| - 1], which) + if which(s[|s| - 1]) then 1 else 0
  }

  lemma {:induction false} ProjectConcat<E>(t: seq<Tagged<E>>, u: seq<Tagged<E>>, pid: nat)
    ensures Project(t + u, pid) == Project(t, pid) + Project(u, pid)
    decreases |u|
  {
    if u == [] {
      assert t + u == t;
    } else {
      assert (t + u)[..|t + u| - 1] == t + u[..|u| - 1];
      ProjectConcat(t, u[..|u| - 1], pid);
    }
  }

  lemma {:induction false} ProjectTag<E>(pid: nat, events: seq<E>, who: nat)
    ensures Project(Tag(pid, events), who) == if who == pid then events else []
    decreases |events|
  {
    if events != [] {
      var front := events[..|events| - 1];
      assert Tag(pid, events)[..|events| - 1] == Tag(pid, front);
      ProjectTag(pid, front, who);
    }
  }

  /** Appending a request's events to the trace appends them to its own
      projection and to no other. */
  lemma ProjectAppend<E>(t: seq<Tagged<E>>, pid: nat, events: seq<E>, who: nat)
    ensures Project(t + Tag(pid, events), who) == Project(t, who) + if who == pid then events else []
  {
    ProjectConcat(t, Tag(pid, events), who);
    ProjectTag(pid, events, who);
  }

  /** Event i of the trace is event |Project(t[..i])| of its own request. */
  lemma PositionInProjection<E>(t: seq<Tagged<E>>, i: nat)
    requires i < |t|
    ensures var pid := t[i].pid;
            var b := |Project(t[..i], pid)|;
            && b < |Project(t, pid)|
            && Project(t, pid)[b] == t[i].event
            && Project(t, pid)[..b] == Project(t[..i], pid)
  {
    var pid := t[i].pid;
    ProjectConcat(t[..i + 1], t[i + 1..], pid);
    assert t[..i + 1] + t[i + 1..] == t;
    assert t[..i + 1][..i] == t[..i];
  }

  /** What comes earlier within a request comes earlier in the trace. */
  lemma {:induction false} ProjectedIsInTrace<E>(t: seq<Tagged<E>>, pid: nat, a: nat) returns (j: nat)
    requires a < |Project(t, pid)|
    ensures j < |t| && t[j] == Tagged(pid, Project(t, pid)[a])
  {
    var front := t[..|t| - 1];
    if a < |Project(front, pid)| {
      j := ProjectedIsInTrace(front, pid, a);
    } else {
      j := |t| - 1;
    }
  }

  lemma {:induction false} CountConcat<E>(s: seq<E>, t: seq<E>, which: E -> bool)
    ensures Count(s + t, which) == Count(s, which) + Count(t, which)
    decreases |t|
  {
    if t == [] {
      assert s + t == s;
    } else {
      assert (s + t)[..|s + t| - 1] == s + t[..|t| - 1];
      CountConcat(s, t[..|t| - 1], which);
    }
  }

  lemma {:induction false} CountNone<E>(s: seq<E>, which: E -> bool)
    requires forall e | e in s :: !which(e)
    ensures Count(s, which) == 0
  {
    if s != [] {
      CountNone(s[..|s| - 1], which);
    }
  }

  lemma CountOne<E>(e: E, which: E -> bool)
    ensures Count([e], which) == if which(e) then 1 else 0
  {
    assert [e][..0] == [];
  }

  function Without<E>(t: seq<Tagged<E>>, pid: nat): (r: seq<Tagged<E>>)
    ensures |r| <= |t|
  {
    if t == [] then []
    else
      var last := t[|t| - 1];
      Without(t[..|t| - 1], pid) + if last.pid == pid then [] else [last]
  }

  function Events<E>(t: seq<Tagged<E>>): (r: seq<E>)
    ensures |r| == |t|
  {
    seq(|t|, i requires 0 <= i < |t| => t[i].event)
  }

  lemma EventsFront<E>(t: seq<Tagged<E>>)
    requires t != []
    ensures Events(t)[..|t| - 1] == Events(t[..|t| - 1])
    ensures Events(t)[|t| - 1] == t[|t| - 1].event
  {
  }

  lemma {:induction false} CountSplits<E>(t: seq<Tagged<E>>, pid: nat, which: E -> bool)
    ensures Count(Events(t), which) == Count(Project(t, pid), which) + Count(Events(Without(t, pid)), which)
  {
    if t != [] {
      var front, last := t[..|t| - 1], t[|t| - 1];
      CountSplits(front, pid, which);
      EventsFront(t);
      if last.pid == pid {
        assert Project(t, pid)[..|Project(t, pid)| - 1] == Project(front, pid);
        assert Without(t, pid) == Without(front, pid);
      } else {
        assert Project(t, pid) == Project(front, pid);
        EventsFront(Without(t, pid));
        assert Without(t, pid)[..|Without(t, pid)| - 1] == Without(front, pid);
      }
    }
  }

  lemma {:induction false} ProjectWithout<E>(t: seq<Tagged<E>>, pid: nat, who: nat)
    ensures Project(Without(t, pid), who) == if who == pid then [] else Project(t, who)
  {
    if t != [] {
      var front, last := t[..|t| - 1], t[|t| - 1];
      ProjectWithout(front, pid, who);
      if last.pid == pid {
        assert Without(t, pid) == Without(front, pid);
        assert who != pid ==> Project(t, who) == Project(front, who);
      } else {
        assert Without(t, pid)[..|Without(t, pid)| - 1] == Without(front, pid);
      }
    }
  }

  /** If within every request one kind of event never outnumbers another, it
      does not in the trace either. */
  lemma {:induction false} CountsLift<E>(t: seq<Tagged<E>>, few: E -> bool, many: E -> bool)
    requires forall pid :: Count(Project(t, pid), few) <= Count(Project(t, pid), many)
    ensures Count(Events(t), few) <= Count(Events(t), many)
    decreases |t|
  {
    if t != [] {
      var pid := t[|t| - 1].pid;
      var rest := Without(t, pid);
      forall who ensures Count(Project(rest, who), few) <= Count(Project(rest, who), many) {
        ProjectWithout(t, pid, who);
        assert Count(Project(t, who), few) <= Count(Project(t, who), many);
      }
      CountsLift(rest, few, many);
      CountSplits(t, pid, few);
      CountSplits(t, pid, many);
    }
  }
}
