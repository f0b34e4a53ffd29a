/** Exactly when the bundle reference on a record names the contents of the
    policy that decided it, in runs with any overlap of loads and requests
    (pkg/policyservice/loader.go, stamp.go). */
module PolicyStamps {
  import opened Types
  import opened BundleInventory
  import opened Inventory
  import opened PolicyBundle
  import opened PolicyLoader
  import opened PolicyRuns

  // ---------- which load stands behind what ----------

  /** What a load verified. */
  datatype Vouched = Vouched(tree: Tree, m: Manifest)

  function VerifiedBy(t: seq<Event>, lid: nat): Option<Vouched> {
    if t == [] then None
    else
      var e := t[|t| - 1];
      if e.Passed? && e.lid == lid then Some(Vouched(e.tree, e.m)) else VerifiedBy(t[..|t| - 1], lid)
  }

  /** The files a load compiled. */
  function CompiledBy(t: seq<Event>, lid: nat): Option<Tree> {
    if t == [] then None
    else
      var e := t[|t| - 1];
      if e.Offered? && e.lid == lid && e.got.Some? then e.got else CompiledBy(t[..|t| - 1], lid)
  }

  /** The load whose policy was put in force last. */
  function SwappedLast(t: seq<Event>): Option<nat> {
    if t == [] then None
    else
      var e := t[|t| - 1];
      if e.Swapped? then Some(e.lid) else SwappedLast(t[..|t| - 1])
  }

  /** The load whose commit came last. */
  function CommittedLast(t: seq<Event>): Option<nat> {
    if t == [] then None
    else
      var e := t[|t| - 1];
      if e.Committed? then Some(e.lid) else CommittedLast(t[..|t| - 1])
  }

  /** The load whose policy was in force when the request was decided. */
  function DecidedUnder(t: seq<Event>, rid: nat): Option<nat> {
    if t == [] then None
    else
      var e := t[|t| - 1];
      if e.DecidedBy? && e.rid == rid then SwappedLast(t[..|t| - 1]) else DecidedUnder(t[..|t| - 1], rid)
  }

  // ---------- the state in terms of loads ----------

  function TreeBehind(t: seq<Event>, lid: Option<nat>): Option<Tree> {
    if lid.Some? then CompiledBy(t, lid.value) else None
  }

  function ManifestBehind(t: seq<Event>, lid: Option<nat>): Option<Manifest> {
    if lid.Some? && VerifiedBy(t, lid.value).Some? then Some(VerifiedBy(t, lid.value).value.m) else None
  }

  /** The load, if any, has verified and compiled. */
  predicate Known(t: seq<Event>, lid: Option<nat>) {
    lid.Some? ==> VerifiedBy(t, lid.value).Some? && CompiledBy(t, lid.value).Some?
  }

  predicate VerifyTraced(w: World, s: State, lid: nat) {
    var v := VerifiedBy(s.trace, lid);
    && (lid in s.loads <==> v.Some?)
    && (v.Some? ==> w.matches(v.value.tree, v.value.m))
    && (lid in s.loads && !s.loads[lid].Ended? ==> s.loads[lid].m == v.value.m)
  }

  predicate CompileTraced(s: State, lid: nat) {
    var got := CompiledBy(s.trace, lid);
    && (lid !in s.loads || s.loads[lid].Checked? ==> got.None?)
    && (lid in s.loads && s.loads[lid].Prepared? ==> got == Some(s.loads[lid].tree))
    && (lid in s.loads && s.loads[lid].InForce? ==> got.Some?)
  }

  predicate LoadTraced(w: World, s: State, lid: nat) {
    VerifyTraced(w, s, lid) && CompileTraced(s, lid)
  }

  /** A decided request holds the tree of the load it was decided under. */
  predicate DecisionTraced(t: seq<Event>, rid: nat, policy: Option<Tree>) {
    Known(t, DecidedUnder(t, rid)) && policy == TreeBehind(t, DecidedUnder(t, rid))
  }

  /** A stamped record in terms of the loads before it. */
  predicate StampTraced(w: World, t: seq<Event>, i: nat)
    requires i < |t|
  {
    t[i].Stamped? ==>
      && DecisionTraced(t[..i], t[i].rid, t[i].policy)
      && Known(t[..i], CommittedLast(t[..i]))
      && t[i].ref == StampOf(w, ManifestBehind(t[..i], CommittedLast(t[..i])))
  }

  predicate PreparedTraced(s: State) {
    Known(s.trace, SwappedLast(s.trace)) && s.prepared == TreeBehind(s.trace, SwappedLast(s.trace))
  }

  predicate ActiveTraced(s: State) {
    Known(s.trace, CommittedLast(s.trace)) && s.active == ManifestBehind(s.trace, CommittedLast(s.trace))
  }

  ghost predicate Traced(w: World, s: State) {
    && (forall lid: nat :: LoadTraced(w, s, lid))
    && PreparedTraced(s) && ActiveTraced(s)
    && (forall rid | rid in s.decided :: DecisionTraced(s.trace, rid, s.decided[rid]))
    && (forall i | 0 <= i < |s.trace| :: StampTraced(w, s.trace, i))
  }

  // ---------- one more event ----------

  lemma OneMore(t: seq<Event>, e: Event)
    ensures forall lid: nat :: VerifiedBy(t + [e], lid) ==
              if e.Passed? && e.lid == lid then Some(Vouched(e.tree, e.m)) else VerifiedBy(t, lid)
    ensures forall lid: nat :: CompiledBy(t + [e], lid) ==
              if e.Offered? && e.lid == lid && e.got.Some? then e.got else CompiledBy(t, lid)
    ensures SwappedLast(t + [e]) == if e.Swapped? then Some(e.lid) else SwappedLast(t)
    ensures CommittedLast(t + [e]) == if e.Committed? then Some(e.lid) else CommittedLast(t)
    ensures forall rid: nat :: DecidedUnder(t + [e], rid) ==
              if e.DecidedBy? && e.rid == rid then SwappedLast(t) else DecidedUnder(t, rid)
  {
    assert (t + [e])[..|t|] == t;
  }

  /** The new event does not verify or compile a load a second time. */
  predicate NewEvent(t: seq<Event>, e: Event) {
    && (e.Passed? ==> VerifiedBy(t, e.lid).None?)
    && (e.Offered? ==> CompiledBy(t, e.lid).None?)
  }

  lemma BehindStays(t: seq<Event>, e: Event, lid: Option<nat>)
    requires NewEvent(t, e) && Known(t, lid)
    ensures Known(t + [e], lid)
    ensures TreeBehind(t + [e], lid) == TreeBehind(t, lid) && ManifestBehind(t + [e], lid) == ManifestBehind(t, lid)
  {
    OneMore(t, e);
  }

  lemma StampsStay(w: World, t: seq<Event>, e: Event)
    requires forall i | 0 <= i < |t| :: StampTraced(w, t, i)
    requires StampTraced(w, t + [e], |t|)
    ensures forall i | 0 <= i < |t + [e]| :: StampTraced(w, t + [e], i)
  {
    forall i | 0 <= i < |t + [e]| ensures StampTraced(w, t + [e], i) {
      if i < |t| {
        assert StampTraced(w, t, i);
        assert (t + [e])[..i] == t[..i];
      }
    }
  }

  // ---------- one step ----------

  lemma VerifiedMore(t: seq<Event>, e: Event, lid: nat)
    ensures VerifiedBy(t + [e], lid) ==
            if e.Passed? && e.lid == lid then Some(Vouched(e.tree, e.m)) else VerifiedBy(t, lid)
  {
    assert (t + [e])[..|t|] == t;
  }

  lemma CompiledMore(t: seq<Event>, e: Event, lid: nat)
    ensures CompiledBy(t + [e], lid) == if e.Offered? && e.lid == lid && e.got.Some? then e.got else CompiledBy(t, lid)
  {
    assert (t + [e])[..|t|] == t;
  }

  lemma LastsMore(t: seq<Event>, e: Event)
    ensures SwappedLast(t + [e]) == if e.Swapped? then Some(e.lid) else SwappedLast(t)
    ensures CommittedLast(t + [e]) == if e.Committed? then Some(e.lid) else CommittedLast(t)
  {
    assert (t + [e])[..|t|] == t;
  }

  lemma OneEvent(w: World, s: State, l: Label)
    ensures var t := Step(w, s, l).trace; t == s.trace || (|t| == |s.trace| + 1 && t == s.trace + [t[|s.trace|]])
  {
  }

  lemma VerifyStep(w: World, s: State, l: Label, lid: nat)
    requires VerifyTraced(w, s, lid)
    ensures VerifyTraced(w, Step(w, s, l), lid)
  {
    var t := Step(w, s, l).trace;
    OneEvent(w, s, l);
    if t != s.trace {
      VerifiedMore(s.trace, t[|s.trace|], lid);
    }
  }

  lemma CompileStep(w: World, s: State, l: Label, lid: nat)
    requires CompileTraced(s, lid)
    ensures CompileTraced(Step(w, s, l), lid)
  {
    var t := Step(w, s, l).trace;
    OneEvent(w, s, l);
    if t != s.trace {
      CompiledMore(s.trace, t[|s.trace|], lid);
    }
  }

  lemma EventIsNew(w: World, s: State, l: Label)
    requires Traced(w, s)
    ensures var t := Step(w, s, l).trace;
            t == s.trace || (|t| == |s.trace| + 1 && t == s.trace + [t[|s.trace|]] && NewEvent(s.trace, t[|s.trace|]))
  {
    if l.Check? || l.Prepare? {
      assert LoadTraced(w, s, l.lid);
    }
  }

  lemma PreparedStep(w: World, s: State, l: Label)
    requires Traced(w, s)
    ensures PreparedTraced(Step(w, s, l))
  {
    var t, u := s.trace, Step(w, s, l).trace;
    EventIsNew(w, s, l);
    if u != t {
      LastsMore(t, u[|t|]);
      BehindStays(t, u[|t|], SwappedLast(t));
      if l.Swap? {
        assert LoadTraced(w, s, l.lid);
        BehindStays(t, u[|t|], Some(l.lid));
      }
    }
  }

  lemma ActiveStep(w: World, s: State, l: Label)
    requires Traced(w, s)
    ensures ActiveTraced(Step(w, s, l))
  {
    var t, u := s.trace, Step(w, s, l).trace;
    EventIsNew(w, s, l);
    if u != t {
      LastsMore(t, u[|t|]);
      BehindStays(t, u[|t|], CommittedLast(t));
      if l.Commit? {
        assert LoadTraced(w, s, l.lid);
        BehindStays(t, u[|t|], Some(l.lid));
      }
    }
  }

  lemma DecisionStep(w: World, s: State, l: Label, rid: nat)
    requires Traced(w, s) && rid in Step(w, s, l).decided
    ensures DecisionTraced(Step(w, s, l).trace, rid, Step(w, s, l).decided[rid])
  {
    var t := Step(w, s, l).trace;
    EventIsNew(w, s, l);
    if t != s.trace {
      var e := t[|s.trace|];
      OneMore(s.trace, e);
      BehindStays(s.trace, e, SwappedLast(s.trace));
      if rid in s.decided {
        BehindStays(s.trace, e, DecidedUnder(s.trace, rid));
      }
    }
  }

  lemma StampStep(w: World, s: State, l: Label)
    requires Traced(w, s)
    ensures var t := Step(w, s, l).trace; forall i | 0 <= i < |t| :: StampTraced(w, t, i)
  {
    var t := Step(w, s, l).trace;
    EventIsNew(w, s, l);
    if t != s.trace {
      var e := t[|s.trace|];
      assert t[..|s.trace|] == s.trace;
      if l.Append? {
        assert DecisionTraced(s.trace, l.rid, s.decided[l.rid]);
      }
      assert StampTraced(w, t, |s.trace|);
      StampsStay(w, s.trace, e);
    }
  }

  lemma {:induction false} RunIsTraced(w: World, labels: seq<Label>)
    ensures Traced(w, Run(w, labels))
  {
    if labels != [] {
      var s, l := Run(w, labels[..|labels| - 1]), labels[|labels| - 1];
      RunIsTraced(w, labels[..|labels| - 1]);
      forall lid: nat ensures LoadTraced(w, Step(w, s, l), lid) {
        assert LoadTraced(w, s, lid);
        VerifyStep(w, s, l, lid);
        CompileStep(w, s, l, lid);
      }
      PreparedStep(w, s, l);
      ActiveStep(w, s, l);
      forall rid | rid in Step(w, s, l).decided
        ensures DecisionTraced(Step(w, s, l).trace, rid, Step(w, s, l).decided[rid])
      {
        DecisionStep(w, s, l, rid);
      }
      StampStep(w, s, l);
    }
  }

  // ---------- the exact condition ----------

  /** Manifests with one reference vouch for the same contents. */
  ghost predicate FaithfulRefs(w: World) {
    forall a: Tree, m: Manifest, b: Tree, m': Manifest ::
      w.matches(a, m) && w.matches(b, m') && w.refOf(m) == w.refOf(m') ==> w.matches(a, m')
  }

  lemma RefPinsContents(k: Crypto, pub: string, a: Tree, m: Manifest, b: Tree, m': Manifest)
    requires Trustworthy(k) && Matches(k, a, m, pub) && Matches(k, b, m', pub) && Digest(k, m) == Digest(k, m')
    ensures Matches(k, a, m', pub)
  {
    assert Digest(k, m)[7..] == k.sha(PayloadOf(k, m)) && Digest(k, m')[7..] == k.sha(PayloadOf(k, m'));
    assert k.payload(m.version, m.createdAt, m.files) == k.payload(m'.version, m'.createdAt, m'.files);
  }

  lemma LoaderRefsAreFaithful(k: Crypto, pub: string)
    requires Trustworthy(k)
    ensures FaithfulRefs(WorldOf(k, pub))
  {
    var w := WorldOf(k, pub);
    forall a: Tree, m: Manifest, b: Tree, m': Manifest
      | w.matches(a, m) && w.matches(b, m') && w.refOf(m) == w.refOf(m')
      ensures w.matches(a, m')
    {
      RefPinsContents(k, pub, a, m, b, m');
    }
  }

  /** The files one load compiled are what the manifest of the other lists; or
      neither load has happened yet. */
  predicate SameContents(w: World, t: seq<Event>, swapped: Option<nat>, committed: Option<nat>) {
    match (swapped, committed)
    case (None, None) => true
    case (Some(a), Some(b)) =>
      && CompiledBy(t, a).Some? && VerifiedBy(t, b).Some?
      && w.matches(CompiledBy(t, a).value, VerifiedBy(t, b).value.m)
    case _ => false
  }

  /** The state of a run when its trace had length n. */
  lemma {:induction false} PrefixRun(w: World, labels: seq<Label>, n: nat) returns (k: nat)
    requires n <= |Run(w, labels).trace|
    ensures k <= |labels| && Run(w, labels[..k]).trace == Run(w, labels).trace[..n]
  {
    if n == |Run(w, labels).trace| {
      k := |labels|;
      assert labels[..k] == labels && Run(w, labels).trace[..n] == Run(w, labels).trace;
    } else {
      var front := labels[..|labels| - 1];
      assert |Run(w, labels).trace| <= |Run(w, front).trace| + 1;
      k := PrefixRun(w, front, n);
      assert front[..k] == labels[..k];
      assert Run(w, front).trace[..n] == Run(w, labels).trace[..n];
    }
  }

  /** Whatever a load is said to have verified did match. */
  lemma MatchesBefore(w: World, labels: seq<Label>, i: nat, lid: nat)
    requires i <= |Run(w, labels).trace|
    ensures var v := VerifiedBy(Run(w, labels).trace[..i], lid); v.Some? ==> w.matches(v.value.tree, v.value.m)
  {
    var k := PrefixRun(w, labels, i);
    RunIsTraced(w, labels[..k]);
    assert LoadTraced(w, Run(w, labels[..k]), lid);
  }

  /** With loads, edits and requests overlapping in any way: the stamp of a
      record, be it the first or a later one of its decision, names the contents
      of the deciding policy if and only if what was compiled by the load in
      force at the decision is what the manifest of the load that had committed
      last at the append lists. */
  lemma StampExactIff(w: World, labels: seq<Label>, i: nat)
    requires FaithfulRefs(w)
    requires i < |Run(w, labels).trace| && Run(w, labels).trace[i].Stamped?
    ensures var t := Run(w, labels).trace;
            StampExact(w, t[i]) <==> SameContents(w, t[..i], DecidedUnder(t[..i], t[i].rid), CommittedLast(t[..i]))
  {
    var t := Run(w, labels).trace;
    RunIsTraced(w, labels);
    assert StampTraced(w, t, i);
    var a, b := DecidedUnder(t[..i], t[i].rid), CommittedLast(t[..i]);
    if a.Some? && b.Some? {
      var tree, vb := CompiledBy(t[..i], a.value).value, VerifiedBy(t[..i], b.value).value;
      MatchesBefore(w, labels, i, b.value);
      assert t[i].policy == Some(tree) && t[i].ref == Some(w.refOf(vb.m));
      if StampExact(w, t[i]) {
        var m :| w.matches(tree, m) && t[i].ref == Some(w.refOf(m));
        assert w.matches(tree, vb.m);
      }
    }
  }

  /** A load compiled the files it verified. */
  predicate CompiledAsVerified(t: seq<Event>, lid: nat) {
    CompiledBy(t, lid).Some? && VerifiedBy(t, lid).Some? ==> CompiledBy(t, lid).value == VerifiedBy(t, lid).value.tree
  }

  /** In particular a record decided and appended under one and the same load,
      whose files were not edited under way, is stamped exactly, whatever other
      loads are doing. */
  lemma OneLoadStampsExactly(w: World, labels: seq<Label>, i: nat)
    requires i < |Run(w, labels).trace| && Run(w, labels).trace[i].Stamped?
    requires var t := Run(w, labels).trace;
             var lid := CommittedLast(t[..i]);
             DecidedUnder(t[..i], t[i].rid) == lid && (lid.Some? ==> CompiledAsVerified(t[..i], lid.value))
    ensures StampExact(w, Run(w, labels).trace[i])
  {
    var t := Run(w, labels).trace;
    RunIsTraced(w, labels);
    assert StampTraced(w, t, i);
    var lid := CommittedLast(t[..i]);
    if lid.Some? {
      var v := VerifiedBy(t[..i], lid.value).value;
      MatchesBefore(w, labels, i, lid.value);
      assert w.matches(v.tree, v.m) && t[i].policy == Some(v.tree) && t[i].ref == Some(w.refOf(v.m));
    }
  }

  // ---------- schedules without overlap ----------

  /** No file is edited during or between a load's verify and its compile. */
  ghost predicate NoEdits(labels: seq<Label>) {
    && (forall i | 0 <= i < |labels| && (labels[i].Check? || labels[i].Prepare?) :: labels[i].view == Snapshot)
    && forall i, n, j | 0 <= i < n < j < |labels| ::
         labels[i].Check? && labels[j].Prepare? && labels[i].lid == labels[j].lid ==> !labels[n].Edit?
  }

  /** A load that put its policy in force commits before the next one does so,
      and no record of a decision falls between its swap and its commit. */
  ghost predicate Serialised(t: seq<Event>) {
    forall i, j | 0 <= i < j < |t| ::
      t[i].Swapped? && (t[j].Swapped? || t[j].Stamped?) ==> CommittedBetween(t, t[i].lid, i, j)
  }

  predicate CommittedBetween(t: seq<Event>, lid: nat, i: nat, j: nat)
    requires j <= |t|
  {
    exists n :: i < n < j && t[n].Committed? && t[n].lid == lid
  }

  /** No policy is put in force between a decision and a record of it. */
  ghost predicate Undisturbed(t: seq<Event>) {
    forall i, n, j | 0 <= i < n < j < |t| ::
      t[i].DecidedBy? && t[j].Stamped? && t[i].rid == t[j].rid ==> !t[n].Swapped?
  }

  predicate EditedSince(labels: seq<Label>, i: nat) {
    exists n :: i < n < |labels| && labels[n].Edit?
  }

  /** The files of a verified load are as they were, or were edited since. */
  ghost predicate SinceCheck(labels: seq<Label>, s: State, lid: nat)
    requires lid in s.loads && s.loads[lid].Checked?
  {
    exists i :: && 0 <= i < |labels| && labels[i].Check? && labels[i].lid == lid
                && (EditedSince(labels, i) || UnchangedSince(s, lid))
  }

  predicate UnchangedSince(s: State, lid: nat)
    requires lid in s.loads && s.loads[lid].Checked?
  {
    var path, v := s.loads[lid].path, VerifiedBy(s.trace, lid);
    v.Some? && path in s.disk.bundles && s.disk.bundles[path] == v.value.tree
  }

  lemma EditedStays(labels: seq<Label>, l: Label, i: nat)
    ensures EditedSince(labels, i) ==> EditedSince(labels + [l], i)
    ensures l.Edit? && i < |labels| ==> EditedSince(labels + [l], i)
  {
    if EditedSince(labels, i) {
      var n :| i < n < |labels| && labels[n].Edit?;
      assert (labels + [l])[n].Edit?;
    }
    if l.Edit? && i < |labels| {
      assert (labels + [l])[|labels|].Edit?;
    }
  }

  ghost predicate ChecksTracked(labels: seq<Label>, s: State) {
    forall lid | lid in s.loads && s.loads[lid].Checked? :: SinceCheck(labels, s, lid)
  }

  lemma SinceCheckStep(w: World, labels: seq<Label>, s: State, l: Label, lid: nat)
    requires l.Check? ==> l.view == Snapshot
    requires ChecksTracked(labels, s) && lid in Step(w, s, l).loads && Step(w, s, l).loads[lid].Checked?
    ensures SinceCheck(labels + [l], Step(w, s, l), lid)
  {
    var s' := Step(w, s, l);
    OneEvent(w, s, l);
    if s'.trace != s.trace {
      VerifiedMore(s.trace, s'.trace[|s.trace|], lid);
    }
    if lid in s.loads {
      assert SinceCheck(labels, s, lid);
      var i :| && 0 <= i < |labels| && labels[i].Check? && labels[i].lid == lid
               && (EditedSince(labels, i) || UnchangedSince(s, lid));
      EditedStays(labels, l, i);
      assert (labels + [l])[i] == labels[i];
    } else {
      assert (labels + [l])[|labels|] == l;
      assert UnchangedSince(s', lid);
    }
  }

  lemma {:induction false} ChecksHold(w: World, labels: seq<Label>)
    requires NoEdits(labels)
    ensures ChecksTracked(labels, Run(w, labels))
  {
    if labels != [] {
      var front, l := labels[..|labels| - 1], labels[|labels| - 1];
      assert labels == front + [l];
      NoEditsUpTo(labels, |front|);
      ChecksHold(w, front);
      var s := Run(w, front);
      forall lid | lid in Step(w, s, l).loads && Step(w, s, l).loads[lid].Checked?
        ensures SinceCheck(labels, Step(w, s, l), lid)
      {
        SinceCheckStep(w, front, s, l, lid);
      }
    }
  }

  /** What a load compiles now is what it verified. */
  lemma UneditedCompiles(w: World, labels: seq<Label>, s: State, l: Label, lid: nat)
    requires ChecksTracked(labels, s) && NoEdits(labels + [l]) && Traced(w, s) && CompiledAsVerified(s.trace, lid)
    ensures CompiledAsVerified(Step(w, s, l).trace, lid)
  {
    var t := Step(w, s, l).trace;
    assert LoadTraced(w, s, lid);
    EventIsNew(w, s, l);
    if t != s.trace {
      VerifiedMore(s.trace, t[|s.trace|], lid);
      CompiledMore(s.trace, t[|s.trace|], lid);
    }
    if l.Prepare? && l.lid == lid && lid in s.loads && s.loads[lid].Checked? {
      assert SinceCheck(labels, s, lid);
      var i :| && 0 <= i < |labels| && labels[i].Check? && labels[i].lid == lid
               && (EditedSince(labels, i) || UnchangedSince(s, lid));
      NoEditSince(labels, l, i);
      assert (labels + [l])[|labels|] == l && l.view == Snapshot;
    }
  }

  lemma NoEditSince(labels: seq<Label>, l: Label, i: nat)
    requires NoEdits(labels + [l]) && l.Prepare? && i < |labels| && labels[i].Check? && labels[i].lid == l.lid
    ensures !EditedSince(labels, i)
  {
    var all := labels + [l];
    assert all[i] == labels[i] && all[|labels|] == l;
    assert forall n | i < n < |labels| :: all[n] == labels[n];
  }

  lemma NoEditsUpTo(labels: seq<Label>, k: nat)
    requires NoEdits(labels) && k <= |labels|
    ensures NoEdits(labels[..k])
  {
    assert forall i | 0 <= i < k :: labels[..k][i] == labels[i];
  }

  /** Without such edits every load compiles the files it verified. */
  lemma {:induction false} NoEditsCompilesVerified(w: World, labels: seq<Label>)
    requires NoEdits(labels)
    ensures forall lid: nat :: CompiledAsVerified(Run(w, labels).trace, lid)
  {
    if labels != [] {
      var front, l := labels[..|labels| - 1], labels[|labels| - 1];
      assert labels == front + [l];
      NoEditsUpTo(labels, |front|);
      NoEditsCompilesVerified(w, front);
      ChecksHold(w, front);
      RunIsTraced(w, front);
      forall lid: nat ensures CompiledAsVerified(Step(w, Run(w, front), l).trace, lid) {
        UneditedCompiles(w, front, Run(w, front), l, lid);
      }
    }
  }

  /** A load has put its policy in force and not committed since. */
  predicate Uncommitted(t: seq<Event>, lid: nat) {
    exists i :: 0 <= i < |t| && t[i] == Swapped(lid) && forall n | i < n < |t| :: !(t[n].Committed? && t[n].lid == lid)
  }

  /** At most the load swapped last is uncommitted; if none is, the load swapped
      last is the load committed last. */
  ghost predicate InStep(s: State) {
    && (forall lid | lid in s.loads && s.loads[lid].InForce? ::
          SwappedLast(s.trace) == Some(lid) && Uncommitted(s.trace, lid))
    && (NoneInForce(s) ==> SwappedLast(s.trace) == CommittedLast(s.trace))
  }

  predicate NoneInForce(s: State) {
    forall lid | lid in s.loads :: !s.loads[lid].InForce?
  }

  lemma UncommittedStays(t: seq<Event>, e: Event, lid: nat)
    requires !(e.Committed? && e.lid == lid)
    ensures Uncommitted(t, lid) ==> Uncommitted(t + [e], lid)
    ensures e == Swapped(lid) ==> Uncommitted(t + [e], lid)
  {
    if Uncommitted(t, lid) {
      var i :| 0 <= i < |t| && t[i] == Swapped(lid) && forall n | i < n < |t| :: !(t[n].Committed? && t[n].lid == lid);
      assert (t + [e])[i] == Swapped(lid);
    }
    if e == Swapped(lid) {
      assert (t + [e])[|t|] == Swapped(lid);
    }
  }

  /** In a serialised trace nothing is uncommitted when a policy is put in force
      or a record is written. */
  lemma NothingUncommitted(t: seq<Event>, e: Event, lid: nat)
    requires Serialised(t + [e]) && (e.Swapped? || e.Stamped?)
    ensures !Uncommitted(t, lid)
  {
    var u := t + [e];
    assert u[|t|] == e;
    forall i | 0 <= i < |t| && t[i] == Swapped(lid)
      ensures exists n :: i < n < |t| && t[n].Committed? && t[n].lid == lid
    {
      assert u[i] == t[i];
      assert CommittedBetween(u, lid, i, |t|);
      var n :| i < n < |t| && u[n].Committed? && u[n].lid == lid;
      assert u[n] == t[n];
    }
  }

  lemma StillInForce(t: seq<Event>, e: Event, lid: nat)
    requires SwappedLast(t) == Some(lid) && Uncommitted(t, lid) && Serialised(t + [e])
    requires !(e.Committed? && e.lid == lid)
    ensures SwappedLast(t + [e]) == Some(lid) && Uncommitted(t + [e], lid)
  {
    OneMore(t, e);
    UncommittedStays(t, e, lid);
    if e.Swapped? {
      NothingUncommitted(t, e, lid);
    }
  }

  lemma NowInForce(t: seq<Event>, lid: nat)
    ensures SwappedLast(t + [Swapped(lid)]) == Some(lid) && Uncommitted(t + [Swapped(lid)], lid)
  {
    OneMore(t, Swapped(lid));
    UncommittedStays(t, Swapped(lid), lid);
  }

  /** A load in force either was so before and has not committed, or just now
      put its policy in force. */
  lemma InForceSince(w: World, s: State, l: Label, lid: nat)
    requires lid in Step(w, s, l).loads && Step(w, s, l).loads[lid].InForce?
    ensures var t, u := s.trace, Step(w, s, l).trace;
            if lid in s.loads && s.loads[lid].InForce?
            then u == t || (|u| == |t| + 1 && u == t + [u[|t|]] && !(u[|t|].Committed? && u[|t|].lid == lid))
            else u == t + [Swapped(lid)]
  {
  }

  lemma InForceStep(w: World, s: State, l: Label, lid: nat)
    requires InStep(s) && Serialised(Step(w, s, l).trace)
    requires lid in Step(w, s, l).loads && Step(w, s, l).loads[lid].InForce?
    ensures SwappedLast(Step(w, s, l).trace) == Some(lid) && Uncommitted(Step(w, s, l).trace, lid)
  {
    var t, u := s.trace, Step(w, s, l).trace;
    InForceSince(w, s, l, lid);
    if !(lid in s.loads && s.loads[lid].InForce?) {
      NowInForce(t, lid);
    } else if u != t {
      StillInForce(t, u[|t|], lid);
    }
  }

  lemma SwapLeavesInForce(w: World, s: State, l: Label)
    ensures var t, u := s.trace, Step(w, s, l).trace;
            |u| > |t| && u[|t|].Swapped? ==> !NoneInForce(Step(w, s, l))
  {
    if l.Swap? && l.lid in s.loads && s.loads[l.lid].Prepared? {
      assert Step(w, s, l).loads[l.lid].InForce?;
    }
  }

  lemma NoneWasInForce(w: World, s: State, l: Label)
    requires NoneInForce(Step(w, s, l)) && !(l.Commit? && l.lid in s.loads && s.loads[l.lid].InForce?)
    ensures NoneInForce(s)
  {
    forall lid | lid in s.loads ensures !s.loads[lid].InForce? {
      assert !Step(w, s, l).loads[lid].InForce?;
    }
  }

  lemma NoneInForceStep(w: World, s: State, l: Label)
    requires InStep(s) && NoneInForce(Step(w, s, l))
    ensures SwappedLast(Step(w, s, l).trace) == CommittedLast(Step(w, s, l).trace)
  {
    var t, u := s.trace, Step(w, s, l).trace;
    OneEvent(w, s, l);
    SwapLeavesInForce(w, s, l);
    if u != t {
      LastsMore(t, u[|t|]);
    }
    if !(l.Commit? && l.lid in s.loads && s.loads[l.lid].InForce?) {
      NoneWasInForce(w, s, l);
    }
  }

  lemma InStepKept(w: World, s: State, l: Label)
    requires InStep(s) && Serialised(Step(w, s, l).trace)
    ensures InStep(Step(w, s, l))
  {
    var s' := Step(w, s, l);
    forall lid | lid in s'.loads && s'.loads[lid].InForce?
      ensures SwappedLast(s'.trace) == Some(lid) && Uncommitted(s'.trace, lid)
    {
      InForceStep(w, s, l, lid);
    }
    if NoneInForce(s') {
      NoneInForceStep(w, s, l);
    }
  }

  lemma SerialisedPrefix(t: seq<Event>, n: nat)
    requires Serialised(t) && n <= |t|
    ensures Serialised(t[..n])
  {
    forall i, j | 0 <= i < j < n && t[..n][i].Swapped? && (t[..n][j].Swapped? || t[..n][j].Stamped?)
      ensures CommittedBetween(t[..n], t[..n][i].lid, i, j)
    {
      assert CommittedBetween(t, t[i].lid, i, j);
      var k :| i < k < j && t[k].Committed? && t[k].lid == t[i].lid;
      assert t[..n][k] == t[k];
    }
  }

  ghost predicate StampsInStep(t: seq<Event>) {
    forall i | 0 <= i < |t| && t[i].Stamped? :: SwappedLast(t[..i]) == CommittedLast(t[..i])
  }

  lemma StampsInStepKept(w: World, s: State, l: Label)
    requires InStep(s) && StampsInStep(s.trace) && Serialised(Step(w, s, l).trace)
    ensures StampsInStep(Step(w, s, l).trace)
  {
    var t, u := s.trace, Step(w, s, l).trace;
    forall i | 0 <= i < |u| && u[i].Stamped? ensures SwappedLast(u[..i]) == CommittedLast(u[..i]) {
      if i < |t| {
        assert u[..i] == t[..i] && t[i] == u[i];
      } else {
        assert u[..i] == t && u == t + [u[i]];
        forall lid | lid in s.loads ensures !s.loads[lid].InForce? {
          NothingUncommitted(t, u[i], lid);
        }
      }
    }
  }

  lemma {:induction false} SerialisedRuns(w: World, labels: seq<Label>)
    requires Serialised(Run(w, labels).trace)
    ensures InStep(Run(w, labels)) && StampsInStep(Run(w, labels).trace)
  {
    if labels != [] {
      var s, l := Run(w, labels[..|labels| - 1]), labels[|labels| - 1];
      assert Run(w, labels).trace[..|s.trace|] == s.trace;
      SerialisedPrefix(Run(w, labels).trace, |s.trace|);
      SerialisedRuns(w, labels[..|labels| - 1]);
      InStepKept(w, s, l);
      StampsInStepKept(w, s, l);
    }
  }

  predicate HasDecision(t: seq<Event>, rid: nat) {
    exists i :: 0 <= i < |t| && t[i].DecidedBy? && t[i].rid == rid
  }

  lemma HasDecisionGrows(t: seq<Event>, u: seq<Event>, rid: nat)
    requires HasDecision(t, rid) && t <= u
    ensures HasDecision(u, rid)
  {
    var i :| 0 <= i < |t| && t[i].DecidedBy? && t[i].rid == rid;
    assert u[i] == t[i];
  }

  ghost predicate DecisionsOnTrace(s: State) {
    && (forall rid | rid in s.decided :: HasDecision(s.trace, rid))
    && (forall i | 0 <= i < |s.trace| && s.trace[i].Stamped? :: HasDecision(s.trace[..i], s.trace[i].rid))
  }

  lemma DecisionsStep(w: World, s: State, l: Label)
    requires DecisionsOnTrace(s)
    ensures DecisionsOnTrace(Step(w, s, l))
  {
    var s' := Step(w, s, l);
    forall rid | rid in s'.decided ensures HasDecision(s'.trace, rid) {
      if rid in s.decided {
        HasDecisionGrows(s.trace, s'.trace, rid);
      } else {
        assert s'.trace[|s.trace|] == DecidedBy(rid, s.prepared);
      }
    }
    forall i | 0 <= i < |s'.trace| && s'.trace[i].Stamped? ensures HasDecision(s'.trace[..i], s'.trace[i].rid) {
      if i < |s.trace| {
        assert s'.trace[..i] == s.trace[..i] && s'.trace[i] == s.trace[i];
      } else {
        assert s'.trace[..i] == s.trace;
      }
    }
  }

  lemma {:induction false} RecordsFollowDecisions(w: World, labels: seq<Label>)
    ensures DecisionsOnTrace(Run(w, labels))
  {
    if labels != [] {
      RecordsFollowDecisions(w, labels[..|labels| - 1]);
      DecisionsStep(w, Run(w, labels[..|labels| - 1]), labels[|labels| - 1]);
    }
  }

  /** If no policy was put in force since the decision, the one in force then is
      the one in force now. */
  lemma {:induction false} DecidedUnderCurrent(t: seq<Event>, rid: nat)
    requires HasDecision(t, rid)
    requires forall i, n | 0 <= i < n < |t| && t[i].DecidedBy? && t[i].rid == rid :: !t[n].Swapped?
    ensures DecidedUnder(t, rid) == SwappedLast(t)
  {
    var k := |t| - 1;
    var front, e := t[..k], t[k];
    if !(e.DecidedBy? && e.rid == rid) {
      var i :| 0 <= i < |t| && t[i].DecidedBy? && t[i].rid == rid;
      assert front[i] == t[i];
      DecidedUnderCurrent(front, rid);
    }
  }

  /** Stamp meaning: when no file is edited during or between a load's verify and
      its compile, loads do not overlap from swap to commit, no record falls
      between a swap and its commit, and no policy is put in force between a
      decision and a record of it, each stamp names the manifest whose contents
      the deciding policy was compiled from. Decisions may fall anywhere, and
      records anywhere else in a load. */
  lemma StampMeaning(w: World, labels: seq<Label>, i: nat)
    requires NoEdits(labels) && Serialised(Run(w, labels).trace) && Undisturbed(Run(w, labels).trace)
    requires i < |Run(w, labels).trace|
    ensures StampExact(w, Run(w, labels).trace[i])
  {
    var t := Run(w, labels).trace;
    if t[i].Stamped? {
      var k := PrefixRun(w, labels, i);
      NoEditsUpTo(labels, k);
      NoEditsCompilesVerified(w, labels[..k]);
      SerialisedRuns(w, labels);
      RecordsFollowDecisions(w, labels);
      DecidedUnderCurrent(t[..i], t[i].rid);
      OneLoadStampsExactly(w, labels, i);
    }
  }

  /** Two records that are stamped exactly, in whatever runs, with the same
      digest, were decided by byte-identical policy. */
  lemma SameStampSamePolicy(k: Crypto, pub: string, e: Event, e': Event)
    requires Trustworthy(k) && StampExact(WorldOf(k, pub), e) && StampExact(WorldOf(k, pub), e')
    requires e.Stamped? && e.policy.Some? && WellFormed(e.policy.value)
    requires e'.Stamped? && e'.policy.Some? && WellFormed(e'.policy.value)
    requires e.ref.Some? && e'.ref.Some? && e.ref.value.digest == e'.ref.value.digest
    ensures SameVisibleFiles(e.policy.value, e'.policy.value)
  {
    var w := WorldOf(k, pub);
    var m :| w.matches(e.policy.value, m) && e.ref == Some(w.refOf(m));
    var m' :| w.matches(e'.policy.value, m') && e'.ref == Some(w.refOf(m'));
    EqualDigestsEqualBundles(k, e.policy.value, m, e'.policy.value, m', pub);
  }

  // ---------- what overlapping loads do ----------

  lemma RunAppend(w: World, labels: seq<Label>, l: Label)
    ensures Run(w, labels + [l]) == Step(w, Run(w, labels), l)
  {
    assert (labels + [l])[..|labels|] == labels;
  }

  lemma CheckPrepareSwap(w: World, labels: seq<Label>, lid: nat, path: string)
    requires var s := Run(w, labels); lid !in s.loads && PassingManifest(w, s.disk, Seen(s.disk, path, Snapshot)).Some?
    ensures var s := Run(w, labels);
            var s' := Run(w, labels + [Check(lid, path, Snapshot)] + [Prepare(lid, true, Snapshot)] + [Swap(lid)]);
            && s'.prepared == Some(s.disk.bundles[path])
            && s'.loads == s.loads[lid := InForce(s.disk.manifest.value)]
            && s'.active == s.active && s'.decided == s.decided && s'.disk == s.disk
  {
    RunAppend(w, labels, Check(lid, path, Snapshot));
    RunAppend(w, labels + [Check(lid, path, Snapshot)], Prepare(lid, true, Snapshot));
    RunAppend(w, labels + [Check(lid, path, Snapshot)] + [Prepare(lid, true, Snapshot)], Swap(lid));
  }

  lemma CommitInOrder(w: World, labels: seq<Label>, first: nat, last: nat)
    requires var s := Run(w, labels);
             first != last && first in s.loads && s.loads[first].InForce? && last in s.loads && s.loads[last].InForce?
    ensures var s, s' := Run(w, labels), Run(w, labels + [Commit(first)] + [Commit(last)]);
            s'.active == Some(s.loads[last].m) && s'.prepared == s.prepared && s'.decided == s.decided
  {
    RunAppend(w, labels, Commit(first));
    RunAppend(w, labels + [Commit(first)], Commit(last));
  }

  lemma DecideThenAppend(w: World, s: State, rid: nat)
    requires rid !in s.decided
    ensures var t := Step(w, Step(w, s, Decide(rid)), Append(rid)).trace;
            t != [] && t[|t| - 1] == Stamped(rid, s.prepared, StampOf(w, s.active))
  {
  }

  lemma DecideAndAppend(w: World, labels: seq<Label>, rid: nat)
    requires rid !in Run(w, labels).decided
    ensures var s, t := Run(w, labels), Run(w, labels + [Decide(rid)] + [Append(rid)]).trace;
            t != [] && t[|t| - 1] == Stamped(rid, s.prepared, StampOf(w, s.active))
  {
    RunAppend(w, labels, Decide(rid));
    RunAppend(w, labels + [Decide(rid)], Append(rid));
    DecideThenAppend(w, Run(w, labels), rid);
  }

  lemma EditStep(w: World, labels: seq<Label>, disk: Disk)
    ensures Run(w, labels + [Edit(disk)]) == Run(w, labels).(disk := disk)
  {
    RunAppend(w, labels, Edit(disk));
  }

  lemma CommitStep(w: World, labels: seq<Label>, lid: nat)
    requires var s := Run(w, labels); lid in s.loads && s.loads[lid].InForce?
    ensures var s, s' := Run(w, labels), Run(w, labels + [Commit(lid)]);
            && s'.active == Some(s.loads[lid].m) && s'.loads == s.loads[lid := Ended]
            && s'.disk == s.disk && s'.prepared == s.prepared && s'.decided == s.decided
  {
    RunAppend(w, labels, Commit(lid));
  }

  function Overlapping(path: string, before: Disk, after: Disk): seq<Label> {
    [Edit(before)] + [Check(1, path, Snapshot)] + [Prepare(1, true, Snapshot)] + [Swap(1)]
    + [Edit(after)] + [Check(2, path, Snapshot)] + [Prepare(2, true, Snapshot)] + [Swap(2)]
    + [Commit(2)] + [Commit(1)] + [Decide(0)] + [Append(0)]
  }

  lemma OverlappingHasNoEdits(path: string, before: Disk, after: Disk)
    ensures NoEdits(Overlapping(path, before, after))
  {
  }

  /** Load does not hold its lock across its steps, so two overlapping loads can
      commit in the other order than they put their policies in force. Records
      are then stamped with bundle A while B, which A's manifest does not
      describe, decides: with no edit between any verify and its compile, and
      nothing at all between the decision and its record. */
  lemma OverlappingLoadsMisattribute(w: World, path: string, a: Tree, ma: Manifest, b: Tree, mb: Manifest)
    returns (labels: seq<Label>)
    requires w.matches(a, ma) && w.matches(b, mb) && FaithfulRefs(w) && !w.matches(b, ma)
    ensures NoEdits(labels)
    ensures |labels| >= 2 && labels[|labels| - 2..] == [Decide(0), Append(0)]
    ensures var t := Run(w, labels).trace;
            && t != [] && t[|t| - 1] == Stamped(0, Some(b), Some(w.refOf(ma)))
            && !StampExact(w, t[|t| - 1])
  {
    var before, after := Disk(map[path := a], Some(ma)), Disk(map[path := b], Some(mb));
    labels := Overlapping(path, before, after);
    OverlappingHasNoEdits(path, before, after);
    OverlappingEndsIn(w, path, a, ma, b, mb);
    WrongStamp(w, a, ma, b, Stamped(0, Some(b), Some(w.refOf(ma))));
  }

  lemma FaithfulPair(w: World, a: Tree, m: Manifest, b: Tree, m': Manifest)
    requires FaithfulRefs(w)
    ensures w.matches(a, m) && w.matches(b, m') && w.refOf(m) == w.refOf(m') ==> w.matches(a, m')
  {
  }

  lemma WrongStamp(w: World, a: Tree, ma: Manifest, b: Tree, e: Event)
    requires w.matches(a, ma) && FaithfulRefs(w) && !w.matches(b, ma)
    requires e.Stamped? && e.policy == Some(b) && e.ref == Some(w.refOf(ma))
    ensures !StampExact(w, e)
  {
    forall m | w.matches(b, m) ensures w.refOf(ma) != w.refOf(m) {
      FaithfulPair(w, b, m, a, ma);
    }
  }

  lemma OverlappingEndsIn(w: World, path: string, a: Tree, ma: Manifest, b: Tree, mb: Manifest)
    requires w.matches(a, ma) && w.matches(b, mb)
    ensures var t := Run(w, Overlapping(path, Disk(map[path := a], Some(ma)), Disk(map[path := b], Some(mb)))).trace;
            t != [] && t[|t| - 1] == Stamped(0, Some(b), Some(w.refOf(ma)))
  {
    var before, after := Disk(map[path := a], Some(ma)), Disk(map[path := b], Some(mb));
    var start := [Edit(before)];
    assert start == [] + [Edit(before)];
    RunAppend(w, [], Edit(before));
    CheckPrepareSwap(w, start, 1, path);
    var one := start + [Check(1, path, Snapshot)] + [Prepare(1, true, Snapshot)] + [Swap(1)];
    RunAppend(w, one, Edit(after));
    var mid := one + [Edit(after)];
    CheckPrepareSwap(w, mid, 2, path);
    var two := mid + [Check(2, path, Snapshot)] + [Prepare(2, true, Snapshot)] + [Swap(2)];
    CommitInOrder(w, two, 2, 1);
    DecideAndAppend(w, two + [Commit(2)] + [Commit(1)], 0);
    assert Overlapping(path, before, after) == two + [Commit(2)] + [Commit(1)] + [Decide(0)] + [Append(0)];
  }

  /** A reload that has put B in force and not committed yet. */
  function Reloading(path: string, before: Disk, after: Disk): seq<Label> {
    [Edit(before)] + [Check(1, path, Snapshot)] + [Prepare(1, true, Snapshot)] + [Swap(1)] + [Commit(1)]
    + [Edit(after)] + [Check(2, path, Snapshot)] + [Prepare(2, true, Snapshot)] + [Swap(2)]
    + [Decide(0)] + [Append(0)]
  }

  /** A load commits before the next one puts its policy in force. */
  ghost predicate SwapsCommit(labels: seq<Label>) {
    forall i, j | 0 <= i < j < |labels| && labels[i].Swap? && labels[j].Swap? ::
      exists n :: i < n < j && labels[n] == Commit(labels[i].lid)
  }

  lemma ReloadingIsOrdered(path: string, before: Disk, after: Disk)
    ensures NoEdits(Reloading(path, before, after)) && SwapsCommit(Reloading(path, before, after))
  {
    assert Reloading(path, before, after)[4] == Commit(1);
  }

  lemma ReloadingEndsIn(w: World, path: string, a: Tree, ma: Manifest, b: Tree, mb: Manifest)
    requires w.matches(a, ma) && w.matches(b, mb)
    ensures var t := Run(w, Reloading(path, Disk(map[path := a], Some(ma)), Disk(map[path := b], Some(mb)))).trace;
            t != [] && t[|t| - 1] == Stamped(0, Some(b), Some(w.refOf(ma)))
  {
    var before, after := Disk(map[path := a], Some(ma)), Disk(map[path := b], Some(mb));
    var start := [Edit(before)];
    assert start == [] + [Edit(before)];
    EditStep(w, [], before);
    CheckPrepareSwap(w, start, 1, path);
    var one := start + [Check(1, path, Snapshot)] + [Prepare(1, true, Snapshot)] + [Swap(1)];
    CommitStep(w, one, 1);
    EditStep(w, one + [Commit(1)], after);
    var mid := one + [Commit(1)] + [Edit(after)];
    CheckPrepareSwap(w, mid, 2, path);
    var two := mid + [Check(2, path, Snapshot)] + [Prepare(2, true, Snapshot)] + [Swap(2)];
    DecideAndAppend(w, two, 0);
    assert Reloading(path, before, after) == two + [Decide(0)] + [Append(0)];
  }

  /** One reload alone is enough: it puts its policy in force before Active names
      it, so a request decided and recorded in between is stamped with the old
      bundle A while B decides. Loads do not overlap, nothing is edited under
      way, and nothing at all falls between the decision and its record. */
  lemma RecordInsideReloadMisattributed(w: World, path: string, a: Tree, ma: Manifest, b: Tree, mb: Manifest)
    returns (labels: seq<Label>)
    requires w.matches(a, ma) && w.matches(b, mb) && FaithfulRefs(w) && !w.matches(b, ma)
    ensures NoEdits(labels) && SwapsCommit(labels)
    ensures |labels| >= 2 && labels[|labels| - 2..] == [Decide(0), Append(0)]
    ensures var t := Run(w, labels).trace;
            && t != [] && t[|t| - 1] == Stamped(0, Some(b), Some(w.refOf(ma)))
            && !StampExact(w, t[|t| - 1])
  {
    labels := Reloading(path, Disk(map[path := a], Some(ma)), Disk(map[path := b], Some(mb)));
    ReloadingIsOrdered(path, Disk(map[path := a], Some(ma)), Disk(map[path := b], Some(mb)));
    ReloadingEndsIn(w, path, a, ma, b, mb);
    WrongStamp(w, a, ma, b, Stamped(0, Some(b), Some(w.refOf(ma))));
  }

  // ---------- an undisturbed load ----------

  /** What Active reports. */
  function ActiveRef(w: World, active: Option<Manifest>): PolicyBundleRef {
    if active.Some? then w.refOf(active.value) else NO_BUNDLE
  }

  function SoloSteps(w: World, s: State, lid: nat, path: string, later: Disk, ok: bool): State {
    var checked := Step(w, s, Check(lid, path, Snapshot));
    var ready := Step(w, Step(w, checked, Edit(later)), Prepare(lid, ok, Snapshot));
    Step(w, Step(w, ready, Swap(lid)), Commit(lid))
  }

  /** The steps of one load, taken without other steps in between save an edit
      of the disk, do what the loader's Load does. */
  lemma SoloLoadIsLoad(k: Crypto, pub: string, s: State, lid: nat, path: string, was: string, later: Disk,
                       compiles: Tree -> bool)
    requires lid !in s.loads
    ensures var w := WorldOf(k, pub);
            var ok := path in later.bundles && compiles(later.bundles[path]);
            var s' := SoloSteps(w, s, lid, path, later, ok);
            var r := LoadResult(k, pub, Loaded(s.prepared, was, ActiveRef(w, s.active)), path, s.disk, later, compiles);
            s'.prepared == r.prepared && ActiveRef(w, s'.active) == r.active
  {
    var w := WorldOf(k, pub);
    assert PassingManifest(w, s.disk, Seen(s.disk, path, Snapshot)) == VerifiedManifest(k, pub, s.disk, path);
  }
}
