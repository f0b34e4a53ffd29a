/** Loads, edits, decisions and record stamps interleaved: what the bundle
    reference on a record says (pkg/policyservice/loader.go, stamp.go). */
module PolicyRuns {
  import opened Types
  import opened BundleInventory
  import opened Inventory
  import opened PolicyBundle
  import opened PolicyLoader

  /** Where a VerifyingLoader.Load stands: verified; files read and compiled
      but not yet in force; in force but not yet named by Active; done. Nothing
      holds a lock across these steps. */
  datatype LoadPhase =
    | Checked(path: string, m: Manifest)
    | Prepared(m: Manifest, tree: Tree)
    | InForce(m: Manifest)
    | Ended

  datatype Event =
    | Passed(lid: nat, path: string, tree: Tree, m: Manifest)
    | Offered(lid: nat, path: string, got: Option<Tree>)
    | Swapped(lid: nat)
    | Committed(lid: nat, m: Manifest)
    | DecidedBy(rid: nat, policy: Option<Tree>)
    | Stamped(rid: nat, policy: Option<Tree>, ref: Option<PolicyBundleRef>)
    | Marked(ref: Option<PolicyBundleRef>)

  datatype State = State(
    disk: Disk,
    loads: map<nat, LoadPhase>,
    prepared: Option<Tree>,
    active: Option<Manifest>,
    decided: map<nat, Option<Tree>>,
    trace: seq<Event>)

  /** What a walk over the bundle reads: the disk as it is, or, when files change
      while the walk is under way, any mixture of old and new. */
  datatype View = Snapshot | Mixed(tree: Tree)

  datatype Label =
    | Edit(disk: Disk)
    | Check(lid: nat, path: string, view: View)
    | Prepare(lid: nat, ok: bool, view: View)
    | Swap(lid: nat)
    | Commit(lid: nat)
    | Decide(rid: nat)
    | Append(rid: nat)
    | Note

  /** Which trees match which manifests, and the reference a manifest yields. */
  datatype World = World(matches: (Tree, Manifest) -> bool, refOf: Manifest -> PolicyBundleRef)

  /** The world of a loader with these primitives and this public key. */
  function WorldOf(k: Crypto, pub: string): World {
    World((tree: Tree, m: Manifest) => Matches(k, tree, m, pub), (m: Manifest) => RefOf(k, m))
  }

  function Seen(disk: Disk, path: string, view: View): Option<Tree> {
    match view
    case Mixed(tree) => Some(tree)
    case Snapshot => if path in disk.bundles then Some(disk.bundles[path]) else None
  }

  /** verify: the manifest on disk, if the bundle the walk saw matches it. */
  function PassingManifest(w: World, disk: Disk, seen: Option<Tree>): Option<Manifest> {
    if disk.manifest.Some? && seen.Some? && w.matches(seen.value, disk.manifest.value) then disk.manifest else None
  }

  function Initial(): State {
    State(Disk(map[], None), map[], None, None, map[], [])
  }

  /** StampingStore.Append: the stamp is whatever bundle is active at the append. */
  function StampOf(w: World, active: Option<Manifest>): Option<PolicyBundleRef> {
    match active
    case Some(m) => Some(w.refOf(m))
    case None => None
  }

  /** A decision may be recorded any number of times: the gateways write a
      second record for the outcome of an allowed call. A record no policy
      decided, such as a gate denial, is stamped too. */
  function Step(w: World, s: State, l: Label): State {
    match l
    case Edit(disk) => s.(disk := disk)
    case Check(lid, path, view) =>
      var seen := Seen(s.disk, path, view);
      var m := PassingManifest(w, s.disk, seen);
      if lid in s.loads || m.None? then s
      else s.(loads := s.loads[lid := Checked(path, m.value)],
              trace := s.trace + [Passed(lid, path, seen.value, m.value)])
    case Prepare(lid, ok, view) =>
      if lid !in s.loads || !s.loads[lid].Checked? then s
      else
        var path, m := s.loads[lid].path, s.loads[lid].m;
        var seen := Seen(s.disk, path, view);
        if ok && seen.Some?
        then s.(loads := s.loads[lid := Prepared(m, seen.value)], trace := s.trace + [Offered(lid, path, seen)])
        else s.(loads := s.loads[lid := Ended], trace := s.trace + [Offered(lid, path, None)])
    case Swap(lid) =>
      if lid !in s.loads || !s.loads[lid].Prepared? then s
      else s.(prepared := Some(s.loads[lid].tree), loads := s.loads[lid := InForce(s.loads[lid].m)],
              trace := s.trace + [Swapped(lid)])
    case Commit(lid) =>
      if lid !in s.loads || !s.loads[lid].InForce? then s
      else s.(active := Some(s.loads[lid].m), loads := s.loads[lid := Ended],
              trace := s.trace + [Committed(lid, s.loads[lid].m)])
    case Decide(rid) =>
      if rid in s.decided then s
      else s.(decided := s.decided[rid := s.prepared], trace := s.trace + [DecidedBy(rid, s.prepared)])
    case Append(rid) =>
      if rid !in s.decided then s
      else s.(trace := s.trace + [Stamped(rid, s.decided[rid], StampOf(w, s.active))])
    case Note => s.(trace := s.trace + [Marked(StampOf(w, s.active))])
  }

  function Run(w: World, labels: seq<Label>): State {
    if labels == [] then Initial() else Step(w, Run(w, labels[..|labels| - 1]), labels[|labels| - 1])
  }

  // ---------- every stamp names a verified and compiled bundle ----------

  /** In this trace, some load verified a bundle against `m` and afterwards
      compiled its path successfully. */
  predicate BackedBy(w: World, t: seq<Event>, m: Manifest, a: nat, b: nat) {
    && a < b < |t|
    && t[a].Passed? && t[a].m == m && w.matches(t[a].tree, m)
    && t[b].Offered? && t[b].lid == t[a].lid && t[b].path == t[a].path && t[b].got.Some?
  }

  ghost predicate Backed(w: World, t: seq<Event>, m: Manifest) {
    exists a: nat, b: nat :: BackedBy(w, t, m, a, b)
  }

  predicate PassedIn(w: World, t: seq<Event>, lid: nat, path: string, m: Manifest) {
    exists a :: 0 <= a < |t| && t[a].Passed? && t[a].lid == lid && t[a].path == path && t[a].m == m
                && w.matches(t[a].tree, m)
  }

  ghost predicate StampBacked(w: World, t: seq<Event>, i: nat)
    requires i < |t|
  {
    (t[i].Stamped? || t[i].Marked?) && t[i].ref.Some? ==>
      exists m :: Backed(w, t[..i], m) && t[i].ref.value == w.refOf(m)
  }

  ghost predicate OfferPassed(w: World, t: seq<Event>, i: nat)
    requires i < |t|
  {
    t[i].Offered? ==> exists m :: PassedIn(w, t[..i], t[i].lid, t[i].path, m)
  }

  ghost predicate HistoryInvariant(w: World, s: State) {
    && (s.active.Some? ==> Backed(w, s.trace, s.active.value))
    && (forall lid | lid in s.loads && s.loads[lid].Checked? ::
          PassedIn(w, s.trace, lid, s.loads[lid].path, s.loads[lid].m))
    && (forall lid | lid in s.loads && (s.loads[lid].Prepared? || s.loads[lid].InForce?) ::
          Backed(w, s.trace, s.loads[lid].m))
    && (forall i | 0 <= i < |s.trace| :: StampBacked(w, s.trace, i) && OfferPassed(w, s.trace, i))
  }

  lemma BackedGrows(w: World, t: seq<Event>, u: seq<Event>, m: Manifest)
    requires Backed(w, t, m) && t <= u
    ensures Backed(w, u, m)
  {
    var a: nat, b: nat :| BackedBy(w, t, m, a, b);
    assert BackedBy(w, u, m, a, b);
  }

  lemma PassedGrows(w: World, t: seq<Event>, u: seq<Event>, lid: nat, path: string, m: Manifest)
    requires PassedIn(w, t, lid, path, m) && t <= u
    ensures PassedIn(w, u, lid, path, m)
  {
    var a :| 0 <= a < |t| && t[a].Passed? && t[a].lid == lid && t[a].path == path && t[a].m == m
             && w.matches(t[a].tree, m);
    assert u[a] == t[a];
  }

  lemma CompiledIsBacked(w: World, t: seq<Event>, lid: nat, path: string, m: Manifest, tree: Tree)
    requires PassedIn(w, t, lid, path, m)
    ensures Backed(w, t + [Offered(lid, path, Some(tree))], m)
  {
    var a :| 0 <= a < |t| && t[a].Passed? && t[a].lid == lid && t[a].path == path && t[a].m == m
             && w.matches(t[a].tree, m);
    assert BackedBy(w, t + [Offered(lid, path, Some(tree))], m, a, |t|);
  }

  lemma OldEventsStay(w: World, t: seq<Event>, u: seq<Event>)
    requires t <= u && forall i | 0 <= i < |t| :: StampBacked(w, t, i) && OfferPassed(w, t, i)
    ensures forall i | 0 <= i < |t| :: StampBacked(w, u, i) && OfferPassed(w, u, i)
  {
    forall i | 0 <= i < |t| ensures StampBacked(w, u, i) && OfferPassed(w, u, i) {
      assert u[..i] == t[..i];
      assert StampBacked(w, t, i) && OfferPassed(w, t, i);
    }
  }

  lemma ActiveStep(w: World, s: State, l: Label)
    requires HistoryInvariant(w, s)
    ensures var s' := Step(w, s, l); s'.active.Some? ==> Backed(w, s'.trace, s'.active.value)
  {
    var u := Step(w, s, l).trace;
    if s.active.Some? {
      BackedGrows(w, s.trace, u, s.active.value);
    }
    if l.Commit? && l.lid in s.loads && s.loads[l.lid].InForce? {
      BackedGrows(w, s.trace, u, s.loads[l.lid].m);
    }
  }

  lemma CheckedHistoryStep(w: World, s: State, l: Label, lid: nat)
    requires HistoryInvariant(w, s) && lid in Step(w, s, l).loads && Step(w, s, l).loads[lid].Checked?
    ensures var s' := Step(w, s, l); PassedIn(w, s'.trace, lid, s'.loads[lid].path, s'.loads[lid].m)
  {
    var s' := Step(w, s, l);
    if lid in s.loads {
      PassedGrows(w, s.trace, s'.trace, lid, s.loads[lid].path, s.loads[lid].m);
    } else {
      assert s'.trace[|s.trace|] == Passed(lid, l.path, Seen(s.disk, l.path, l.view).value, s'.loads[lid].m);
    }
  }

  lemma BackedHistoryStep(w: World, s: State, l: Label, lid: nat)
    requires HistoryInvariant(w, s) && lid in Step(w, s, l).loads
    requires Step(w, s, l).loads[lid].Prepared? || Step(w, s, l).loads[lid].InForce?
    ensures Backed(w, Step(w, s, l).trace, Step(w, s, l).loads[lid].m)
  {
    var s' := Step(w, s, l);
    assert lid in s.loads;
    if s.loads[lid].Checked? {
      CompiledIsBacked(w, s.trace, lid, s.loads[lid].path, s.loads[lid].m, s'.loads[lid].tree);
    } else {
      BackedGrows(w, s.trace, s'.trace, s.loads[lid].m);
    }
  }

  lemma EventsStep(w: World, s: State, l: Label, i: nat)
    requires HistoryInvariant(w, s) && i < |Step(w, s, l).trace|
    ensures StampBacked(w, Step(w, s, l).trace, i) && OfferPassed(w, Step(w, s, l).trace, i)
  {
    var t, u := s.trace, Step(w, s, l).trace;
    assert t <= u && |u| <= |t| + 1;
    if i < |t| {
      OldEventsStay(w, t, u);
    } else {
      assert u[..i] == t;
      if l.Prepare? {
        assert PassedIn(w, t, l.lid, s.loads[l.lid].path, s.loads[l.lid].m);
      }
    }
  }

  lemma HistoryStep(w: World, s: State, l: Label)
    requires HistoryInvariant(w, s)
    ensures HistoryInvariant(w, Step(w, s, l))
  {
    var s' := Step(w, s, l);
    ActiveStep(w, s, l);
    forall lid | lid in s'.loads
      ensures s'.loads[lid].Checked? ==> PassedIn(w, s'.trace, lid, s'.loads[lid].path, s'.loads[lid].m)
      ensures s'.loads[lid].Prepared? || s'.loads[lid].InForce? ==> Backed(w, s'.trace, s'.loads[lid].m)
    {
      if s'.loads[lid].Checked? {
        CheckedHistoryStep(w, s, l, lid);
      } else if !s'.loads[lid].Ended? {
        BackedHistoryStep(w, s, l, lid);
      }
    }
    forall i | 0 <= i < |s'.trace| ensures StampBacked(w, s'.trace, i) && OfferPassed(w, s'.trace, i) {
      EventsStep(w, s, l, i);
    }
  }

  lemma {:induction false} HistoryHolds(w: World, labels: seq<Label>)
    ensures HistoryInvariant(w, Run(w, labels))
  {
    if labels != [] {
      HistoryHolds(w, labels[..|labels| - 1]);
      HistoryStep(w, Run(w, labels[..|labels| - 1]), labels[|labels| - 1]);
    }
  }

  /** With no restriction on the run, every stamp, on whatever record, names a
      bundle that verified, and whose compile step succeeded, earlier in the run. */
  lemma StampNamesVerifiedBundle(w: World, labels: seq<Label>, i: nat) returns (m: Manifest, a: nat, b: nat)
    requires i < |Run(w, labels).trace|
    requires var e := Run(w, labels).trace[i]; (e.Stamped? || e.Marked?) && e.ref.Some?
    ensures BackedBy(w, Run(w, labels).trace[..i], m, a, b)
    ensures Run(w, labels).trace[i].ref.value == w.refOf(m)
  {
    HistoryHolds(w, labels);
    var t := Run(w, labels).trace;
    assert StampBacked(w, t, i);
    m :| Backed(w, t[..i], m) && t[i].ref.value == w.refOf(m);
    a, b :| BackedBy(w, t[..i], m, a, b);
  }

  /** The compiler is never given a path that did not verify in the same load. */
  lemma CompilerOnlySeesVerified(w: World, labels: seq<Label>, i: nat) returns (m: Manifest)
    requires i < |Run(w, labels).trace| && Run(w, labels).trace[i].Offered?
    ensures var t := Run(w, labels).trace; PassedIn(w, t[..i], t[i].lid, t[i].path, m)
  {
    HistoryHolds(w, labels);
    var t := Run(w, labels).trace;
    assert OfferPassed(w, t, i);
    m :| PassedIn(w, t[..i], t[i].lid, t[i].path, m);
  }

  // ---------- what a stamp should say ----------

  /** The stamp names a manifest whose listed contents are exactly what the
      deciding policy was compiled from; no policy, no stamp. */
  ghost predicate StampExact(w: World, e: Event) {
    e.Stamped? ==>
      match e.policy
      case Some(tree) => exists m :: w.matches(tree, m) && e.ref == Some(w.refOf(m))
      case None => e.ref == None
  }
}
