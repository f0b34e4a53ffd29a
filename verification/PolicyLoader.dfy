/** The policy decision point and the loader that verifies before it compiles
    (pkg/policy/opa.go, pkg/policyservice/loader.go). */
module PolicyLoader {
  import opened Types
  import opened BundleInventory
  import opened Inventory
  import opened PolicyBundle

  type Tree = seq<Entry>

  /** What a load finds: bundles by path, and the manifest file if it parses. */
  datatype Disk = Disk(bundles: map<string, Tree>, manifest: Option<Manifest>)

  predicate DiskWellFormed(d: Disk) {
    forall path | path in d.bundles :: WellFormed(d.bundles[path])
  }

  const NO_BUNDLE := PolicyBundleRef("", "")

  function RefOf(k: Crypto, m: Manifest): (ref: PolicyBundleRef)
    ensures ref != NO_BUNDLE
  {
    var digest := Digest(k, m);
    assert |digest| >= 7;
    PolicyBundleRef(m.version, digest)
  }

  // ---------- decisions ----------

  /** How evaluating the compiled policy on a request can end. */
  datatype Evaluation =
    | InputError | EvalError | Undefined | ResultError | ParseError
    | Answer(outcome: string, policyId: string, reason: string, obligations: seq<Obligation>)

  function DenyBecause(policyId: string, reason: string): Decision {
    Decision(Deny, [], policyId, reason)
  }

  /** The policy id that names how an evaluation failed. */
  function FailureId(e: Evaluation): string
    requires !e.Answer?
  {
    match e
    case InputError => "input_marshal_error"
    case EvalError => "policy_eval_error"
    case Undefined => "policy_undefined"
    case ResultError => "result_marshal_error"
    case ParseError => "result_parse_error"
  }

  /** Decide: one success path per allow outcome, everything else denies. */
  function Normalise(loaded: bool, e: Evaluation): (d: Decision)
    ensures Permits(d) <==> loaded && e.Answer? && e.outcome in {"allow", "allow_with_obligations"}
    ensures d.outcome == AllowWithObligations ==> d.obligations == e.obligations
    ensures d.outcome != AllowWithObligations ==> d.obligations == []
    ensures !d.outcome.Unrecognized?
    ensures loaded && e.Answer? && e.outcome == "allow_with_obligations" ==>
              d == Decision(AllowWithObligations, e.obligations, e.policyId, e.reason)
    ensures loaded && e.Answer? && e.outcome == "allow" ==> d == Decision(Allow, [], e.policyId, e.reason)
    ensures loaded && e.Answer? && e.outcome == "deny" ==> d == Decision(Deny, [], e.policyId, e.reason)
    ensures loaded && e.Answer? && e.outcome !in {"allow", "allow_with_obligations", "deny"} ==>
              d.outcome == Deny && d.policyId == "unrecognized_outcome"
    ensures !loaded ==> d.outcome == Deny && d.policyId == "no_policy_loaded"
    ensures loaded && !e.Answer? ==> d.outcome == Deny && d.policyId == FailureId(e)
  {
    if !loaded then DenyBecause("no_policy_loaded", "no policy bundle has been loaded")
    else
      match e
      case InputError => DenyBecause("input_marshal_error", "could not build policy input")
      case EvalError => DenyBecause("policy_eval_error", "policy evaluation failed")
      case Undefined => DenyBecause("policy_undefined", "policy did not produce a decision for this input")
      case ResultError => DenyBecause("result_marshal_error", "could not read policy result")
      case ParseError => DenyBecause("result_parse_error", "policy result did not match the expected shape")
      case Answer(outcome, policyId, reason, obligations) =>
        if outcome == "allow" then Decision(Allow, [], policyId, reason)
        else if outcome == "allow_with_obligations" then Decision(AllowWithObligations, obligations, policyId, reason)
        else if outcome == "deny" then Decision(Deny, [], policyId, reason)
        else DenyBecause("unrecognized_outcome", "policy returned unrecognized outcome " + outcome)
  }

  // ---------- the inner loader ----------

  /** A failed load or reload leaves the policy in force. */
  class OPADecider {
    var prepared: Option<Tree>
    var path: string

    constructor ()
      ensures prepared == None && path == ""
    {
      prepared, path := None, "";
    }

    method Load(newPath: string, disk: Disk, compiles: Tree -> bool) returns (ok: bool)
      modifies this
      ensures ok <==> newPath in disk.bundles && compiles(disk.bundles[newPath])
      ensures ok ==> prepared == Some(disk.bundles[newPath]) && path == newPath
      ensures !ok ==> prepared == old(prepared) && path == old(path)
    {
      if newPath !in disk.bundles || !compiles(disk.bundles[newPath]) {
        return false;
      }
      path, prepared := newPath, Some(disk.bundles[newPath]);
      return true;
    }

    method Reload(disk: Disk, compiles: Tree -> bool) returns (ok: bool)
      modifies this
      ensures ok <==> old(path) != "" && old(path) in disk.bundles && compiles(disk.bundles[old(path)])
      ensures ok ==> prepared == Some(disk.bundles[old(path)])
      ensures !ok ==> prepared == old(prepared)
      ensures path == old(path)
    {
      if path == "" {
        return false;
      }
      ok := Load(path, disk, compiles);
    }

    predicate Ready()
      reads this
    {
      prepared.Some?
    }
  }

  // ---------- the verifying loader ----------

  /** The three places a successful load changes, as one value. */
  datatype Loaded = Loaded(prepared: Option<Tree>, path: string, active: PolicyBundleRef)

  const UNLOADED := Loaded(None, "", NO_BUNDLE)

  /** The manifest a path verifies against, if it does. */
  function VerifiedManifest(k: Crypto, pub: string, disk: Disk, path: string): Option<Manifest> {
    if disk.manifest.Some? && path in disk.bundles && Matches(k, disk.bundles[path], disk.manifest.value, pub)
    then disk.manifest else None
  }

  /** One Load: verify on one view of the disk, compile on a possibly later one. */
  function LoadResult(k: Crypto, pub: string, s: Loaded, path: string, atVerify: Disk, atCompile: Disk,
                      compiles: Tree -> bool): Loaded {
    match VerifiedManifest(k, pub, atVerify, path)
    case None => s
    case Some(m) =>
      if path in atCompile.bundles && compiles(atCompile.bundles[path])
      then Loaded(Some(atCompile.bundles[path]), path, RefOf(k, m))
      else s
  }

  class VerifyingLoader {
    const k: Crypto
    const pub: string
    const inner: OPADecider
    var path: string
    var active: PolicyBundleRef
    /** How often the inner loader was asked to load. */
    ghost var offered: nat

    constructor (k: Crypto, pub: string, inner: OPADecider)
      requires inner.prepared == None && inner.path == ""
      ensures this.k == k && this.pub == pub && this.inner == inner
      ensures State() == UNLOADED && offered == 0
    {
      this.k, this.pub, this.inner := k, pub, inner;
      path, active, offered := "", NO_BUNDLE, 0;
    }

    ghost function State(): Loaded
      reads this, inner
    {
      Loaded(inner.prepared, path, active)
    }

    /** verify: read the manifest, check the bundle, name the reference. */
    method VerifyBundle(bundlePath: string, disk: Disk) returns (ref: Option<PolicyBundleRef>)
      requires DiskWellFormed(disk)
      ensures ref == match VerifiedManifest(k, pub, disk, bundlePath)
                     case Some(m) => Some(RefOf(k, m))
                     case None => None
    {
      if disk.manifest.None? || bundlePath !in disk.bundles {
        return None;
      }
      var v := Verify(k, disk.bundles[bundlePath], disk.manifest.value, pub);
      if v != Verified {
        return None;
      }
      return Some(RefOf(k, disk.manifest.value));
    }

    /** Load: the compiled policy, the path and the active reference change
        together on full success and not at all otherwise, and the inner loader
        is not asked about a bundle that failed verification. */
    method Load(newPath: string, atVerify: Disk, atCompile: Disk, compiles: Tree -> bool) returns (ok: bool)
      requires DiskWellFormed(atVerify)
      modifies this, inner
      ensures State() == LoadResult(k, pub, old(State()), newPath, atVerify, atCompile, compiles)
      ensures ok <==> VerifiedManifest(k, pub, atVerify, newPath).Some?
                      && newPath in atCompile.bundles && compiles(atCompile.bundles[newPath])
      ensures offered == old(offered) + if VerifiedManifest(k, pub, atVerify, newPath).Some? then 1 else 0
    {
      var ref := VerifyBundle(newPath, atVerify);
      if ref.None? {
        return false;
      }
      offered := offered + 1;
      ok := inner.Load(newPath, atCompile, compiles);
      if !ok {
        return;
      }
      path, active := newPath, ref.value;
    }

    method Reload(atVerify: Disk, atCompile: Disk, compiles: Tree -> bool) returns (ok: bool)
      requires DiskWellFormed(atVerify)
      modifies this, inner
      ensures State() == if old(path) == "" then old(State())
                         else LoadResult(k, pub, old(State()), old(path), atVerify, atCompile, compiles)
      ensures path == old(path)
    {
      if path == "" {
        return false;
      }
      ok := Load(path, atVerify, atCompile, compiles);
    }
  }

  // ---------- stamping ----------

  /** StampingStore over a loader and an inner store that keeps its records. */
  class StampingStore {
    const loader: VerifyingLoader
    var records: seq<ActionRecord>

    constructor (loader: VerifyingLoader)
      ensures this.loader == loader && records == []
    {
      this.loader, records := loader, [];
    }

    /** Append: the reference of the bundle active now, or none before the first
        load; whatever reference the record arrives with is discarded. */
    method Append(rec: ActionRecord, innerOk: bool) returns (ok: bool)
      modifies this
      ensures ok == innerOk
      ensures records == if ok then old(records) + [rec.(policyBundle :=
                           if loader.active == NO_BUNDLE then None else Some(loader.active))]
                         else old(records)
    {
      var stamped := rec.(policyBundle := None);
      if loader.active != NO_BUNDLE {
        stamped := stamped.(policyBundle := Some(loader.active));
      }
      if innerOk {
        records := records + [stamped];
      }
      return innerOk;
    }
  }

  // ---------- sequences of loads ----------

  datatype LoadOp =
    | Load(path: string, atVerify: Disk, atCompile: Disk)
    | Reload(atVerify: Disk, atCompile: Disk)

  function ApplyLoad(k: Crypto, pub: string, compiles: Tree -> bool, s: Loaded, op: LoadOp): Loaded {
    match op
    case Load(path, v, c) => LoadResult(k, pub, s, path, v, c, compiles)
    case Reload(v, c) => if s.path == "" then s else LoadResult(k, pub, s, s.path, v, c, compiles)
  }

  function ApplyLoads(k: Crypto, pub: string, compiles: Tree -> bool, ops: seq<LoadOp>): Loaded {
    if ops == [] then UNLOADED
    else ApplyLoad(k, pub, compiles, ApplyLoads(k, pub, compiles, ops[..|ops| - 1]), ops[|ops| - 1])
  }

  // Which operation succeeded is said without the loader's state: by the
  // operations themselves and what they find on disk.

  /** Operation `i` loads this path: its own, or the one of the last success
      before it. A reload before any success, or after a load of the empty path,
      has none. */
  function PathTried(k: Crypto, pub: string, compiles: Tree -> bool, ops: seq<LoadOp>, i: nat): Option<string>
    requires i < |ops|
    decreases i, 1
  {
    match ops[i]
    case Load(path, _, _) => Some(path)
    case Reload(_, _) =>
      (match LastSuccess(k, pub, compiles, ops, i)
       case None => None
       case Some(j) =>
         var path := PathTried(k, pub, compiles, ops, j);
         if path == Some("") then None else path)
  }

  /** Operation `i` verifies and compiles. */
  predicate Succeeds(k: Crypto, pub: string, compiles: Tree -> bool, ops: seq<LoadOp>, i: nat)
    requires i < |ops|
    decreases i, 2
  {
    match PathTried(k, pub, compiles, ops, i)
    case None => false
    case Some(path) =>
      && VerifiedManifest(k, pub, ops[i].atVerify, path).Some?
      && path in ops[i].atCompile.bundles && compiles(ops[i].atCompile.bundles[path])
  }

  /** The last success among the first `n` operations. */
  function LastSuccess(k: Crypto, pub: string, compiles: Tree -> bool, ops: seq<LoadOp>, n: nat): (r: Option<nat>)
    requires n <= |ops|
    ensures r.Some? ==> r.value < n
    decreases n, 0
  {
    if n == 0 then None
    else if Succeeds(k, pub, compiles, ops, n - 1) then Some(n - 1)
    else LastSuccess(k, pub, compiles, ops, n - 1)
  }

  /** What the last success leaves: the tree it compiled, its path and the
      reference of the manifest it verified. */
  function LeftBy(k: Crypto, pub: string, compiles: Tree -> bool, ops: seq<LoadOp>, i: nat): Loaded
    requires i < |ops| && Succeeds(k, pub, compiles, ops, i)
  {
    var path := PathTried(k, pub, compiles, ops, i).value;
    Loaded(Some(ops[i].atCompile.bundles[path]), path, RefOf(k, VerifiedManifest(k, pub, ops[i].atVerify, path).value))
  }

  lemma {:induction false} LastSuccessIsLast(k: Crypto, pub: string, compiles: Tree -> bool, ops: seq<LoadOp>, n: nat)
    requires n <= |ops|
    ensures match LastSuccess(k, pub, compiles, ops, n)
            case None => forall j | 0 <= j < n :: !Succeeds(k, pub, compiles, ops, j)
            case Some(i) =>
              Succeeds(k, pub, compiles, ops, i) && forall j | i < j < n :: !Succeeds(k, pub, compiles, ops, j)
  {
    if n > 0 && !Succeeds(k, pub, compiles, ops, n - 1) {
      LastSuccessIsLast(k, pub, compiles, ops, n - 1);
    }
  }

  /** The loader's state in terms of the operations so far. */
  ghost predicate StateIsLastSuccess(k: Crypto, pub: string, compiles: Tree -> bool, ops: seq<LoadOp>, n: nat)
    requires n <= |ops|
  {
    var s := ApplyLoads(k, pub, compiles, ops[..n]);
    match LastSuccess(k, pub, compiles, ops, n)
    case None => s == UNLOADED
    case Some(i) => Succeeds(k, pub, compiles, ops, i) && s == LeftBy(k, pub, compiles, ops, i)
  }

  lemma OneMoreLoad(k: Crypto, pub: string, compiles: Tree -> bool, ops: seq<LoadOp>, n: nat)
    requires n < |ops| && StateIsLastSuccess(k, pub, compiles, ops, n)
    ensures StateIsLastSuccess(k, pub, compiles, ops, n + 1)
  {
    assert ops[..n + 1][..n] == ops[..n];
    var s := ApplyLoads(k, pub, compiles, ops[..n]);
    assert ApplyLoads(k, pub, compiles, ops[..n + 1]) == ApplyLoad(k, pub, compiles, s, ops[n]);
    LoadTries(k, pub, compiles, ops, n, s);
  }

  /** One operation moves the state exactly when it succeeds. */
  lemma LoadTries(k: Crypto, pub: string, compiles: Tree -> bool, ops: seq<LoadOp>, n: nat, s: Loaded)
    requires n < |ops|
    requires match LastSuccess(k, pub, compiles, ops, n)
             case None => s == UNLOADED
             case Some(i) => Succeeds(k, pub, compiles, ops, i) && s == LeftBy(k, pub, compiles, ops, i)
    ensures ApplyLoad(k, pub, compiles, s, ops[n]) ==
            if Succeeds(k, pub, compiles, ops, n) then LeftBy(k, pub, compiles, ops, n) else s
  {
  }

  lemma {:induction false} StateFollowsLoads(k: Crypto, pub: string, compiles: Tree -> bool, ops: seq<LoadOp>, n: nat)
    requires n <= |ops|
    ensures StateIsLastSuccess(k, pub, compiles, ops, n)
  {
    if n > 0 {
      StateFollowsLoads(k, pub, compiles, ops, n - 1);
      OneMoreLoad(k, pub, compiles, ops, n - 1);
    }
  }

  /** Over every sequence of loads and reloads: the loader is unloaded exactly
      when no operation succeeded; otherwise compiled policy, path and active
      reference are all those of the last operation that did. */
  lemma LoaderStaysConsistent(k: Crypto, pub: string, compiles: Tree -> bool, ops: seq<LoadOp>)
    returns (last: Option<nat>)
    ensures match last
            case None =>
              && ApplyLoads(k, pub, compiles, ops) == UNLOADED
              && forall j | 0 <= j < |ops| :: !Succeeds(k, pub, compiles, ops, j)
            case Some(i) =>
              && i < |ops| && Succeeds(k, pub, compiles, ops, i)
              && (forall j | i < j < |ops| :: !Succeeds(k, pub, compiles, ops, j))
              && ApplyLoads(k, pub, compiles, ops) == LeftBy(k, pub, compiles, ops, i) != UNLOADED
  {
    assert ops[..|ops|] == ops;
    StateFollowsLoads(k, pub, compiles, ops, |ops|);
    LastSuccessIsLast(k, pub, compiles, ops, |ops|);
    last := LastSuccess(k, pub, compiles, ops, |ops|);
  }

  lemma {:induction false} LoadedHasReference(k: Crypto, pub: string, compiles: Tree -> bool, ops: seq<LoadOp>)
    ensures var s := ApplyLoads(k, pub, compiles, ops); s.prepared.Some? <==> s.active != NO_BUNDLE
  {
    if ops != [] {
      LoadedHasReference(k, pub, compiles, ops[..|ops| - 1]);
    }
  }

  /** Once a policy is loaded, no later sequence of loads takes it away. */
  lemma {:induction false} NeverUnloads(k: Crypto, pub: string, compiles: Tree -> bool, ops: seq<LoadOp>,
                                        more: seq<LoadOp>)
    requires ApplyLoads(k, pub, compiles, ops).prepared.Some?
    ensures ApplyLoads(k, pub, compiles, ops + more).prepared.Some?
    ensures ApplyLoads(k, pub, compiles, ops + more).active != NO_BUNDLE
    decreases |more|
  {
    if more == [] {
      assert ops + more == ops;
      LoadedHasReference(k, pub, compiles, ops);
    } else {
      assert (ops + more)[..|ops + more| - 1] == ops + more[..|more| - 1];
      NeverUnloads(k, pub, compiles, ops, more[..|more| - 1]);
    }
  }
}
