/** Both gateways write to one hash-chained file. What their runs promise about
    records therefore is a promise about the lines of that file. */
module SharedLedger {
  import opened Types
  import opened Interleaving
  import opened FileLedger
  import opened TornWrites
  import T = ToolGateway
  import TR = ToolGatewayRuns
  import M = ModelGateway
  import MR = ModelGatewayRuns
  import PR = PolicyRuns

  /** One append as a gateway sees it. */
  datatype Write = Write(record: ActionRecord, ok: bool)

  function ToolWrites(t: seq<Tagged<T.Event>>): seq<Write> {
    if t == [] then []
    else
      ToolWrites(t[..|t| - 1]) +
      match t[|t| - 1].event
      case Appended(record) => [Write(record, true)]
      case AppendFailed(record) => [Write(record, false)]
      case _ => []
  }

  function ModelWrites(t: seq<Tagged<M.Event>>): seq<Write> {
    if t == [] then []
    else
      ModelWrites(t[..|t| - 1]) +
      match t[|t| - 1].event
      case Appended(record) => [Write(record, true)]
      case AppendFailed(record) => [Write(record, false)]
      case _ => []
  }

  const TOOL_GATEWAY: nat := 0
  const MODEL_GATEWAY: nat := 1

  /** The store adds the bundle reference on the way to the file. */
  function StampedWith(record: ActionRecord, ref: Option<PolicyBundleRef>): ActionRecord {
    record.(policyBundle := ref)
  }

  /** An event that puts a reference, or its absence, on a record. */
  predicate Stamps(e: PR.Event) {
    e.Stamped? || e.Marked?
  }

  ghost predicate CarriedOut<C>(serialise: ActionRecord -> C, w: Write, ref: Option<PolicyBundleRef>, op: Op<C>) {
    op.Append? && (w.ok <==> op.fault == NoFault) && op.body == serialise(StampedWith(w.record, ref))
  }

  function AppendsOf<C>(ops: seq<Op<C>>): seq<Op<C>> {
    if ops == [] then []
    else AppendsOf(ops[..|ops| - 1]) + if ops[|ops| - 1].Append? then [ops[|ops| - 1]] else []
  }

  /** The store's appends are the two gateways' writes in some merged order, each
      stamped by its own event of the policy run. Concurrent appends may reach the
      file in another order than they were stamped in; checks, verifications and
      reopens may come in between. */
  ghost predicate Serves<C>(serialise: ActionRecord -> C, writes: seq<Tagged<Write>>,
                            policy: seq<PR.Event>, at: seq<nat>, ops: seq<Op<C>>) {
    && |AppendsOf(ops)| == |writes| == |at|
    && (forall i | 0 <= i < |at| :: at[i] < |policy| && Stamps(policy[at[i]]))
    && (forall i | 0 <= i < |writes| && at[i] < |policy| && Stamps(policy[at[i]]) ::
          CarriedOut(serialise, writes[i].event, policy[at[i]].ref, AppendsOf(ops)[i]))
  }

  lemma {:induction false} ToolWriteOf(t: seq<Tagged<T.Event>>, j: nat) returns (a: nat)
    requires j < |t| && t[j].event.Appended?
    ensures a < |ToolWrites(t)| && ToolWrites(t)[a] == Write(t[j].event.record, true)
  {
    if j < |t| - 1 {
      a := ToolWriteOf(t[..|t| - 1], j);
    } else {
      a := |ToolWrites(t)| - 1;
    }
  }

  lemma {:induction false} ModelWriteOf(t: seq<Tagged<M.Event>>, j: nat) returns (a: nat)
    requires j < |t| && t[j].event.Appended?
    ensures a < |ModelWrites(t)| && ModelWrites(t)[a] == Write(t[j].event.record, true)
  {
    if j < |t| - 1 {
      a := ModelWriteOf(t[..|t| - 1], j);
    } else {
      a := |ModelWrites(t)| - 1;
    }
  }

  /** A write that succeeded is a confirmed append of the store. */
  lemma {:induction false} AppendOf<C>(ops: seq<Op<C>>, m: nat) returns (n: nat)
    requires m < |AppendsOf(ops)|
    ensures n < |ops| && ops[n] == AppendsOf(ops)[m]
  {
    var front := ops[..|ops| - 1];
    if m < |AppendsOf(front)| {
      n := AppendOf(front, m);
    } else {
      n := |ops| - 1;
    }
  }

  /** A line of the file that holds the record. */
  ghost predicate OnFile<C>(f: Format<C>, serialise: ActionRecord -> C, file: string, k: int, record: ActionRecord) {
    && 0 <= k < |Segments(file)|
    && var line := f.decode(Segments(file)[k]);
       line.Some? && line.value.body == serialise(record)
  }

  /** The serialised form determines the record. */
  ghost predicate Determines<C>(serialise: ActionRecord -> C) {
    forall r: ActionRecord, r': ActionRecord :: serialise(r) == serialise(r') ==> r == r'
  }

  /** Reading a line back gives one record: whoever reads it learns the subject,
      the action, the decision, the outcome and the bundle. */
  lemma LineDeterminesRecord<C>(f: Format<C>, serialise: ActionRecord -> C, file: string, k: int,
                                r: ActionRecord, r': ActionRecord)
    requires Determines(serialise) && OnFile(f, serialise, file, k, r) && OnFile(f, serialise, file, k, r')
    ensures r == r'
  {
  }

  /** Where the record of a successful write stands. */
  ghost predicate Stored<C(!new)>(f: Format<C>, serialise: ActionRecord -> C, ops: seq<Op<C>>, limit: nat, n: nat,
                                  record: ActionRecord) {
    && n < |ops| && ops[n].Append? && ops[n].fault == NoFault
    && var file, k := Run(f, ops, limit).file, LandsOn(f, ops, n, limit) - 1;
       && (OnFile(f, serialise, file, k, record) <==> Terminated(Run(f, ops[..n], limit).file))
       && (GoodChain(f, Segments(file)) ==> OnFile(f, serialise, file, k, record))
  }

  lemma WriteIsStored<C(!new)>(f: Format<C>, serialise: ActionRecord -> C, writes: seq<Tagged<Write>>,
                               policy: seq<PR.Event>, at: seq<nat>, ops: seq<Op<C>>, limit: nat, writer: nat, a: nat)
    returns (n: nat, i: nat)
    requires Sound(f) && Separable(f) && Serves(serialise, writes, policy, at, ops)
    requires a < |Project(writes, writer)| && Project(writes, writer)[a].ok
    ensures i < |policy| && Stamps(policy[i])
    ensures Stored(f, serialise, ops, limit, n, StampedWith(Project(writes, writer)[a].record, policy[i].ref))
  {
    var m := ProjectedIsInTrace(writes, writer, a);
    i := at[m];
    assert CarriedOut(serialise, writes[m].event, policy[i].ref, AppendsOf(ops)[m]);
    n := AppendOf(ops, m);
    ConfirmedReadsBack(f, ops, n, limit);
    if GoodChain(f, Segments(Run(f, ops, limit).file)) {
      AcceptedReadsBack(f, ops, n, limit);
    }
  }

  // ---------- the reference on the line ----------

  /** A reference, if there is one, is of a bundle that had verified, and whose
      compile step had succeeded, when the record was stamped with it. */
  ghost predicate NamesVerified(w: PR.World, t: seq<PR.Event>, ref: Option<PolicyBundleRef>) {
    exists i: nat :: i < |t| && Stamps(t[i]) && t[i].ref == ref && (ref.Some? ==> BackedRef(w, t[..i], ref.value))
  }

  ghost predicate BackedRef(w: PR.World, t: seq<PR.Event>, ref: PolicyBundleRef) {
    exists m :: PR.Backed(w, t, m) && ref == w.refOf(m)
  }

  lemma RefNamesVerified(w: PR.World, labels: seq<PR.Label>, i: nat)
    requires i < |PR.Run(w, labels).trace| && Stamps(PR.Run(w, labels).trace[i])
    ensures var t := PR.Run(w, labels).trace; NamesVerified(w, t, t[i].ref)
  {
    var t := PR.Run(w, labels).trace;
    if t[i].ref.Some? {
      var manifest, a, b := PR.StampNamesVerifiedBundle(w, labels, i);
      assert PR.Backed(w, t[..i], manifest);
    }
  }

  // ---------- every effect is on file ----------

  /** Every upstream call any interleaving of tool calls makes is backed by a
      confirmed append of a record that allows it, for that caller, action and
      decision, and that carries a reference, if any, of a bundle that had
      verified and compiled by then; whatever the model gateway writes, however
      policy is reloaded, whatever fails. Its line in the shared file reads back
      as that record if and only if the file ended in a newline when it was
      appended, and always in a file Verify accepts. */
  lemma ToolCallsAreOnFile<C(!new)>(
      f: Format<C>, serialise: ActionRecord -> C, writes: seq<Tagged<Write>>, ops: seq<Op<C>>, limit: nat,
      w: PR.World, labels: seq<PR.Label>, at: seq<nat>, c: T.Config, s: T.State, i: nat)
    returns (n: nat, record: ActionRecord)
    requires Sound(f) && Separable(f)
    requires Serves(serialise, writes, PR.Run(w, labels).trace, at, ops)
    requires T.Reachable(c, s) && Project(writes, TOOL_GATEWAY) == ToolWrites(s.trace)
    requires i < |s.trace| && s.trace[i].event.Called?
    ensures var call := s.trace[i].event;
            && record.outcome == Allowed && record.subject == call.caller
            && record.action == call.action && record.decision == call.decision
    ensures NamesVerified(w, PR.Run(w, labels).trace, record.policyBundle)
    ensures Stored(f, serialise, ops, limit, n, record)
  {
    var policy := PR.Run(w, labels).trace;
    var j := TR.RecordBeforeEffect(c, s, i);
    var a := ToolWriteOf(s.trace, j);
    var e;
    n, e := WriteIsStored(f, serialise, writes, policy, at, ops, limit, TOOL_GATEWAY, a);
    RefNamesVerified(w, labels, e);
    record := StampedWith(s.trace[j].event.record, policy[e].ref);
  }

  /** The same for every provider call of every interleaving of model calls. */
  lemma ModelCallsAreOnFile<C(!new)>(
      f: Format<C>, serialise: ActionRecord -> C, writes: seq<Tagged<Write>>, ops: seq<Op<C>>, limit: nat,
      w: PR.World, labels: seq<PR.Label>, at: seq<nat>, c: M.Config,
      calls: map<nat, M.Invocation>, t: seq<Tagged<M.Event>>, i: nat)
    returns (n: nat, record: ActionRecord)
    requires Sound(f) && Separable(f)
    requires Serves(serialise, writes, PR.Run(w, labels).trace, at, ops)
    requires M.ValidConfig(c) && MR.Interleaves(c, calls, t) && Project(writes, MODEL_GATEWAY) == ModelWrites(t)
    requires i < |t| && t[i].event.Called?
    ensures t[i].pid in calls
    ensures record.outcome == Allowed && record.subject == calls[t[i].pid].subject
    ensures record.action == M.CallAction(calls[t[i].pid].request)
    ensures NamesVerified(w, PR.Run(w, labels).trace, record.policyBundle)
    ensures Stored(f, serialise, ops, limit, n, record)
  {
    var policy := PR.Run(w, labels).trace;
    var j := MR.ProviderCallsAreRecordedFirst(c, calls, t, i);
    var a := ModelWriteOf(t, j);
    var e;
    n, e := WriteIsStored(f, serialise, writes, policy, at, ops, limit, MODEL_GATEWAY, a);
    RefNamesVerified(w, labels, e);
    record := StampedWith(t[j].event.record, policy[e].ref);
  }
}
