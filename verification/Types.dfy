/** The contracts every HelmDeep component shares: who is calling, what is
    asked, what was decided and what was recorded (pkg/types). */
module Types {

  datatype Option<+T> = None | Some(value: T)

  /** Instants and durations, in nanoseconds. */
  type Time = int

  const SECOND: int := 1_000_000_000
  const MINUTE: int := 60 * SECOND

  /** A decoded JSON value, as encoding/json delivers it into an `any`. */
  datatype Json =
    | Null
    | Bool(truth: bool)
    | Number(number: real)
    | Str(text: string)
    | Arr(items: seq<Json>)
    | Obj(fields: map<string, Json>)

  /** A json.RawMessage: no bytes, bytes that do not parse, or a document. */
  datatype Raw = Absent | Unparsable(bytes: string) | Doc(tree: Json)

  datatype ToolResult = ToolResult(content: Raw, structured: Raw, isError: bool)

  datatype Provenance = Provenance(source: string, trusted: bool)

  datatype Value = Value(data: Json, provenance: Provenance)

  datatype SubjectKind = User | Agent | Service

  datatype Subject = Subject(
    id: string, kind: SubjectKind, agentVersion: string,
    delegationChain: seq<string>, scopes: seq<string>, trustLevel: int)

  datatype Action = Action(
    kind: string, tool: string, resource: string, arguments: map<string, Value>,
    risk: string, dataClasses: seq<string>, requiredScopes: seq<string>)

  /** The call counters of types.Usage; the two cost fields are always zero. */
  datatype Usage = Usage(callsInWindow: int, windowSeconds: int)

  datatype DecisionRequest = DecisionRequest(
    subject: Subject, action: Action, requestId: string, time: Time, usage: Usage)

  /** A decider may return any string; only the two allow outcomes are acted on. */
  datatype Outcome = Allow | Deny | AllowWithObligations | Unrecognized(text: string)

  datatype Obligation = Obligation(kind: string, target: string)

  datatype Decision = Decision(
    outcome: Outcome, obligations: seq<Obligation>, policyId: string, reason: string)

  predicate Permits(d: Decision) {
    d.outcome == Allow || d.outcome == AllowWithObligations
  }

  datatype RecordOutcome = Allowed | Denied | Failed

  datatype PolicyBundleRef = PolicyBundleRef(version: string, digest: string)

  /** An action record without its two chain fields, which the ledger adds. */
  datatype ActionRecord = ActionRecord(
    timestamp: Time, subject: Subject, action: Action, decision: Decision,
    outcome: RecordOutcome, policyBundle: Option<PolicyBundleRef>)

  /** The action of a record written before any argument is looked at. */
  function BareAction(kind: string, tool: string): Action {
    Action(kind, tool, "", map[], "", [], [])
  }
}
