# HelmDeep, modelled and proved in Dafny

HelmDeep is a policy gateway for agents: every tool call and every model call is identified, checked against
policy, written to a hash-chained ledger, and only then carried out. This project models the stateful cores of that
gateway and proves what they keep over whole runs:

- **Tool Gateway.** `CallTool` is a request machine (`ToolGateway`): any number of requests interleave over the shared
  routing table, usage counters and provenance cache, while identity, policy, ledger, broker and upstreams answer or
  fail at will. `ToolGatewayRuns`, `ToolGatewayAnswers`, `ToolGatewayTaint` and `ToolGatewayRates` hold the theorems over every
  interleaving.
  `SequentialGateway` is `CallTool` as the gateway object runs it, changing tracker, cache and ledger in place; each call
  is proved to be a run of the machine. `Usage` and `Provenance` are the two stateful helpers with their own laws.
- **Redaction** (`Obligations`). Obligations on JSON trees, by location.
- **Ledger** (`HashChain`, `FileStore`, `TornWrites`). Chain, line framing, append with its failure points, recovery,
  verification, and what partial writes do to all of these.
- **Policy bundles** (`BundleInventory`, `PathOrder`, `Inventory`, `PolicyBundle`, `PolicyLoader`, `PolicyRuns`,
  `PolicyStamps`). Inventory walk, sign and verify, verifying loader, and what the stamp on a record means.
- **Listing** (`Listing`, `ListingRuns`). The tool registry, `ListTools`, and its agreement with `CallTool`.
- **Model Gateway** (`ModelGateway`, `ModelGatewayRuns`). Pinned routes, catalog approval, recorded fallback.
- **One ledger** (`SharedLedger`). The record that precedes an effect in a run is a line of the file both gateways share.

`Types` holds the shared contracts, `Interleaving` the tools for carrying facts about one request to a trace of many, and
`Witnesses` a record format and a set of primitives that meet the hypotheses below. `Literals` states names, limits and
rules in literals where the rest refers to them by a definition.

## How the world outside is modelled

Clock readings, identity, policy evaluation, credential exchange, upstream and provider answers, and the outcome of
every file operation are parameters of a call or labels of a run; each may fail. The hash is any function without
collisions and without empty output (`HashChain.Ideal`). The record encoding is any that decodes back, keeps raw newlines
out (section 7 of RFC 8259) and does not take a blank line for a record (`FileLedger.Sound`); where writes may be torn,
also one in which no record cut short, and no several records or their beginnings run together on one line, parse
(`TornWrites.Separable`). The signature scheme is an ideal one (sections 5.1.6 and 5.1.7 of RFC 8032): what was signed
checks (`PolicyBundle.Trustworthy`) and, where it matters, what checks was signed (`PolicyBundle.Unforged`). A walk over a
bundle sees the disk as it is or, when files change under it, any mixture (`PolicyRuns.View`). A directory tree has what a file system guarantees: names are not empty, hold no slash, and
are distinct within a directory.

## Where code and documentation disagree

- `pkg/policyservice/loader.go:32` says loads are serialized; the mutex only guards the two fields. Two overlapping
  loads can therefore stamp records with bundle A while B decides (`PolicyStamps.OverlappingLoadsMisattribute`). The
  shipped gateway reloads from a single goroutine (`cmd/helmdeep-gateway/main.go:197`), so that overlap concerns
  `VerifyingLoader` as a library. One reload alone suffices, though: it puts its policy in force before `Active` names it,
  and a request decided and recorded in between carries the old bundle's stamp
  (`PolicyStamps.RecordInsideReloadMisattributed`); likewise one decided before a reload and recorded after it carries the
  new bundle's. `PolicyStamps.StampExactIff` gives the exact condition under which a stamp is right.
- `internal/gateway/obligations.go:44` says the caller logs a redaction target that is not found; it does not.
- The usage window is anchored at its first call, so a limit of L admits up to 2L-1 calls in one window length when calls
  are counted in the order of their clock readings (`UsageWindow.RateBoundIsSharp`). The clock is read when a request
  starts and the counter moves later; counted in another order, a limit of one still admits at most one, and any larger
  limit admits any number (`ToolGatewayRates.BoundedInRunsExactlyUpToOne`).
- A provenance record that finds a subject's entries full clears them even when it only refreshes an existing value
  (`ProvenanceTracking.OverflowForgets`).
- Reopening refuses a log with a line of 8 MiB or more, which `Append` writes and `Verify` accepts
  (`FileLedger.ReopenRecoversTail`); it skips blank lines, which `Verify` rejects (`FileLedger.BlankLines`).
- After a write that left part of a line, the next append succeeds on that same line: the call it allows proceeds while its
  record cannot be read back (`TornWrites.ConfirmedReadsBack`).
- A fallback is visible in the ledger only if the serving provider reports a non-empty name
  (`ModelGatewayRuns.FallbackIsRecorded`).

## Model

| member | source | states |
|---|---|---|
| `ToolGateway.ReachableLocal` | internal/gateway/gateway.go:192-335 | in every reachable state of every interleaving each request is valid for its phase and has emitted exactly the events of that phase, in order |
| `ToolGatewayRuns.RecordBeforeEffect` | internal/gateway/gateway.go:257-307 | each upstream call follows the same request's successfully appended Allowed record with the same subject, action and decision |
| `ToolGatewayRuns.FailureFollowsAllowed` | internal/gateway/gateway.go:283-322 | each Failed record follows its own request's Allowed record |
| `ToolGatewayRuns.CallsNeverOutnumberRecords` | internal/gateway/gateway.go:192-335 | in every interleaving upstream calls never outnumber Allowed records |
| `ToolGatewayRuns.RecordsPerRequest` | internal/gateway/gateway.go:192-335 | a request adds at most two records and calls upstream at most once |
| `ToolGatewayRuns.NoRecordOnlyIfUnknownOrLost` | internal/gateway/gateway.go:192-335 | a request that ends without a record met an unknown tool or a failed append |
| `ToolGatewayRuns.DeliveryIsRecordedAndRedacted` | internal/gateway/gateway.go:257-334 | a delivered result is its own recorded call's answer with all targets of the recorded decision's obligations masked at once |
| `ToolGatewayAnswers.DecisionsAreAnswers` | internal/gateway/gateway.go:237-318 | in every run, the decision of every upstream call, and of every record of a request that had asked policy, is exactly what policy answered that request, or the pdp.error denial naming the error where policy failed |
| `ToolGatewayAnswers.RecordsSayWhatHappened` | internal/gateway/gateway.go:251-318 | a record is Denied exactly if its decision does not permit; after a question to policy it is about that subject and action, dated by the start unless it records a failure |
| `ToolGatewayAnswers.QuestionsAreComplete` | internal/gateway/gateway.go:222-235 | every question names the identified subject, the tool with its registry metadata, exactly the request's arguments, its id, its start and a window of sixty seconds |
| `ToolGatewayAnswers.CallsGoWhereRouted` | internal/gateway/gateway.go:203-220 | every upstream call is made for the identified subject, to the upstream the tool was routed to and may be pinned to |
| `ToolGatewayAnswers.RefusalsSayWhy` | internal/gateway/gateway.go:262-281 | how each way of ending answers the caller, who learns nothing about an unknown credential |
| `ToolGatewayTaint.SharedStateIsHistory` | internal/gateway/gateway.go:222-235 | usage counters and provenance cache are exactly the replay of the counted attempts and remembered values in the trace |
| `ToolGatewayTaint.CountedExactlyWhenGatesPass` | internal/gateway/gateway.go:195-235 | a finished request was counted, once and before policy was asked, if and only if its credential resolved to a declared agent, its tool was routed and declared, and the pin allows the upstream it was routed to; allowed or denied plays no part |
| `ToolGatewayTaint.GateEventsAreTheAnswers` | internal/gateway/gateway.go:195-208 | the identity and routing events of a trace carry what identity answered and what the index of the last refresh says of the tool |
| `ToolGatewayTaint.CountsAreReported` | internal/gateway/gateway.go:228-235 | the count in a decision request is the one its attempt has in the history of all attempts |
| `ToolGatewayTaint.RateBoundInRuns` | internal/gateway/usage.go:17-27 | over every interleaving in which requests are counted in the order of their clock readings, those of one subject that report at most L number at most 2L-1 per window length |
| `ToolGatewayRates.BoundedInRunsExactlyUpToOne` | internal/gateway/gateway.go:193-235 | over all interleavings of requests that start in clock order, but are counted in any order, a limit bounds the requests per window length if and only if it is at most one |
| `ToolGatewayRates.StalledRunIsStalled` | internal/gateway/gateway.go:193-235 | a run of the gateway, started in clock order, whose counted attempts are the stalled history |
| `ToolGatewayTaint.RememberedHasSource` | internal/gateway/gateway.go:329-333 | every remembered value was a top-level string of the redacted result of an earlier call by that subject, dated by that call's start, under that upstream's label |
| `ToolGatewayTaint.TaintSoundness` | internal/gateway/gateway.go:466-493 | a trusted argument in any decision request is a non-empty string an earlier call in the trace, same subject, upstream configured with that trusted label, returned at top level after redaction, less than 15 minutes before by the two requests' start times |
| `ToolGatewayTaint.TaintStepIsExact` | internal/gateway/gateway.go:466-476 | in every run, tainting gives a string the answer of the full history of sightings if a sighting is retained, and untrusted otherwise; everything else is untrusted |
| `ToolGatewayTaint.LabelsShownAreExact` | internal/gateway/gateway.go:222-235 | in every interleaving, every label policy is shown is the exact one at some moment of its request between routing and counting |
| `ToolGatewayTaint.DeliveryIsRemembered` | internal/gateway/gateway.go:482-493 | when a request is delivered, every top-level string of the delivered structured content has been remembered for its subject, under its upstream's configured label or the untrusted one, as of its start |
| `SequentialGateway.Gateway.CallTool` | internal/gateway/gateway.go:192-335 | a call runs the request machine from start to answer with exactly the oracles' answers and no other request's steps; ledger, upstream requests, counters and cache are the machine's; what is delivered is the upstream's answer with every target of policy's own obligations masked, after exactly one record carrying policy's own answer |
| `SequentialGateway.Gateway.DenyAtGate` | internal/gateway/gateway.go:342-446 | the deny helpers record the denial and answer with its reason, and a lost record changes nothing |
| `SequentialGateway.Gateway.ResolveCaller` | internal/gateway/gateway.go:193-201 | identity and agent gate end the request with a recorded refusal or hand on a declared subject |
| `SequentialGateway.Gateway.ResolveTool` | internal/gateway/gateway.go:203-220 | routing, declaration and pin end the request or fix upstream and entry |
| `SequentialGateway.Gateway.TaintArguments` | internal/gateway/gateway.go:466-476 | every argument is labelled from the cache, strings by lookup and all else untrusted, in any order; which label that is, ToolGatewayTaint.TaintStepIsExact says |
| `SequentialGateway.Gateway.CommitDecision` | internal/gateway/gateway.go:257-281 | the decision record is appended before anything else; a failed append or a denial ends the request |
| `SequentialGateway.Gateway.CallUpstream` | internal/gateway/gateway.go:307-334 | the upstream is reached once; a failure is recorded, a success is redacted, remembered and delivered |
| `SequentialGateway.Gateway.RecordResultProvenance` | internal/gateway/gateway.go:482-493 | exactly the top-level strings of the redacted structured content are recorded under the upstream's label |
| `UsageWindow.UsageTracker.RecordAndCount` | internal/gateway/usage.go:62-73 | returns one more than peek at the same instant and leaves other subjects alone |
| `UsageWindow.UsageTracker.Peek` | internal/gateway/usage.go:78-87 | the count of the open window, without moving it |
| `UsageWindow.CounterRefinesHistory` | internal/gateway/usage.go:57-73 | the count is the number of the subject's attempts since the anchor in force |
| `UsageWindow.AnchorIsUnique` | internal/gateway/usage.go:62-73 | a history determines its anchor |
| `UsageWindow.RateBound` | internal/gateway/usage.go:17-27 | for ordered times a limit L admits at most 2L-1 calls in any half-open interval of one window |
| `UsageWindow.RateBoundIsSharp` | internal/gateway/usage.go:17-27 | a run that reaches 2L-1 |
| `UsageWindow.LimitOneNeedsNoOrder` | internal/gateway/usage.go:62-73 | a limit of one admits at most one call per window length in every order of clock readings |
| `UsageWindow.StalledIsAdmitted` | internal/gateway/usage.go:62-73 | a history in which a limit of two admits as many calls in one window as it has rounds |
| `UsageWindow.BoundedExactlyUpToOne` | internal/gateway/usage.go:62-73 | over all histories a limit bounds the admitted calls if and only if it is at most one |
| `ProvenanceTracking.ProvenanceCache.RecordValue` | internal/gateway/provenance.go:61-81 | records the value, after clearing the subject's entries when they are full; the empty string is ignored |
| `ProvenanceTracking.ProvenanceCache.ResolveValue` | internal/gateway/provenance.go:87-97 | the live entry's provenance or the untrusted default |
| `ProvenanceTracking.ProvenanceCache.RecordTopLevelStrings` | internal/gateway/provenance.go:106-123 | records every top-level string and nothing else, object fields in any order |
| `ProvenanceTracking.VisitsFindTopLevelStrings` | internal/gateway/provenance.go:106-123 | every visiting order finds exactly the top-level strings |
| `ProvenanceTracking.CacheRefinesHistory` | internal/gateway/provenance.go:61-97 | the answer is the untrusted default or the last recorded provenance while live, as the full history gives it |
| `ProvenanceTracking.ExactWhileNeverFull` | internal/gateway/provenance.go:61-97 | equal to the full-history answer until the subject's entries overflow |
| `ProvenanceTracking.ExactIffRetained` | internal/gateway/provenance.go:61-97 | the cache answers like the full history if and only if some sighting of the value has no later record of that subject that found its entries full, or the full answer is untrusted |
| `ProvenanceTracking.OverflowForgets` | internal/gateway/provenance.go:71-80 | a record that finds the entries full forgets every other value |
| `ProvenanceTracking.SizeIsBounded` | internal/gateway/provenance.go:61-81 | no subject holds more than maxSize entries |
| `ProvenanceTracking.SubjectsAreIsolated` | internal/gateway/provenance.go:61-97 | one subject's records never change another's answers |
| `Obligations.SetAtPath` | internal/gateway/obligations.go:82-124 | finds a path exactly when every segment resolves and replaces exactly that location; which location that is, Obligations.ResolveIsExact says |
| `Obligations.ApplyObligations` | internal/gateway/obligations.go:23-77 | the loop over the obligations is their left-to-right application; unknown kinds, short paths and unparsable bytes change nothing |
| `Obligations.SequentialIsSimultaneous` | internal/gateway/obligations.go:23-59 | applying obligations in order equals masking all their targets at once in the original |
| `Obligations.RedactionReplacesShortest` | internal/gateway/obligations.go:23-124 | the result replaces exactly the shortest locations the targets resolve to in the original tree |
| `Obligations.ReplaceAllPointwise` | internal/gateway/obligations.go:82-124 | a node under no replaced location is unchanged; a shortest replaced location holds the placeholder |
| `Obligations.OrderDoesNotMatter` | internal/gateway/obligations.go:23-30 | only the set of redactions matters, not order, repetition or unknown obligations |
| `Obligations.ApplyTwice` | internal/gateway/obligations.go:23-30 | redaction is idempotent |
| `Obligations.RedactionNonInterference` | internal/gateway/obligations.go:23-124 | results that differ only beneath redacted locations, in value or in shape, are delivered identically |
| `Obligations.AliasingSegments` | internal/gateway/obligations.go:92-120 | "0", "00", "+0" and "-0" address one array slot |
| `Obligations.AtoiReadsDecimals` | internal/gateway/obligations.go:92-120 | reading a written number gives it back, also behind a sign or a zero |
| `Obligations.SlotsByNumber` | internal/gateway/obligations.go:92-120 | each way of writing i names slot i of an array that has one, and none of a shorter one |
| `Obligations.ResolveIsExact` | internal/gateway/obligations.go:82-124 | a path resolves to a location if and only if that exists and follows the path segment by segment, as keys and as numbers |
| `Obligations.RedactsTheField` | internal/gateway/obligations.go:46-59 | in literals, redacting structuredContent.k overwrites field k and nothing else with the placeholder |
| `Obligations.RedactsTheSlot` | internal/gateway/obligations.go:46-124 | in literals, redacting content.i overwrites slot i and no other |
| `HashChain.SharedHashSharedHistory` | pkg/audit/file_store.go:44-60 | one record hash at two positions of two intact logs forces equal positions and equal prefixes |
| `HashChain.SameTailSameLog` | pkg/audit/file_store.go:174-216 | an intact log is determined by its tail hash |
| `HashChain.AlteredRecordChangesLaterHashes` | pkg/audit/file_store.go:174-216 | altering a record changes its hash and every later one, to values the original log holds nowhere |
| `HashChain.IdealHashExists` | pkg/audit/file_store.go:44-60 | the hypotheses on the hash can be met |
| `Witnesses.SoundFormatExists` | pkg/audit/file_store.go:44-60 | the hypotheses on the record format can be met together |
| `Witnesses.TrustworthyExists` | pkg/policyservice/policyservice.go:88-117 | the hypotheses on hashing, payload and signatures can be met together |
| `FileLedger.FramingRoundTrip` | pkg/audit/file_store.go:124-136 | reading back newline-terminated records yields exactly their lines |
| `FileLedger.VerifyFile` | pkg/audit/file_store.go:174-216 | accepts exactly the files whose lines decode to an intact chain, and otherwise reports the first line that does not extend it |
| `FileLedger.FirstBreakIsUnique` | pkg/audit/file_store.go:184-214 | there is only one line to report |
| `FileLedger.RecoverTail` | pkg/audit/file_store.go:77-106 | the scan for the tail hash, blank lines skipped, refusing unreadable and oversized lines |
| `FileLedger.ReopenRecoversTail` | pkg/audit/file_store.go:89-104 | a written log reopens at its tail exactly when every line fits the scanner's buffer, and is refused otherwise |
| `FileLedger.BlankLines` | pkg/audit/file_store.go:89-101 | a blank line among the records leaves the recovered tail alone and is the line Verify rejects |
| `FileLedger.FileStore.Open` | pkg/audit/file_store.go:77-106 | a store continues at the recovered tail, or is refused |
| `FileLedger.FileStore.Append` | pkg/audit/file_store.go:113-145 | what the file and lastHash are after success and after each failure point |
| `FileLedger.FileStore.Verify` | pkg/audit/file_store.go:174-216 | the verdict on the store's own file |
| `TornWrites.VerifyAcceptsExactly` | pkg/audit/file_store.go:113-216 | over every run with every failure, torn writes included, Verify accepts the file if and only if every append that wrote anything wrote at least a whole record, at the start of a line, and while lastHash was not behind |
| `TornWrites.FirstUncleanIsReported` | pkg/audit/file_store.go:174-216 | whatever follows, the line Verify reports is the one the first unclean append landed on |
| `TornWrites.ReopenCatchesUp` | pkg/audit/file_store.go:77-145 | while lastHash is behind the file is still acceptable, and a reopen that is not refused puts it at the tail |
| `TornWrites.ConfirmedReadsBack` | pkg/audit/file_store.go:113-145 | for ever after, the line of a confirmed append reads back as its record if and only if the file ended in a newline when it was written, and as nothing otherwise |
| `TornWrites.AcceptedReadsBack` | pkg/audit/file_store.go:113-216 | in a file Verify accepts every confirmed append began on a line of its own |
| `FileLedger.ChainIsPreserved` | pkg/audit/file_store.go:77-216 | when failed appends leave the file untouched, every run, refused reopens included, ends in an intact chain of exactly the successful records, with lastHash at its tail |
| `FileLedger.ReopenHeals` | pkg/audit/file_store.go:77-145 | after a failed fsync the file still verifies, lastHash is behind, and a reopen puts it at the tail |
| `FileLedger.StaleWriteIsReported` | pkg/audit/file_store.go:113-216 | a write after a failed fsync without reopening is exactly the line Verify reports, whatever follows |
| `BundleInventory.WalkInto` | pkg/policyservice/policyservice.go:250-296 | the walk appends one entry per visible file and stops at a refused link |
| `Inventory.TakeInventory` | pkg/policyservice/policyservice.go:243-299 | walk, then sort |
| `Inventory.InventoryIsCanonical` | pkg/policyservice/policyservice.go:228-299 | strictly sorted, with exactly one entry per file that has no hidden component, under its joined path and digest |
| `PathOrder.LessIsByteOrder` | pkg/policyservice/policyservice.go:297-298 | the order is byte order: first difference decides, a proper prefix comes first |
| `Inventory.InventoryRefuses` | pkg/policyservice/policyservice.go:243-296 | refuses exactly when a visible link is broken or leads to a directory |
| `Inventory.SameFilesSameInventory` | pkg/policyservice/policyservice.go:228-299 | the order in which directories are listed does not matter |
| `Inventory.HiddenEntriesDoNotMatter` | pkg/policyservice/policyservice.go:243-296 | trees that differ only in hidden entries have the same inventory, refusals included |
| `Inventory.WalkOrderIsNotPathOrder` | pkg/policyservice/policyservice.go:297-298 | a tree whose walk order is not path order |
| `PolicyBundle.FillSigned` | pkg/policyservice/policyservice.go:197-203 | fills the map of signed files, or names a path listed twice |
| `PolicyBundle.Compare` | pkg/policyservice/policyservice.go:197-226 | accepts exactly equal path-to-digest maps without duplicates, and every refusal names a fault that is there |
| `PolicyBundle.Verify` | pkg/policyservice/policyservice.go:167-226 | succeeds if and only if the manifest is authentic, lists no path twice and maps exactly the visible files to their digests |
| `PolicyBundle.Sign` | pkg/policyservice/policyservice.go:124-159 | when signing is refused, and the manifest it produces |
| `PolicyBundle.SignThenVerify` | pkg/policyservice/policyservice.go:124-226 | a signed bundle verifies, also after hidden files such as the manifest are added anywhere |
| `PolicyBundle.ManifestPinsContent` | pkg/policyservice/policyservice.go:167-226 | bundles one manifest vouches for hold the same visible files, byte for byte |
| `PolicyBundle.EqualDigestsEqualBundles` | pkg/policyservice/policyservice.go:88-117 | equal digests mean equal versions, file lists and byte-identical visible contents |
| `PolicyBundle.VerifiedWasSigned` | pkg/policyservice/policyservice.go:161-226 | a bundle that verifies against an unforged manifest holds, byte for byte, the visible files of a bundle the key holder signed under that version |
| `PolicyBundle.SignedIsUnforged` | pkg/policyservice/policyservice.go:124-159 | what Sign produces is unforged |
| `PolicyLoader.Normalise` | pkg/policy/opa.go:132-193 | each of the three outcomes an evaluation can name becomes that decision with its policy id and reason, obligations only with the obligations outcome; every other case denies under its own policy id |
| `PolicyLoader.OPADecider.Load` | pkg/policy/opa.go:80-94 | policy and path change together on success and not at all on failure |
| `PolicyLoader.OPADecider.Reload` | pkg/policy/opa.go:116-124 | recompiles the remembered path; failure keeps the policy in force |
| `PolicyLoader.VerifyingLoader.VerifyBundle` | pkg/policyservice/loader.go:97-110 | names the reference exactly of a bundle that matches its manifest |
| `PolicyLoader.VerifyingLoader.Load` | pkg/policyservice/loader.go:53-69 | compiled policy, path and active reference change together on full success; the inner loader is not asked about a bundle that failed verification |
| `PolicyLoader.VerifyingLoader.Reload` | pkg/policyservice/loader.go:76-84 | reruns Load on the remembered path and never changes the path |
| `PolicyLoader.StampingStore.Append` | pkg/policyservice/stamp.go:61-67 | stamps the active reference, or none before the first load, and discards the one the record came with |
| `PolicyLoader.LoaderStaysConsistent` | pkg/policyservice/loader.go:53-110 | over every sequence of loads and reloads the loader is unloaded exactly when none succeeded; otherwise policy, path and reference are those of the last operation that verified and compiled |
| `PolicyLoader.NeverUnloads` | pkg/policyservice/loader.go:53-84 | once a policy is loaded no later sequence takes it away |
| `PolicyRuns.StampNamesVerifiedBundle` | pkg/policyservice/stamp.go:61-67 | with no restriction on the run, every stamp, also on records no policy decided, names a bundle that verified and whose compile succeeded earlier |
| `PolicyRuns.CompilerOnlySeesVerified` | pkg/policyservice/loader.go:53-63 | the compiler is only given a path that verified in the same load |
| `PolicyStamps.StampExactIff` | pkg/policyservice/loader.go:53-69 | with any overlap of loads, requests and edits, also in the middle of a walk, the stamp of any record of a decision is right if and only if what the load in force at the decision compiled is what the manifest of the load committed last at the append lists |
| `PolicyStamps.OneLoadStampsExactly` | pkg/policyservice/stamp.go:61-67 | a record decided and appended under one load whose files were not edited under way is stamped exactly, whatever other loads are doing |
| `PolicyStamps.LoaderRefsAreFaithful` | pkg/policyservice/policyservice.go:110-117 | manifests with one reference vouch for the same contents |
| `PolicyStamps.StampMeaning` | pkg/policyservice/stamp.go:61-67 | when no file is edited during or between verify and compile, loads do not overlap from swap to commit, no record falls between a swap and its commit, and no policy is swapped in between a decision and a record of it, every stamp names the manifest whose contents the deciding policy was compiled from |
| `PolicyStamps.SameStampSamePolicy` | pkg/types/record.go:40-48 | exactly stamped records with equal digests were decided by byte-identical policy |
| `PolicyStamps.OverlappingLoadsMisattribute` | pkg/policyservice/loader.go:53-69 | a run of two overlapping loads, without edits under way, whose last record carries a wrong stamp |
| `PolicyStamps.RecordInsideReloadMisattributed` | pkg/policyservice/loader.go:58-66 | a run of one load and one reload, without overlap or edits under way, whose last record carries a wrong stamp |
| `PolicyStamps.SoloLoadIsLoad` | pkg/policyservice/loader.go:53-69 | the steps of one load taken alone, save an edit of the disk, do what Load does |
| `Listing.StaticRegistry.Refresh` | pkg/mcp/registry.go:36-52 | rebuilds index and list from every upstream, or leaves both untouched when one fails |
| `Listing.IndexMeaning` | pkg/mcp/registry.go:36-59 | the index has exactly the listed names as keys and maps each to the upstream that lists it last |
| `Listing.ListTools` | internal/gateway/gateway.go:142-184 | nothing for an unknown or undeclared caller, else the declared tools policy lets through, in order; the usage counter is only read |
| `Listing.ShownIff` | internal/gateway/gateway.go:142-184 | a name is shown exactly when it is routable, declared and passes policy |
| `ListingRuns.CallsMatchListing` | internal/gateway/gateway.go:203-254 | over every run, a finished request of a declared agent that was routed by the listing's index, answered by a policy that looks only at the tool, and not stopped by the pin got past policy exactly when its tool is shown to that agent; other requests are unconstrained |
| `ModelGateway.CheckRoute` | pkg/modelgw/modelgw.go:129-159 | accepts exactly the routes with configured providers and pinned versions, and names a problem a refused route has |
| `ModelGateway.Gateway.New` | pkg/modelgw/modelgw.go:128-149 | a gateway exists exactly when every route is valid; a refusal names a faulty route |
| `ModelGateway.Gateway.CallProviders` | pkg/modelgw/modelgw.go:245-265 | the primary, then the fallback only if there is an approved one; its answer carries the primary's name |
| `ModelGateway.Gateway.RecordDenial` | pkg/modelgw/modelgw.go:282-292 | one Denied record is attempted and the refusal carries its policy and reason |
| `ModelGateway.Gateway.Complete` | pkg/modelgw/modelgw.go:182-239 | the events, ledger entries and answer of one call, which the ModelGatewayRuns lemmas tie to the answers of policy and providers |
| `ModelGatewayRuns.ProviderCallsAreRecordedFirst` | pkg/modelgw/modelgw.go:182-265 | in every interleaving each provider call uses an approved pair of its route with a pinned version, a fallback only after the primary failed, and follows that call's appended Allowed record, which carries policy's own answer |
| `ModelGatewayRuns.RecordsPerCall` | pkg/modelgw/modelgw.go:173-239 | when appends succeed, a refused call leaves exactly one record and any other exactly two |
| `ModelGatewayRuns.ReachesProvidersExactly` | pkg/modelgw/modelgw.go:182-225 | a call reaches its providers if and only if its pair is routed and approved, policy answered and permits, and the decision was recorded; exactly then it is not refused |
| `ModelGatewayRuns.RecordsCarryTheRuling` | pkg/modelgw/modelgw.go:182-239 | every record carries policy's answer, or the denial of the check that stopped the call, and is Denied exactly if that does not permit |
| `ModelGatewayRuns.QuestionIsAboutTheCall` | pkg/modelgw/modelgw.go:192-198 | policy is asked about this subject, purpose and time |
| `ModelGatewayRuns.ServedExactly` | pkg/modelgw/modelgw.go:245-265 | the primary answers, else the approved fallback, else the call fails, and nothing else is asked |
| `ModelGatewayRuns.DeniedIsRefused` | pkg/modelgw/modelgw.go:203-214 | a call whose answer does not permit is not served and is refused with its policy id and reason |
| `ModelGatewayRuns.FallbackIsRecorded` | pkg/modelgw/modelgw.go:258-280 | a fallback response carries the primary's name, and its record names the serving pair and the primary if and only if the provider reports a name |
| `ModelGatewayRuns.PrimaryIsRecorded` | pkg/modelgw/modelgw.go:245-280 | a primary's response is passed on unchanged; its record names the serving pair if it reports a name, and a fallback exactly when the provider itself claimed one |
| `SharedLedger.ToolCallsAreOnFile` | pkg/audit/file_store.go:113-145 | every upstream call of every interleaving is backed by a confirmed append allowing it, stamped with a bundle that had verified and compiled by then or with none; its line of the shared file reads back as that record if and only if the file ended in a newline then, and always in a file Verify accepts |
| `SharedLedger.ModelCallsAreOnFile` | pkg/modelgw/modelgw.go:216-225 | the same for every provider call |
| `SharedLedger.LineDeterminesRecord` | pkg/audit/file_store.go:44-60 | a line read back gives one record: its subject, action, decision, outcome and bundle |
| `Literals.Limits` | internal/gateway/usage.go:48-48 | the window is 60 seconds, the cache keeps 15 minutes and 256 entries, the scanner 8 MiB |
| `Literals.ScanLimitIsEightMiB` | pkg/audit/file_store.go:90-90 | a line can be scanned exactly if it is shorter than 8 MiB |
| `Literals.AgentGate` | internal/gateway/gateway.go:365-374 | who passes identity and agent gate, entry by entry, and under which policy id others are denied |
| `Literals.WrongVersionIsDenied` | internal/gateway/gateway.go:365-374 | an agent pinned to version 2 that asserts version 1 is denied |
| `Literals.ToolGates` | internal/gateway/gateway.go:211-220 | which routed tools pass declaration and pin, and under which policy id others are denied |
| `Literals.ListQuestion` | internal/gateway/gateway.go:156-176 | what ListTools asks policy about a tool |
| `Literals.ManifestIsNotListed` | pkg/policyservice/policyservice.go:236-262 | storing the manifest in the bundle under its default name leaves the inventory unchanged |
| `Literals.PlainFileIsListed` | pkg/policyservice/policyservice.go:258-293 | a file whose name does not start with a dot is listed under it |
| `Literals.ReferenceNamesVersion` | pkg/policyservice/loader.go:105-109 | a reference carries the manifest's version and the digest of what was signed |

## Left out

- JSON bytes: trees are modelled after decoding, so number formatting through float64 and byte preservation are not claimed.
- Message texts: reasons are modelled by their parts; Go quoting (`%q`) and wrapped error texts are not.
- Read errors of the file system and the network while reading an existing log or bundle are not modelled; writes are.
- FileLedger.ReopenHeals: runs without torn writes whose lines fit the scanner's buffer; `TornWrites.ReopenCatchesUp` is the statement for all runs.
- FileLedger.StaleWriteIsReported: runs without torn writes whose lines fit the scanner's buffer; `TornWrites.FirstUncleanIsReported` is the statement for all runs.
- Obligations.SetAtPath: the overwrite of the freshly decoded, unshared tree is a replacement on values, so update in place and aliasing of tree nodes are not captured.
- Inventory.TakeInventory: the in-place sort of a slice is a sort on sequences; links are taken as already resolved to file, directory or nothing.
- SequentialGateway.Gateway.CallTool: one request at a time; concurrent requests are the interleavings of `ToolGateway`, at the granularity of single cache lookups, counts, records and calls.
- ModelGateway.Gateway.Complete: concurrent calls are interleavings of the events of each call, since calls share only the ledger.
- Rego compilation and evaluation are an arbitrary function or oracle.
- SHA-256, Ed25519 and PEM key files are parameters with stated hypotheses.
- Tool, agent and model registries are finite maps; their construction checks are easy and not modelled.
- HTTP, MCP and JSON-RPC plumbing, identity providers, token exchange, provider clients, health probes and deployment are not modelled.
- The two cost fields of the usage record, which the gateway always reports as zero, are not modelled.
- Two processes writing one log file: the store is single-writer by design.
