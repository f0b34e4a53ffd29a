/** Names, limits and rules of the source in literals, where the rest of the
    project refers to them by a definition of its own. */
module Literals {
  import opened Types
  import U = UsageWindow
  import P = ProvenanceTracking
  import L = FileLedger
  import T = ToolGateway
  import G = Listing
  import B = BundleInventory
  import I = Inventory
  import O = PathOrder
  import K = PolicyBundle
  import PL = PolicyLoader

  /** The limits the components are built with. */
  lemma Limits()
    ensures U.DEFAULT_WINDOW == 60_000_000_000 && U.Seconds(U.DEFAULT_WINDOW) == 60
    ensures P.CACHE_TTL == 900_000_000_000 && P.CACHE_MAX_SIZE == 256
    ensures P.UNTRUSTED == Provenance("unspecified", false)
    ensures L.SCAN_LIMIT == 8_388_608
  {
  }

  /** A line of 8 MiB less one byte can be scanned, one of 8 MiB cannot. */
  lemma ScanLimitIsEightMiB(line: string)
    requires '\n' !in line
    ensures L.Scannable(line + "\n", L.SCAN_LIMIT) <==> |line| < 8_388_608
  {
    assert (line + "\n")[..|line|] == line;
  }

  // ---------- the gates of a tool call ----------

  /** How a request stands after its gate was consulted. */
  predicate DeniedAt(phase: T.Phase, gate: T.Gate, policyId: string) {
    && phase.Denying? && phase.gate == gate && phase.record.outcome == Denied
    && phase.record.decision.outcome == Deny && phase.record.decision.policyId == policyId
  }

  /** The same, with the reason the record gives. */
  predicate DeniedFor(phase: T.Phase, gate: T.Gate, policyId: string, reason: string) {
    DeniedAt(phase, gate, policyId) && phase.record.decision.reason == reason
  }

  /** Identity and the agent gate, entry by entry: an unknown credential, an agent
      without an entry and one that asserts another version than its entry's are
      denied, each under its own policy id; an agent whose entry has no version,
      that asserts none, or that asserts its entry's, goes on. */
  lemma AgentGate(c: T.Config, s: T.State, p: T.Proc, subject: Subject, error: string)
    ensures DeniedFor(T.OnIdentify(c, s, p, None, error).phase, T.Identity, "identity.unresolved", error)
    ensures var next := T.OnIdentify(c, s, p, Some(subject), error).phase;
            && (subject.id !in c.agents ==>
                  DeniedFor(next, T.AgentGate, "agentregistry.undeclared", "agent is not registered"))
            && (subject.id in c.agents ==>
                  var pinned, asserted := c.agents[subject.id].version, subject.agentVersion;
                  && (pinned != "" && asserted != "" && pinned != asserted ==>
                        DeniedAt(next, T.AgentGate, "agentregistry.undeclared"))
                  && (pinned == "" || asserted == "" || pinned == asserted ==> next == T.Routing(subject)))
  {
  }

  /** In particular, in literals. */
  lemma WrongVersionIsDenied(c: T.Config, s: T.State, p: T.Proc, subject: Subject, error: string)
    requires subject.id in c.agents && c.agents[subject.id].version == "2" && subject.agentVersion == "1"
    ensures DeniedAt(T.OnIdentify(c, s, p, Some(subject), error).phase, T.AgentGate, "agentregistry.undeclared")
  {
    assert "2" != "1" by {
      assert "2"[0] != "1"[0];
    }
    AgentGate(c, s, p, subject, error);
  }

  /** Declaration and pin: an undeclared tool and one routed elsewhere than its
      entry's upstream are denied, each under its own policy id; an entry without
      upstream may be routed anywhere. */
  lemma ToolGates(c: T.Config, s: T.State, p: T.Proc, subject: Subject)
    requires p.request.tool in s.routes
    ensures var next, tool, routed := T.OnRoute(c, s, p, subject).phase, p.request.tool, s.routes[p.request.tool];
            && (tool !in c.tools ==>
                  DeniedFor(next, T.Declaration, "toolregistry.undeclared", "tool is not registered"))
            && (tool in c.tools && c.tools[tool].upstream != "" && c.tools[tool].upstream != routed ==>
                  DeniedAt(next, T.Pin, "toolregistry.upstream_mismatch"))
            && (tool in c.tools && (c.tools[tool].upstream == "" || c.tools[tool].upstream == routed) ==>
                  next == T.Tainting(subject, routed, c.tools[tool], p.request.arguments, map[]))
  {
  }

  /** What ListTools asks policy about a tool. */
  lemma ListQuestion(v: G.Viewer, tool: string, entry: T.ToolEntry)
    ensures var dr := G.ListRequest(v, tool, entry);
            && dr.subject == v.subject && dr.requestId == v.requestId && dr.time == v.now
            && T.Describes(dr.action, tool, entry) && dr.action.arguments == map[]
            && dr.usage == Usage(v.calls, 60)
  {
  }

  // ---------- hidden files ----------

  lemma {:induction false} DotfileIsSkipped(prefix: string, dir: seq<B.Entry>, e: B.Entry, sha: string -> string)
    requires e.name != "" && e.name[0] == '.'
    ensures B.Walk(prefix, dir + [e], sha) == B.Walk(prefix, dir, sha)
    decreases |dir|
  {
    var more := dir + [e];
    if dir == [] {
      var none: seq<B.FileDigest> := [];
      assert more[1..] == [] && B.Visit(prefix, more[0], sha) == Some(none) == B.Walk(prefix, more[1..], sha);
      assert none + none == none;
    } else {
      assert more[0] == dir[0] && more[1..] == dir[1..] + [e];
      DotfileIsSkipped(prefix, dir[1..], e, sha);
    }
  }

  /** Storing the manifest in the bundle, under its default name, does not change
      the inventory. */
  lemma ManifestIsNotListed(dir: seq<B.Entry>, text: string, sha: string -> string)
    ensures I.InventoryOf(dir + [B.Entry(".bundle.json", B.File(text))], sha) == I.InventoryOf(dir, sha)
  {
    DotfileIsSkipped("", dir, B.Entry(".bundle.json", B.File(text)), sha);
  }

  /** A file whose name does not start with a dot is listed. */
  lemma PlainFileIsListed(name: string, text: string, sha: string -> string)
    requires name != "" && name[0] != '.'
    ensures I.InventoryOf([B.Entry(name, B.File(text))], sha) == Some([B.FileDigest(name, sha(text))])
  {
    var dir := [B.Entry(name, B.File(text))];
    var d := B.FileDigest(name, sha(text));
    assert dir[1..] == [];
    assert B.Visit("", dir[0], sha) == Some([d]);
    assert B.Walk("", dir[1..], sha) == Some([]);
    assert [d] + [] == [d];
    assert B.Walk("", dir, sha) == Some([d]);
    assert [d][..0] == [] && [d][1..] == [];
    assert O.Sort([d]) == [d] by {
      assert O.Sort([]) == [] && O.Insert(d, []) == [d];
    }
  }

  // ---------- references ----------

  /** A reference carries the manifest's own version, and the digest of what was
      signed. */
  lemma ReferenceNamesVersion(k: K.Crypto, m: K.Manifest)
    ensures PL.RefOf(k, m).version == m.version
    ensures PL.RefOf(k, m).digest == "sha256:" + k.sha(k.payload(m.version, m.createdAt, m.files))
  {
  }
}
