/** Tool routing and tool visibility (pkg/mcp/registry.go and ListTools in
    internal/gateway/gateway.go). */
module Listing {
  import opened Types
  import opened ToolGateway
  import U = UsageWindow

  datatype Tool = Tool(name: string, description: string)

  /** One tool as one upstream lists it. */
  datatype Listed = Listed(tool: Tool, upstream: string)

  // ---------- the registry ----------

  function ListedBy(upstream: string, tools: seq<Tool>): (r: seq<Listed>)
    ensures |r| == |tools| && forall i | 0 <= i < |r| :: r[i] == Listed(tools[i], upstream)
  {
    seq(|tools|, i requires 0 <= i < |tools| => Listed(tools[i], upstream))
  }

  /** Everything the upstreams list, in order; None if one of them fails. */
  function Catalog(upstreams: seq<string>, answers: seq<Option<seq<Tool>>>): Option<seq<Listed>>
    requires |answers| == |upstreams|
  {
    if upstreams == [] then Some([])
    else
      var n := |upstreams| - 1;
      match (Catalog(upstreams[..n], answers[..n]), answers[n])
      case (Some(front), Some(tools)) => Some(front + ListedBy(upstreams[n], tools))
      case _ => None
  }

  function ToolsOf(listed: seq<Listed>): (r: seq<Tool>)
    ensures |r| == |listed| && forall i | 0 <= i < |r| :: r[i] == listed[i].tool
  {
    seq(|listed|, i requires 0 <= i < |listed| => listed[i].tool)
  }

  /** The upstream of the last entry with a given name. */
  function LastUpstream(listed: seq<Listed>, name: string): Option<string> {
    if listed == [] then None
    else
      var last := listed[|listed| - 1];
      if last.tool.name == name then Some(last.upstream) else LastUpstream(listed[..|listed| - 1], name)
  }

  ghost predicate IndexedAs(index: map<string, string>, name: string, upstream: Option<string>) {
    match upstream
    case Some(u) => name in index && index[name] == u
    case None => name !in index
  }

  ghost predicate Indexes(index: map<string, string>, listed: seq<Listed>) {
    forall name: string :: IndexedAs(index, name, LastUpstream(listed, name))
  }

  ghost predicate IsLastListing(listed: seq<Listed>, i: nat, name: string)
    requires i < |listed|
  {
    listed[i].tool.name == name && forall j | i < j < |listed| :: listed[j].tool.name != name
  }

  ghost predicate Lists(listed: seq<Listed>, name: string) {
    exists i :: 0 <= i < |listed| && listed[i].tool.name == name
  }

  lemma ListsMore(listed: seq<Listed>, name: string)
    requires listed != []
    ensures Lists(listed, name) <==> Lists(listed[..|listed| - 1], name) || listed[|listed| - 1].tool.name == name
  {
    var front := listed[..|listed| - 1];
    if Lists(listed, name) {
      var i :| 0 <= i < |listed| && listed[i].tool.name == name;
      assert i < |front| ==> front[i].tool.name == name;
    }
    if Lists(front, name) {
      var i :| 0 <= i < |front| && front[i].tool.name == name;
      assert listed[i].tool.name == name;
    }
  }

  lemma {:induction false} FoundIffListed(listed: seq<Listed>, name: string)
    ensures LastUpstream(listed, name).Some? <==> Lists(listed, name)
  {
    if listed != [] {
      ListsMore(listed, name);
      FoundIffListed(listed[..|listed| - 1], name);
    }
  }

  lemma {:induction false} LastListingWins(listed: seq<Listed>, i: nat, name: string)
    requires i < |listed| && IsLastListing(listed, i, name)
    ensures LastUpstream(listed, name) == Some(listed[i].upstream)
  {
    if i < |listed| - 1 {
      assert listed[|listed| - 1].tool.name != name;
      LastListingWins(listed[..|listed| - 1], i, name);
    }
  }

  /** Exactly the listed names are keys, each mapped to the upstream that
      lists it last. */
  lemma IndexMeaning(index: map<string, string>, listed: seq<Listed>, name: string)
    requires Indexes(index, listed)
    ensures name in index <==> Lists(listed, name)
    ensures forall i | 0 <= i < |listed| && IsLastListing(listed, i, name) ::
              name in index && index[name] == listed[i].upstream
  {
    FoundIffListed(listed, name);
    assert IndexedAs(index, name, LastUpstream(listed, name));
    forall i | 0 <= i < |listed| && IsLastListing(listed, i, name)
      ensures name in index && index[name] == listed[i].upstream
    {
      LastListingWins(listed, i, name);
    }
  }

  lemma IndexesMore(index: map<string, string>, listed: seq<Listed>, l: Listed)
    requires Indexes(index, listed)
    ensures Indexes(index[l.tool.name := l.upstream], listed + [l])
    ensures ToolsOf(listed + [l]) == ToolsOf(listed) + [l.tool]
  {
    forall name: string
      ensures IndexedAs(index[l.tool.name := l.upstream], name, LastUpstream(listed + [l], name))
    {
      assert (listed + [l])[..|listed|] == listed;
      assert IndexedAs(index, name, LastUpstream(listed, name));
    }
  }

  class StaticRegistry {
    const upstreams: seq<string>
    var byTool: map<string, string>
    var tools: seq<Tool>

    constructor (upstreams: seq<string>)
      ensures this.upstreams == upstreams && byTool == map[] && tools == []
    {
      this.upstreams, byTool, tools := upstreams, map[], [];
    }

    /** Refresh: rebuild index and list from every upstream, or leave both
        untouched when one of them cannot be listed. */
    method Refresh(answers: seq<Option<seq<Tool>>>) returns (ok: bool)
      requires |answers| == |upstreams|
      modifies this
      ensures ok <==> Catalog(upstreams, answers).Some?
      ensures ok ==> tools == ToolsOf(Catalog(upstreams, answers).value)
      ensures ok ==> Indexes(byTool, Catalog(upstreams, answers).value)
      ensures !ok ==> byTool == old(byTool) && tools == old(tools)
    {
      var index: map<string, string> := map[];
      var all: seq<Tool> := [];
      ghost var seen: seq<Listed> := [];
      for u := 0 to |upstreams|
        invariant Catalog(upstreams[..u], answers[..u]) == Some(seen)
        invariant Indexes(index, seen) && all == ToolsOf(seen)
        invariant byTool == old(byTool) && tools == old(tools)
      {
        assert upstreams[..u + 1][..u] == upstreams[..u] && answers[..u + 1][..u] == answers[..u];
        if answers[u].None? {
          CatalogFails(upstreams, answers, u + 1);
          return false;
        }
        index, all, seen := AddListing(index, all, seen, upstreams[u], answers[u].value);
      }
      assert upstreams[..|upstreams|] == upstreams && answers[..|answers|] == answers;
      byTool, tools := index, all;
      return true;
    }
  }

  /** The inner loop of Refresh. */
  method AddListing(index: map<string, string>, all: seq<Tool>, ghost seen: seq<Listed>, upstream: string,
                    listing: seq<Tool>)
    returns (index': map<string, string>, all': seq<Tool>, ghost seen': seq<Listed>)
    requires Indexes(index, seen) && all == ToolsOf(seen)
    ensures seen' == seen + ListedBy(upstream, listing)
    ensures Indexes(index', seen') && all' == ToolsOf(seen')
  {
    index', all', seen' := index, all, seen;
    for t := 0 to |listing|
      invariant seen' == seen + ListedBy(upstream, listing)[..t]
      invariant Indexes(index', seen') && all' == ToolsOf(seen')
    {
      var l := Listed(listing[t], upstream);
      IndexesMore(index', seen', l);
      assert ListedBy(upstream, listing)[..t + 1] == ListedBy(upstream, listing)[..t] + [l];
      index' := index'[listing[t].name := upstream];
      all' := all' + [listing[t]];
      seen' := seen' + [l];
    }
  }

  lemma {:induction false} CatalogFails(upstreams: seq<string>, answers: seq<Option<seq<Tool>>>, n: nat)
    requires |answers| == |upstreams| && n <= |upstreams| && Catalog(upstreams[..n], answers[..n]).None?
    ensures Catalog(upstreams, answers).None?
    decreases |upstreams| - n
  {
    if n == |upstreams| {
      assert upstreams[..n] == upstreams && answers[..n] == answers;
    } else {
      assert upstreams[..n + 1][..n] == upstreams[..n] && answers[..n + 1][..n] == answers[..n];
      CatalogFails(upstreams, answers, n + 1);
    }
  }

  // ---------- visibility ----------

  /** A decider: None is an error. */
  type Decider = DecisionRequest -> Option<Decision>

  predicate Passes(decide: Decider, dr: DecisionRequest) {
    decide(dr).Some? && Permits(decide(dr).value)
  }

  /** Who looks at the list, when, and with which usage count. */
  datatype Viewer = Viewer(subject: Subject, requestId: string, now: Time, calls: nat)

  /** The question ListTools asks about a declared tool. */
  function ListRequest(v: Viewer, tool: string, entry: ToolEntry): DecisionRequest {
    DecisionRequest(v.subject, Action("tool_call", tool, "", map[], entry.risk, entry.dataClasses, entry.scopes),
                    v.requestId, v.now, Usage(v.calls, U.Seconds(U.DEFAULT_WINDOW)))
  }

  predicate MayBeShown(c: Config, v: Viewer, decide: Decider, name: string) {
    name in c.tools && Passes(decide, ListRequest(v, name, c.tools[name]))
  }

  /** The tools that may be shown, in registry order. */
  function VisibleTools(c: Config, v: Viewer, decide: Decider, tools: seq<Tool>): (r: seq<Tool>)
    ensures forall t :: t in r <==> t in tools && MayBeShown(c, v, decide, t.name)
  {
    if tools == [] then []
    else
      var last := tools[|tools| - 1];
      assert tools == tools[..|tools| - 1] + [last];
      VisibleTools(c, v, decide, tools[..|tools| - 1]) + if MayBeShown(c, v, decide, last.name) then [last] else []
  }

  /** ListTools: an unresolved or undeclared caller sees nothing; otherwise the
      declared tools policy lets through, in registry order. It reads the usage
      counter without moving it. */
  method ListTools(c: Config, tools: seq<Tool>, usage: U.UsageTracker, who: Option<Subject>, requestId: string,
                   now: Time, decide: Decider)
    returns (visible: seq<Tool>)
    requires usage.window == U.DEFAULT_WINDOW
    ensures who.None? || !AgentDeclared(c, who.value) ==> visible == []
    ensures who.Some? && AgentDeclared(c, who.value) ==>
              var calls := U.Count(usage.state, who.value.id, now, U.DEFAULT_WINDOW);
              visible == VisibleTools(c, Viewer(who.value, requestId, now, calls), decide, tools)
  {
    visible := [];
    if who.None? || !AgentDeclared(c, who.value) {
      return;
    }
    var subject := who.value;
    ghost var v := Viewer(subject, requestId, now, U.Count(usage.state, subject.id, now, U.DEFAULT_WINDOW));
    for i := 0 to |tools|
      invariant visible == VisibleTools(c, v, decide, tools[..i])
    {
      assert tools[..i + 1][..i] == tools[..i];
      var t := tools[i];
      if t.name in c.tools {
        var peek := usage.UsagePeek(subject.id, now);
        var entry := c.tools[t.name];
        var action := Action("tool_call", t.name, "", map[], entry.risk, entry.dataClasses, entry.scopes);
        var dr := DecisionRequest(subject, action, requestId, now, peek);
        var d := decide(dr);
        if d.Some? && (d.value.outcome == Allow || d.value.outcome == AllowWithObligations) {
          visible := visible + [t];
        }
      }
    }
    assert tools[..|tools|] == tools;
  }

  // ---------- listing and calling agree ----------

  predicate SameTool(a: DecisionRequest, b: DecisionRequest) {
    && a.subject == b.subject && a.action.kind == b.action.kind && a.action.tool == b.action.tool
    && a.action.risk == b.action.risk && a.action.dataClasses == b.action.dataClasses
    && a.action.requiredScopes == b.action.requiredScopes
  }

  /** A policy that looks only at the subject and the tool's type, name and
      registry metadata. */
  ghost predicate LooksAtToolOnly(decide: Decider) {
    forall a: DecisionRequest, b: DecisionRequest | SameTool(a, b) :: Passes(decide, a) == Passes(decide, b)
  }

  ghost predicate Shows(visible: seq<Tool>, name: string) {
    exists t :: t in visible && t.name == name
  }

  lemma ShownIff(c: Config, v: Viewer, decide: Decider, listed: seq<Listed>, index: map<string, string>, name: string)
    requires Indexes(index, listed)
    ensures Shows(VisibleTools(c, v, decide, ToolsOf(listed)), name) <==>
            name in index && MayBeShown(c, v, decide, name)
  {
    var tools := ToolsOf(listed);
    IndexMeaning(index, listed, name);
    if Shows(VisibleTools(c, v, decide, tools), name) {
      var t :| t in VisibleTools(c, v, decide, tools) && t.name == name;
      var i :| 0 <= i < |tools| && tools[i] == t;
      assert listed[i].tool.name == name;
    }
    if Lists(listed, name) && MayBeShown(c, v, decide, name) {
      var i :| 0 <= i < |listed| && listed[i].tool.name == name;
      assert tools[i] in VisibleTools(c, v, decide, tools);
    }
  }
}
