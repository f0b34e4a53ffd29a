/** The inventory of a policy bundle: the walk over its directory tree, what it
    skips and refuses, and the sort (pkg/policyservice/policyservice.go). */
module BundleInventory {
  import opened Types

  /** Where a symbolic link leads, resolved inside the bundle root. */
  datatype Target = Broken | ToDirectory | ToFile(content: string)

  /** A directory lists its entries in some order. */
  datatype Node = File(content: string) | Symlink(target: Target) | Dir(entries: seq<Entry>)
  datatype Entry = Entry(name: string, node: Node)

  datatype FileDigest = FileDigest(path: string, sha256: string)

  predicate Hidden(name: string) { name != "" && name[0] == '.' }

  /** What a file system guarantees of the names in a directory. */
  predicate WellFormed(entries: seq<Entry>)
    decreases entries
  {
    && (forall i, j | 0 <= i < j < |entries| :: entries[i].name != entries[j].name)
    && (forall e | e in entries :: e.name != "" && '/' !in e.name && (e.node.Dir? ==> WellFormed(e.node.entries)))
  }

  function ContentOf(node: Node): Option<string> {
    match node
    case File(content) => Some(content)
    case Symlink(ToFile(content)) => Some(content)
    case _ => None
  }

  predicate Refused(node: Node) { node == Symlink(Broken) || node == Symlink(ToDirectory) }

  // ---------- the walk ----------

  function Under(prefix: string, name: string): string {
    if prefix == "" then name else prefix + "/" + name
  }

  /** The callback of WalkDir on one entry; None is an error that ends the walk. */
  function Visit(prefix: string, e: Entry, sha: string -> string): Option<seq<FileDigest>>
    decreases e
  {
    var path := Under(prefix, e.name);
    if Hidden(e.name) then Some([])
    else if e.node.Dir? then Walk(path, e.node.entries, sha)
    else if Refused(e.node) then None
    else Some([FileDigest(path, sha(ContentOf(e.node).value))])
  }

  function Walk(prefix: string, entries: seq<Entry>, sha: string -> string): Option<seq<FileDigest>>
    decreases entries
  {
    if entries == [] then Some([])
    else
      match (Visit(prefix, entries[0], sha), Walk(prefix, entries[1..], sha))
      case (Some(first), Some(rest)) => Some(first + rest)
      case _ => None
  }

  function Plus(out: seq<FileDigest>, found: Option<seq<FileDigest>>): Option<seq<FileDigest>> {
    match found
    case Some(more) => Some(out + more)
    case None => None
  }

  lemma PlusStep(out: seq<FileDigest>, prefix: string, entries: seq<Entry>, sha: string -> string)
    requires entries != []
    ensures Plus(out, Walk(prefix, entries, sha)) ==
            match Visit(prefix, entries[0], sha)
            case Some(first) => Plus(out + first, Walk(prefix, entries[1..], sha))
            case None => None
  {
    if Walk(prefix, entries, sha).Some? {
      var first, rest := Visit(prefix, entries[0], sha).value, Walk(prefix, entries[1..], sha).value;
      assert out + (first + rest) == (out + first) + rest;
    }
  }

  /** The walk as the source writes it: entry by entry, appending to `out`. */
  method WalkInto(prefix: string, entries: seq<Entry>, sha: string -> string, out: seq<FileDigest>)
    returns (r: Option<seq<FileDigest>>)
    ensures r == Plus(out, Walk(prefix, entries, sha))
    decreases entries
  {
    var acc := out;
    for i := 0 to |entries|
      invariant Plus(out, Walk(prefix, entries, sha)) == Plus(acc, Walk(prefix, entries[i..], sha))
    {
      var e := entries[i];
      assert entries[i..][0] == e && entries[i..][1..] == entries[i + 1..];
      PlusStep(acc, prefix, entries[i..], sha);
      var path := Under(prefix, e.name);
      if Hidden(e.name) {
        assert acc + [] == acc;
      } else {
        match e.node
        case Dir(inner) =>
          var sub := WalkInto(path, inner, sha, acc);
          if sub.None? {
            return None;
          }
          acc := sub.value;
        case Symlink(Broken) => return None;
        case Symlink(ToDirectory) => return None;
        case Symlink(ToFile(content)) => acc := acc + [FileDigest(path, sha(content))];
        case File(content) => acc := acc + [FileDigest(path, sha(content))];
      }
    }
    assert entries[|entries|..] == [];
    assert acc + [] == acc;
    return Some(acc);
  }

  // ---------- visible nodes ----------

  /** `node` is at this path and no component of the path is hidden. */
  ghost predicate At(entries: seq<Entry>, path: seq<string>, node: Node)
    decreases |path|
  {
    path != [] && exists e :: e in entries && Leads(e, path, node)
  }

  ghost predicate Leads(e: Entry, path: seq<string>, node: Node)
    requires path != []
    decreases |path|, 0
  {
    && e.name == path[0] && !Hidden(e.name)
    && if |path| == 1 then e.node == node else e.node.Dir? && At(e.node.entries, path[1..], node)
  }

  /** A visible file with this content, directly or through a link. */
  ghost predicate Holds(entries: seq<Entry>, path: seq<string>, content: string) {
    exists node :: At(entries, path, node) && ContentOf(node) == Some(content)
  }

  function JoinPath(path: seq<string>): string
    requires path != []
  {
    if |path| == 1 then path[0] else path[0] + "/" + JoinPath(path[1..])
  }

  lemma UnderJoin(prefix: string, path: seq<string>)
    requires |path| > 1 && path[0] != ""
    ensures Under(Under(prefix, path[0]), JoinPath(path[1..])) == Under(prefix, JoinPath(path))
  {
    assert prefix != "" ==>
      (prefix + "/" + path[0]) + "/" + JoinPath(path[1..]) == prefix + "/" + (path[0] + "/" + JoinPath(path[1..]));
  }

  /** A digest entry for the visible file at `path` below `prefix`. */
  ghost predicate Lists(prefix: string, entries: seq<Entry>, path: seq<string>, sha: string -> string, d: FileDigest) {
    && path != []
    && exists content :: Holds(entries, path, content) && d == FileDigest(Under(prefix, JoinPath(path)), sha(content))
  }

  ghost predicate EntryLists(prefix: string, e: Entry, path: seq<string>, sha: string -> string, d: FileDigest) {
    && path != []
    && exists node :: Leads(e, path, node) && ContentOf(node).Some?
                      && d == FileDigest(Under(prefix, JoinPath(path)), sha(ContentOf(node).value))
  }

  lemma ListsByEntry(prefix: string, entries: seq<Entry>, path: seq<string>, sha: string -> string, d: FileDigest)
    ensures Lists(prefix, entries, path, sha, d) <==> exists e :: e in entries && EntryLists(prefix, e, path, sha, d)
  {
    if Lists(prefix, entries, path, sha, d) {
      var content :| Holds(entries, path, content) && d == FileDigest(Under(prefix, JoinPath(path)), sha(content));
      var node :| At(entries, path, node) && ContentOf(node) == Some(content);
      var e :| e in entries && Leads(e, path, node);
      assert EntryLists(prefix, e, path, sha, d);
    }
    forall e | e in entries && EntryLists(prefix, e, path, sha, d) ensures Lists(prefix, entries, path, sha, d) {
      var node :| Leads(e, path, node) && ContentOf(node).Some?
                  && d == FileDigest(Under(prefix, JoinPath(path)), sha(ContentOf(node).value));
      assert At(entries, path, node);
      assert Holds(entries, path, ContentOf(node).value);
    }
  }

  /** The walk finds exactly the visible files. */
  lemma {:induction false} WalkFinds(prefix: string, entries: seq<Entry>, sha: string -> string, d: FileDigest)
    requires WellFormed(entries) && Walk(prefix, entries, sha).Some?
    ensures d in Walk(prefix, entries, sha).value <==> exists path :: Lists(prefix, entries, path, sha, d)
    decreases entries
  {
    if entries != [] {
      var e, rest := entries[0], entries[1..];
      assert entries == [e] + rest;
      assert WellFormed(rest);
      VisitFinds(prefix, e, sha, d);
      WalkFinds(prefix, rest, sha, d);
      forall path ensures Lists(prefix, entries, path, sha, d) <==>
                          EntryLists(prefix, e, path, sha, d) || Lists(prefix, rest, path, sha, d) {
        ListsByEntry(prefix, entries, path, sha, d);
        ListsByEntry(prefix, rest, path, sha, d);
      }
    } else {
      forall path ensures !Lists(prefix, entries, path, sha, d) {
        ListsByEntry(prefix, entries, path, sha, d);
      }
    }
  }

  lemma {:induction false} VisitFinds(prefix: string, e: Entry, sha: string -> string, d: FileDigest)
    requires e.name != "" && (e.node.Dir? ==> WellFormed(e.node.entries)) && Visit(prefix, e, sha).Some?
    ensures d in Visit(prefix, e, sha).value <==> exists path :: EntryLists(prefix, e, path, sha, d)
    decreases e
  {
    if !Hidden(e.name) {
      if e.node.Dir? {
        WalkFinds(Under(prefix, e.name), e.node.entries, sha, d);
        forall path | Lists(Under(prefix, e.name), e.node.entries, path, sha, d)
          ensures EntryLists(prefix, e, [e.name] + path, sha, d)
        {
          DirectoryLists(prefix, e, path, sha, d);
        }
        forall path | EntryLists(prefix, e, path, sha, d)
          ensures Lists(Under(prefix, e.name), e.node.entries, path[1..], sha, d)
        {
          assert path == [e.name] + path[1..];
          DirectoryLists(prefix, e, path[1..], sha, d);
        }
      } else if d in Visit(prefix, e, sha).value {
        assert Leads(e, [e.name], e.node);
        assert EntryLists(prefix, e, [e.name], sha, d);
      } else {
        forall path ensures !EntryLists(prefix, e, path, sha, d) {
          assert EntryLists(prefix, e, path, sha, d) ==> path == [e.name];
        }
      }
    }
  }

  lemma DirectoryLists(prefix: string, e: Entry, path: seq<string>, sha: string -> string, d: FileDigest)
    requires e.name != "" && e.node.Dir? && !Hidden(e.name)
    ensures EntryLists(prefix, e, [e.name] + path, sha, d) <==>
            Lists(Under(prefix, e.name), e.node.entries, path, sha, d)
  {
    var whole := [e.name] + path;
    assert whole[1..] == path;
    if path != [] {
      UnderJoin(prefix, whole);
      forall node ensures Leads(e, whole, node) <==> At(e.node.entries, path, node) {}
      if EntryLists(prefix, e, whole, sha, d) {
        var node :| Leads(e, whole, node) && ContentOf(node).Some?
                    && d == FileDigest(Under(prefix, JoinPath(whole)), sha(ContentOf(node).value));
        assert Holds(e.node.entries, path, ContentOf(node).value);
      }
      if Lists(Under(prefix, e.name), e.node.entries, path, sha, d) {
        var content :| Holds(e.node.entries, path, content)
                       && d == FileDigest(Under(Under(prefix, e.name), JoinPath(path)), sha(content));
        var node :| At(e.node.entries, path, node) && ContentOf(node) == Some(content);
        assert Leads(e, whole, node);
      }
    } else {
      assert whole == [e.name];
    }
  }

  ghost predicate HasRefused(entries: seq<Entry>) {
    exists path, node :: At(entries, path, node) && Refused(node)
  }

  ghost predicate LeadsToRefused(e: Entry) {
    exists path, node :: path != [] && Leads(e, path, node) && Refused(node)
  }

  lemma HasRefusedByEntry(entries: seq<Entry>)
    ensures HasRefused(entries) <==> exists e :: e in entries && LeadsToRefused(e)
  {
    if HasRefused(entries) {
      var path, node :| At(entries, path, node) && Refused(node);
      var e :| e in entries && Leads(e, path, node);
      assert LeadsToRefused(e);
    }
    forall e | e in entries && LeadsToRefused(e) ensures HasRefused(entries) {
      var path, node :| path != [] && Leads(e, path, node) && Refused(node);
      assert At(entries, path, node);
    }
  }

  /** The walk refuses exactly when a visible link is broken or leads to a directory. */
  lemma {:induction false} WalkRefuses(prefix: string, entries: seq<Entry>, sha: string -> string)
    ensures Walk(prefix, entries, sha).None? <==> HasRefused(entries)
    decreases entries
  {
    HasRefusedByEntry(entries);
    if entries != [] {
      var e, rest := entries[0], entries[1..];
      assert entries == [e] + rest;
      VisitRefuses(prefix, e, sha);
      WalkRefuses(prefix, rest, sha);
      HasRefusedByEntry(rest);
    }
  }

  lemma {:induction false} VisitRefuses(prefix: string, e: Entry, sha: string -> string)
    ensures Visit(prefix, e, sha).None? <==> LeadsToRefused(e)
    decreases e
  {
    if e.node.Dir? {
      WalkRefuses(Under(prefix, e.name), e.node.entries, sha);
      if !Hidden(e.name) && HasRefused(e.node.entries) {
        var path, node :| At(e.node.entries, path, node) && Refused(node);
        assert ([e.name] + path)[1..] == path;
        assert Leads(e, [e.name] + path, node);
      }
    } else if !Hidden(e.name) && Refused(e.node) {
      assert Leads(e, [e.name], e.node);
    }
    if LeadsToRefused(e) {
      var path, node :| path != [] && Leads(e, path, node) && Refused(node);
      if e.node.Dir? {
        assert |path| > 1;
        assert At(e.node.entries, path[1..], node);
      }
    }
  }
}
