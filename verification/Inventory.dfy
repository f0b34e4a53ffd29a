/** The inventory as a whole: canonical, complete, blind to hidden entries. */
module Inventory {
  import opened Types
  import opened BundleInventory
  import opened PathOrder

  /** inventory: walk, then sort; None is a refusal. */
  function InventoryOf(entries: seq<Entry>, sha: string -> string): Option<seq<FileDigest>> {
    match Walk("", entries, sha)
    case Some(found) => Some(Sort(found))
    case None => None
  }

  method TakeInventory(entries: seq<Entry>, sha: string -> string) returns (r: Option<seq<FileDigest>>)
    ensures r == InventoryOf(entries, sha)
  {
    var found := WalkInto("", entries, sha, []);
    if found.None? {
      return None;
    }
    assert [] + Walk("", entries, sha).value == Walk("", entries, sha).value;
    return Some(Sort(found.value));
  }

  // ---------- one entry per file ----------

  predicate SlashFree(path: seq<string>) {
    forall name | name in path :: name != "" && '/' !in name
  }

  lemma FirstSlash(a: string, x: string, b: string, y: string)
    requires '/' !in a && '/' !in b && a + "/" + x == b + "/" + y
    ensures a == b && x == y
  {
    var s, t := a + "/" + x, b + "/" + y;
    assert s[|a|] == '/' && t[|b|] == '/';
    assert s[..|a|] == a && t[..|b|] == b;
    assert |a| == |b| by {
      assert forall i | 0 <= i < |a| :: s[i] == a[i];
      assert forall i | 0 <= i < |b| :: t[i] == b[i];
    }
    assert s[|a| + 1..] == x && t[|b| + 1..] == y;
  }

  lemma {:induction false} JoinPathIsInjective(p: seq<string>, q: seq<string>)
    requires p != [] && q != [] && SlashFree(p) && SlashFree(q)
    requires JoinPath(p) == JoinPath(q)
    ensures p == q
    decreases |p|
  {
    assert p[0] in p && q[0] in q;
    if |p| == 1 && |q| == 1 {
    } else if |p| == 1 || |q| == 1 {
      SlashInJoin(p);
      SlashInJoin(q);
    } else {
      FirstSlash(p[0], JoinPath(p[1..]), q[0], JoinPath(q[1..]));
      SlashFreeTail(p);
      SlashFreeTail(q);
      JoinPathIsInjective(p[1..], q[1..]);
      assert p == [p[0]] + p[1..] && q == [q[0]] + q[1..];
    }
  }

  lemma SlashFreeTail(p: seq<string>)
    requires p != [] && SlashFree(p)
    ensures SlashFree(p[1..])
  {
    forall name | name in p[1..] ensures name in p {}
  }

  lemma SlashInJoin(p: seq<string>)
    requires p != [] && SlashFree(p)
    ensures '/' in JoinPath(p) <==> |p| > 1
  {
    assert p[0] in p;
    if |p| > 1 {
      assert JoinPath(p)[|p[0]|] == '/';
    }
  }

  lemma {:induction false} VisiblePathsAreSlashFree(entries: seq<Entry>, path: seq<string>, node: Node)
    requires WellFormed(entries) && At(entries, path, node)
    ensures SlashFree(path)
    decreases |path|
  {
    var e :| e in entries && Leads(e, path, node);
    if |path| > 1 {
      VisiblePathsAreSlashFree(e.node.entries, path[1..], node);
      assert path == [path[0]] + path[1..];
    }
  }

  lemma EntryPaths(prefix: string, e: Entry, sha: string -> string, d: FileDigest) returns (path: seq<string>)
    requires WellFormed([e]) && Visit(prefix, e, sha).Some? && d in Visit(prefix, e, sha).value
    ensures path != [] && path[0] == e.name && SlashFree(path) && d.path == Under(prefix, JoinPath(path))
  {
    assert e in [e];
    VisitFinds(prefix, e, sha, d);
    path :| EntryLists(prefix, e, path, sha, d);
    var node :| Leads(e, path, node) && ContentOf(node).Some?
                && d == FileDigest(Under(prefix, JoinPath(path)), sha(ContentOf(node).value));
    assert At([e], path, node);
    VisiblePathsAreSlashFree([e], path, node);
  }

  lemma RestPaths(prefix: string, entries: seq<Entry>, sha: string -> string, d: FileDigest) returns (path: seq<string>)
    requires WellFormed(entries) && Walk(prefix, entries, sha).Some? && d in Walk(prefix, entries, sha).value
    ensures path != [] && SlashFree(path) && d.path == Under(prefix, JoinPath(path))
    ensures exists e :: e in entries && e.name == path[0]
  {
    WalkFinds(prefix, entries, sha, d);
    path :| Lists(prefix, entries, path, sha, d);
    var content :| Holds(entries, path, content) && d == FileDigest(Under(prefix, JoinPath(path)), sha(content));
    var node :| At(entries, path, node) && ContentOf(node) == Some(content);
    VisiblePathsAreSlashFree(entries, path, node);
    var e :| e in entries && Leads(e, path, node);
  }

  lemma UnderIsInjective(prefix: string, a: string, b: string)
    requires Under(prefix, a) == Under(prefix, b)
    ensures a == b
  {
    if prefix != "" {
      assert (prefix + "/" + a)[|prefix| + 1..] == a && (prefix + "/" + b)[|prefix| + 1..] == b;
    }
  }

  lemma OtherEntryOtherPath(prefix: string, entries: seq<Entry>, sha: string -> string, d: FileDigest, d': FileDigest)
    requires WellFormed(entries) && entries != [] && Walk(prefix, entries, sha).Some?
    requires d in Visit(prefix, entries[0], sha).value && d' in Walk(prefix, entries[1..], sha).value
    ensures d.path != d'.path
  {
    var rest := entries[1..];
    assert entries[0] in entries;
    assert forall e | e in rest :: e in entries;
    var p := EntryPaths(prefix, entries[0], sha, d);
    var q := RestPaths(prefix, rest, sha, d');
    if d.path == d'.path {
      UnderIsInjective(prefix, JoinPath(p), JoinPath(q));
      JoinPathIsInjective(p, q);
    }
  }

  lemma {:induction false} WalkPathsAreDistinct(prefix: string, entries: seq<Entry>, sha: string -> string)
    requires WellFormed(entries) && Walk(prefix, entries, sha).Some?
    ensures DistinctPaths(Walk(prefix, entries, sha).value)
    decreases entries
  {
    if entries != [] {
      var e, rest := entries[0], entries[1..];
      assert e in entries;
      assert WellFormed(rest) by {
        assert forall x | x in rest :: x in entries;
      }
      WalkPathsAreDistinct(prefix, rest, sha);
      if e.node.Dir? && !Hidden(e.name) {
        WalkPathsAreDistinct(Under(prefix, e.name), e.node.entries, sha);
      }
      var first, others := Visit(prefix, e, sha).value, Walk(prefix, rest, sha).value;
      forall d, d' | d in first && d' in others ensures d.path != d'.path {
        OtherEntryOtherPath(prefix, entries, sha, d, d');
      }
      assert DistinctPaths(first);
    }
  }

  /** The inventory is strictly sorted and lists exactly the visible files,
      each under its slash-joined path with the digest of its content. */
  lemma InventoryIsCanonical(entries: seq<Entry>, sha: string -> string, d: FileDigest)
    requires WellFormed(entries) && InventoryOf(entries, sha).Some?
    ensures StrictlySorted(InventoryOf(entries, sha).value)
    ensures d in InventoryOf(entries, sha).value <==>
            exists path, content ::
              path != [] && Holds(entries, path, content) && d == FileDigest(JoinPath(path), sha(content))
  {
    WalkPathsAreDistinct("", entries, sha);
    SortIsCorrect(Walk("", entries, sha).value);
    WalkFinds("", entries, sha, d);
    if exists path :: Lists("", entries, path, sha, d) {
      var path :| Lists("", entries, path, sha, d);
      var content :| Holds(entries, path, content) && d == FileDigest(Under("", JoinPath(path)), sha(content));
    }
    forall path, content | path != [] && Holds(entries, path, content) && d == FileDigest(JoinPath(path), sha(content))
      ensures Lists("", entries, path, sha, d)
    {
      assert Under("", JoinPath(path)) == JoinPath(path);
    }
  }

  /** It refuses exactly when a visible link is broken or leads to a directory. */
  lemma InventoryRefuses(entries: seq<Entry>, sha: string -> string)
    ensures InventoryOf(entries, sha).None? <==> HasRefused(entries)
  {
    WalkRefuses("", entries, sha);
  }

  ghost predicate SameVisibleFiles(a: seq<Entry>, b: seq<Entry>) {
    forall path, content :: Holds(a, path, content) <==> Holds(b, path, content)
  }

  /** Listing order does not matter: the same visible files give the same inventory. */
  lemma SameFilesSameInventory(a: seq<Entry>, b: seq<Entry>, sha: string -> string)
    requires WellFormed(a) && WellFormed(b) && SameVisibleFiles(a, b)
    requires InventoryOf(a, sha).Some? && InventoryOf(b, sha).Some?
    ensures InventoryOf(a, sha) == InventoryOf(b, sha)
  {
    var x, y := InventoryOf(a, sha).value, InventoryOf(b, sha).value;
    forall d ensures d in x <==> d in y {
      InventoryIsCanonical(a, sha, d);
      InventoryIsCanonical(b, sha, d);
    }
    InventoryIsCanonical(a, sha, FileDigest("", ""));
    InventoryIsCanonical(b, sha, FileDigest("", ""));
    SortedIsUnique(x, y);
  }

  // ---------- hidden entries ----------

  function StripEntry(e: Entry): Entry
    decreases e
  {
    if e.node.Dir? then Entry(e.name, Dir(StripHidden(e.node.entries))) else e
  }

  /** The tree without anything below a hidden name. */
  function StripHidden(entries: seq<Entry>): seq<Entry>
    decreases entries
  {
    if entries == [] then []
    else (if Hidden(entries[0].name) then [] else [StripEntry(entries[0])]) + StripHidden(entries[1..])
  }

  lemma {:induction false} WalkIgnoresHidden(prefix: string, entries: seq<Entry>, sha: string -> string)
    ensures Walk(prefix, StripHidden(entries), sha) == Walk(prefix, entries, sha)
    decreases entries
  {
    if entries != [] {
      var e, rest := entries[0], entries[1..];
      WalkIgnoresHidden(prefix, rest, sha);
      if Hidden(e.name) {
        assert StripHidden(entries) == StripHidden(rest);
        if Walk(prefix, rest, sha).Some? {
          assert [] + Walk(prefix, rest, sha).value == Walk(prefix, rest, sha).value;
        }
      } else {
        if e.node.Dir? {
          WalkIgnoresHidden(Under(prefix, e.name), e.node.entries, sha);
        }
        assert StripHidden(entries)[0] == StripEntry(e) && StripHidden(entries)[1..] == StripHidden(rest);
        assert Visit(prefix, StripEntry(e), sha) == Visit(prefix, e, sha);
      }
    }
  }

  /** Two trees that differ only in hidden files and directories, anywhere,
      have the same inventory, refusals included. */
  lemma HiddenEntriesDoNotMatter(a: seq<Entry>, b: seq<Entry>, sha: string -> string)
    requires StripHidden(a) == StripHidden(b)
    ensures InventoryOf(a, sha) == InventoryOf(b, sha)
  {
    WalkIgnoresHidden("", a, sha);
    WalkIgnoresHidden("", b, sha);
  }

  /** The walk's own order is not path order, so the sort is needed: the
      directory "a" is listed before "a.rego", yet "a.rego" sorts before "a/b". */
  lemma WalkOrderIsNotPathOrder(sha: string -> string, x: string, y: string)
    ensures var tree := [Entry("a", Dir([Entry("b", File(x))])), Entry("a.rego", File(y))];
            && Less("a", "a.rego")
            && Walk("", tree, sha) == Some([FileDigest("a/b", sha(x)), FileDigest("a.rego", sha(y))])
            && !StrictlySorted(Walk("", tree, sha).value)
  {
    var inner := [Entry("b", File(x))];
    var tree := [Entry("a", Dir(inner)), Entry("a.rego", File(y))];
    assert "a.rego"[1..] == ".rego" && "a"[1..] == "";
    assert inner[1..] == [] && tree[1..] == [Entry("a.rego", File(y))] && tree[1..][1..] == [];
    assert Walk("a", inner, sha) == Some([FileDigest("a/b", sha(x))]) by {
      assert "a" + "/" + "b" == "a/b";
      assert [FileDigest("a/b", sha(x))] + [] == [FileDigest("a/b", sha(x))];
      assert Visit("a", inner[0], sha) == Some([FileDigest("a/b", sha(x))]);
      assert Walk("a", inner[1..], sha) == Some([]);
    }
    assert Visit("", tree[0], sha) == Walk("a", inner, sha);
    assert Walk("", tree[1..], sha) == Some([FileDigest("a.rego", sha(y))]) by {
      assert Visit("", tree[1..][0], sha) == Some([FileDigest("a.rego", sha(y))]);
      assert Walk("", tree[1..][1..], sha) == Some([]);
      assert [FileDigest("a.rego", sha(y))] + [] == [FileDigest("a.rego", sha(y))];
    }
    assert [FileDigest("a/b", sha(x))] + [FileDigest("a.rego", sha(y))] ==
           [FileDigest("a/b", sha(x)), FileDigest("a.rego", sha(y))];
    assert Walk("", tree, sha) == Some([FileDigest("a/b", sha(x)), FileDigest("a.rego", sha(y))]);
    assert "a/b"[1..] == "/b" && "/b"[0] == '/' && ".rego"[0] == '.';
    assert !Less("a/b", "a.rego");
    var found := Walk("", tree, sha).value;
    assert !Less(found[0].path, found[1].path);
  }
}
