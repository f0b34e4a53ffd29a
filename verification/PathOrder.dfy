/** Go's string order and the sorted form of an inventory. */
module PathOrder {
  import opened BundleInventory

  /** Byte-wise lexicographic order. */
  predicate Less(a: string, b: string) {
    if b == "" then false
    else if a == "" then true
    else if a[0] != b[0] then a[0] < b[0]
    else Less(a[1..], b[1..])
  }

  lemma {:induction false} LessIsTotal(a: string, b: string)
    ensures Less(a, b) || a == b || Less(b, a)
    ensures !(Less(a, b) && Less(b, a)) && !(Less(a, b) && a == b)
    decreases |a|
  {
    if a != "" && b != "" {
      LessIsTotal(a[1..], b[1..]);
      assert a == [a[0]] + a[1..] && b == [b[0]] + b[1..];
    }
  }

  lemma {:induction false} LessIsTransitive(a: string, b: string, c: string)
    requires Less(a, b) && Less(b, c)
    ensures Less(a, c)
    decreases |a|
  {
    if a != "" && a[0] == b[0] && b[0] == c[0] {
      LessIsTransitive(a[1..], b[1..], c[1..]);
    }
  }

  /** Strictly increasing paths: sorted, and no path twice. */
  /** Byte order: at the first difference the smaller byte comes first, and a
      proper prefix comes before what it is a prefix of. */
  ghost predicate ComesBefore(a: string, b: string) {
    || (a <= b && |a| < |b|)
    || exists k: nat :: k < |a| && k < |b| && a[..k] == b[..k] && a[k] < b[k]
  }

  lemma SharedStart(a: string, b: string, k: nat)
    requires 0 < k <= |a| && k <= |b|
    ensures a[..k] == b[..k] ==> a[0] == b[0]
  {
    assert a[..k][0] == a[0] && b[..k][0] == b[0];
  }

  lemma FirstDiffers(a: string, b: string)
    requires a != "" && b != "" && a[0] != b[0]
    ensures ComesBefore(a, b) <==> a[0] < b[0]
  {
    assert a[..0] == b[..0];
    forall k: nat | 0 < k < |a| && k < |b| ensures a[..k] != b[..k] {
      SharedStart(a, b, k);
    }
  }

  lemma {:induction false} LessIsByteOrder(a: string, b: string)
    ensures Less(a, b) <==> ComesBefore(a, b)
    decreases |a|
  {
    if a != "" && b != "" {
      LessIsByteOrder(a[1..], b[1..]);
      if a[0] == b[0] {
        ComesBeforeTail(a, b);
      } else {
        FirstDiffers(a, b);
      }
    }
  }

  lemma ComesBeforeTail(a: string, b: string)
    requires a != "" && b != "" && a[0] == b[0]
    ensures ComesBefore(a, b) <==> ComesBefore(a[1..], b[1..])
  {
    if k: nat :| k < |a| && k < |b| && a[..k] == b[..k] && a[k] < b[k] {
      assert k > 0;
      assert a[1..][..k - 1] == a[..k][1..] == b[..k][1..] == b[1..][..k - 1];
      assert a[1..][k - 1] < b[1..][k - 1];
    }
    if k: nat :| k < |a[1..]| && k < |b[1..]| && a[1..][..k] == b[1..][..k] && a[1..][k] < b[1..][k] {
      assert a[..k + 1] == [a[0]] + a[1..][..k] && b[..k + 1] == [b[0]] + b[1..][..k];
      assert a[k + 1] < b[k + 1];
    }
    assert a <= b <==> a[1..] <= b[1..] by {
      assert a == [a[0]] + a[1..] && b == [b[0]] + b[1..];
    }
  }

  predicate StrictlySorted(files: seq<FileDigest>) {
    forall i, j | 0 <= i < j < |files| :: Less(files[i].path, files[j].path)
  }

  predicate DistinctPaths(files: seq<FileDigest>) {
    forall i, j | 0 <= i < j < |files| :: files[i].path != files[j].path
  }

  function Insert(d: FileDigest, sorted: seq<FileDigest>): seq<FileDigest> {
    if sorted == [] || Less(d.path, sorted[0].path) then [d] + sorted
    else [sorted[0]] + Insert(d, sorted[1..])
  }

  /** sort.Slice by path. */
  function Sort(files: seq<FileDigest>): seq<FileDigest> {
    if files == [] then [] else Insert(files[0], Sort(files[1..]))
  }

  lemma {:induction false} InsertKeeps(d: FileDigest, sorted: seq<FileDigest>)
    ensures multiset(Insert(d, sorted)) == multiset{d} + multiset(sorted)
    ensures forall x :: x in Insert(d, sorted) <==> x == d || x in sorted
  {
    if sorted != [] {
      assert sorted == [sorted[0]] + sorted[1..];
      if !Less(d.path, sorted[0].path) {
        InsertKeeps(d, sorted[1..]);
      }
    }
  }

  lemma {:induction false} InsertSorts(d: FileDigest, sorted: seq<FileDigest>)
    requires StrictlySorted(sorted) && forall x | x in sorted :: x.path != d.path
    ensures StrictlySorted(Insert(d, sorted))
  {
    if sorted == [] {
    } else if Less(d.path, sorted[0].path) {
      forall x | x in sorted ensures Less(d.path, x.path) {
        if x != sorted[0] {
          LessIsTransitive(d.path, sorted[0].path, x.path);
        }
      }
    } else {
      var rest := sorted[1..];
      InsertSorts(d, rest);
      InsertKeeps(d, rest);
      LessIsTotal(d.path, sorted[0].path);
      assert sorted[0] in sorted;
      var after := Insert(d, rest);
      forall x | x in after ensures Less(sorted[0].path, x.path) {}
      assert Insert(d, sorted) == [sorted[0]] + after;
    }
  }

  /** Sorting keeps every entry and orders them strictly. */
  lemma {:induction false} SortIsCorrect(files: seq<FileDigest>)
    requires DistinctPaths(files)
    ensures StrictlySorted(Sort(files))
    ensures multiset(Sort(files)) == multiset(files)
    ensures forall x :: x in Sort(files) <==> x in files
  {
    if files != [] {
      var rest := files[1..];
      assert files == [files[0]] + rest;
      SortIsCorrect(rest);
      InsertKeeps(files[0], Sort(rest));
      InsertSorts(files[0], Sort(rest));
    }
  }

  /** A strictly sorted list is determined by what it contains, so the sorting
      algorithm and the order of its input do not matter. */
  lemma {:induction false} SortedIsUnique(a: seq<FileDigest>, b: seq<FileDigest>)
    requires StrictlySorted(a) && StrictlySorted(b)
    requires forall x :: x in a <==> x in b
    ensures a == b
  {
    assert b != [] ==> b[0] in b;
    if a != [] {
      assert a[0] in a && b != [];
      HeadsAgree(a, b);
      TailAvoidsHead(a);
      TailAvoidsHead(b);
      assert a == [a[0]] + a[1..] && b == [b[0]] + b[1..];
      forall x ensures x in a[1..] <==> x in b[1..] {
        assert x in a <==> x == a[0] || x in a[1..];
        assert x in b <==> x == b[0] || x in b[1..];
      }
      SortedIsUnique(a[1..], b[1..]);
    }
  }

  lemma TailAvoidsHead(a: seq<FileDigest>)
    requires StrictlySorted(a) && a != []
    ensures a[0] !in a[1..]
  {
    LessIsTotal(a[0].path, a[0].path);
  }

  lemma HeadsAgree(a: seq<FileDigest>, b: seq<FileDigest>)
    requires StrictlySorted(a) && StrictlySorted(b) && a != [] && b != []
    requires forall x :: x in a <==> x in b
    ensures a[0] == b[0]
  {
    assert a[0] in b && b[0] in a;
    var i :| 0 <= i < |b| && b[i] == a[0];
    var j :| 0 <= j < |a| && a[j] == b[0];
    LessIsTotal(a[0].path, b[0].path);
  }
}
