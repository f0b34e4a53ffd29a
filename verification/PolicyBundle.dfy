/** Signed policy bundles: manifest, sign and verify
    (pkg/policyservice/policyservice.go). */
module PolicyBundle {
  import opened Types
  import opened BundleInventory
  import opened PathOrder
  import opened Inventory

  datatype Manifest = Manifest(
    version: string, createdAt: Time, files: seq<FileDigest>, keyId: string, signature: string)

  /** SHA-256, the JSON text of the signed payload, and Ed25519 with its key
      identifiers. The check covers the base64 form of the signature. */
  datatype Crypto = Crypto(
    sha: string -> string,
    payload: (string, Time, seq<FileDigest>) -> string,
    validPublic: string -> bool,
    validPrivate: string -> bool,
    publicOf: string -> string,
    keyId: string -> string,
    sign: (string, string) -> string,
    check: (string, string, string) -> bool)

  /** What the source relies on: distinct payload texts for distinct contents
      and no SHA-256 collisions; key identifiers and signatures are never
      empty; a signature made with a key checks under its public half
      (sections 5.1.6 and 5.1.7 of RFC 8032). */
  ghost predicate Trustworthy(k: Crypto) {
    && (forall a, b :: k.sha(a) == k.sha(b) ==> a == b)
    && (forall v, t, f, v', t', f' :: k.payload(v, t, f) == k.payload(v', t', f') ==> v == v' && t == t' && f == f')
    && (forall pub :: k.keyId(pub) != "")
    && (forall key, text :: k.validPrivate(key) ==>
          && k.validPublic(k.publicOf(key)) && k.sign(key, text) != ""
          && k.check(k.publicOf(key), text, k.sign(key, text)))
  }

  /** signedPayload: everything but the key id and the signature. */
  function PayloadOf(k: Crypto, m: Manifest): string {
    k.payload(m.version, m.createdAt, m.files)
  }

  function Digest(k: Crypto, m: Manifest): string {
    "sha256:" + k.sha(PayloadOf(k, m))
  }

  /** The manifest was signed by the holder of the key. */
  predicate Authentic(k: Crypto, m: Manifest, pub: string) {
    && k.validPublic(pub)
    && m.keyId != "" && m.signature != ""
    && m.keyId == k.keyId(pub)
    && k.check(pub, PayloadOf(k, m), m.signature)
  }

  // ---------- path-to-digest maps ----------

  function AsMap(files: seq<FileDigest>): map<string, string> {
    if files == [] then map[]
    else AsMap(files[..|files| - 1])[files[|files| - 1].path := files[|files| - 1].sha256]
  }

  lemma {:induction false} AsMapKeys(files: seq<FileDigest>, path: string)
    ensures path in AsMap(files) <==> exists i :: 0 <= i < |files| && files[i].path == path
  {
    if files != [] {
      var front := files[..|files| - 1];
      AsMapKeys(front, path);
      if exists i :: 0 <= i < |front| && front[i].path == path {
        var i :| 0 <= i < |front| && front[i].path == path;
        assert files[i].path == path;
      }
    }
  }

  lemma {:induction false} AsMapValue(files: seq<FileDigest>, i: nat)
    requires DistinctPaths(files) && i < |files|
    ensures files[i].path in AsMap(files) && AsMap(files)[files[i].path] == files[i].sha256
  {
    if i < |files| - 1 {
      AsMapValue(files[..|files| - 1], i);
    }
  }

  lemma AsMapStep(files: seq<FileDigest>, i: nat)
    requires i < |files|
    ensures AsMap(files[..i + 1]) == AsMap(files[..i])[files[i].path := files[i].sha256]
  {
    assert files[..i + 1][..i] == files[..i];
  }

  // ---------- verification ----------

  datatype Verdict =
    | Verified
    | InvalidKey | Unsigned | WrongKey | BadSignature
    | Unreadable
    | ListedTwice(path: string)
    | NotCovered(path: string)
    | Altered(path: string)
    | Missing(paths: set<string>)

  /** The manifest is authentic, lists no path twice, and maps exactly the
      visible files on disk to their digests. */
  predicate Matches(k: Crypto, dir: seq<Entry>, m: Manifest, pub: string) {
    && Authentic(k, m, pub)
    && DistinctPaths(m.files)
    && var onDisk := InventoryOf(dir, k.sha);
       onDisk.Some? && AsMap(onDisk.value) == AsMap(m.files)
  }

  /** The first loop: fill `signed`, refusing a path listed twice. */
  method FillSigned(files: seq<FileDigest>) returns (signed: map<string, string>, twice: Option<string>)
    ensures twice.None? <==> DistinctPaths(files)
    ensures twice.None? ==> signed == AsMap(files)
    ensures twice.Some? ==> exists i, j :: 0 <= i < j < |files| && files[i].path == files[j].path == twice.value
  {
    signed, twice := map[], None;
    for i := 0 to |files|
      invariant DistinctPaths(files[..i]) && signed == AsMap(files[..i])
    {
      AsMapKeys(files[..i], files[i].path);
      AsMapStep(files, i);
      if files[i].path in signed {
        twice := Some(files[i].path);
        return;
      }
      signed := signed[files[i].path := files[i].sha256];
    }
    assert files[..|files|] == files;
  }

  /** The second loop: match each file on disk and delete it from `signed`. */
  method MatchDisk(onDisk: seq<FileDigest>, all: map<string, string>)
    returns (left: map<string, string>, fault: Option<FileDigest>)
    requires DistinctPaths(onDisk)
    ensures fault.None? ==>
              && (forall d | d in onDisk :: d.path in all && all[d.path] == d.sha256)
              && left.Keys == all.Keys - AsMap(onDisk).Keys
    ensures fault.Some? ==>
              && fault.value in onDisk
              && (fault.value.path !in all || all[fault.value.path] != fault.value.sha256)
  {
    left, fault := all, None;
    for i := 0 to |onDisk|
      invariant left.Keys == all.Keys - AsMap(onDisk[..i]).Keys
      invariant forall path | path in left :: left[path] == all[path]
      invariant forall d | d in onDisk[..i] :: d.path in all && all[d.path] == d.sha256
    {
      var d := onDisk[i];
      AsMapKeys(onDisk[..i], d.path);
      AsMapStep(onDisk, i);
      if d.path !in left || left[d.path] != d.sha256 {
        fault := Some(d);
        return;
      }
      left := left - {d.path};
    }
    assert onDisk[..|onDisk|] == onDisk;
  }

  lemma {:induction false} SameMapIff(onDisk: seq<FileDigest>, all: map<string, string>)
    requires DistinctPaths(onDisk)
    ensures AsMap(onDisk) == all <==>
            (forall d | d in onDisk :: d.path in all && all[d.path] == d.sha256) && all.Keys <= AsMap(onDisk).Keys
  {
    forall i | 0 <= i < |onDisk|
      ensures onDisk[i].path in AsMap(onDisk) && AsMap(onDisk)[onDisk[i].path] == onDisk[i].sha256
    {
      AsMapValue(onDisk, i);
    }
    if (forall d | d in onDisk :: d.path in all && all[d.path] == d.sha256) && all.Keys <= AsMap(onDisk).Keys {
      forall path | path in AsMap(onDisk) ensures path in all && all[path] == AsMap(onDisk)[path] {
        AsMapKeys(onDisk, path);
        var i :| 0 <= i < |onDisk| && onDisk[i].path == path;
        assert onDisk[i] in onDisk;
      }
      assert AsMap(onDisk) == all;
    }
  }

  /** Every refusal names a fault that is really there. */
  predicate Explained(v: Verdict, onDisk: map<string, string>, files: seq<FileDigest>) {
    match v
    case ListedTwice(path) => exists i, j :: 0 <= i < j < |files| && files[i].path == path && files[j].path == path
    case NotCovered(path) => path in onDisk && path !in AsMap(files)
    case Altered(path) => path in onDisk && path in AsMap(files) && onDisk[path] != AsMap(files)[path]
    case Missing(paths) => paths != {} && paths == AsMap(files).Keys - onDisk.Keys
    case _ => v.Verified?
  }

  method Compare(onDisk: seq<FileDigest>, files: seq<FileDigest>) returns (v: Verdict)
    requires DistinctPaths(onDisk)
    ensures v == Verified <==> DistinctPaths(files) && AsMap(onDisk) == AsMap(files)
    ensures Explained(v, AsMap(onDisk), files)
  {
    var signed, twice := FillSigned(files);
    if twice.Some? {
      return ListedTwice(twice.value);
    }
    SameMapIff(onDisk, signed);
    var left, fault := MatchDisk(onDisk, signed);
    if fault.Some? {
      var d := fault.value;
      ghost var i :| 0 <= i < |onDisk| && onDisk[i] == d;
      AsMapValue(onDisk, i);
      return if d.path !in signed then NotCovered(d.path) else Altered(d.path);
    }
    if left.Keys != {} {
      return Missing(left.Keys);
    }
    assert forall path | path in signed :: path in left.Keys || path in AsMap(onDisk);
    return Verified;
  }

  /** The checks on the manifest alone, before the file system is looked at. */
  method Authenticate(k: Crypto, m: Manifest, pub: string) returns (v: Verdict)
    ensures v == Verified <==> Authentic(k, m, pub)
    ensures v in {Verified, InvalidKey, Unsigned, WrongKey, BadSignature}
  {
    if !k.validPublic(pub) { return InvalidKey; }
    if m.keyId == "" || m.signature == "" { return Unsigned; }
    if m.keyId != k.keyId(pub) { return WrongKey; }
    if !k.check(pub, PayloadOf(k, m), m.signature) { return BadSignature; }
    return Verified;
  }

  /** Verify accepts exactly the bundles that match an authentic manifest, and
      says truthfully why it refuses the others. */
  method Verify(k: Crypto, dir: seq<Entry>, m: Manifest, pub: string) returns (v: Verdict)
    requires WellFormed(dir)
    ensures v == Verified <==> Matches(k, dir, m, pub)
    ensures v in {InvalidKey, Unsigned, WrongKey, BadSignature} <==> !Authentic(k, m, pub)
    ensures v == Unreadable <==> Authentic(k, m, pub) && HasRefused(dir)
    ensures InventoryOf(dir, k.sha).Some? && Authentic(k, m, pub) ==>
              Explained(v, AsMap(InventoryOf(dir, k.sha).value), m.files)
  {
    v := Authenticate(k, m, pub);
    if v != Verified {
      return;
    }
    InventoryRefuses(dir, k.sha);
    var taken := TakeInventory(dir, k.sha);
    if taken.None? {
      return Unreadable;
    }
    InventoryIsDistinct(dir, k.sha);
    v := Compare(taken.value, m.files);
  }

  lemma InventoryIsDistinct(dir: seq<Entry>, sha: string -> string)
    requires WellFormed(dir) && InventoryOf(dir, sha).Some?
    ensures DistinctPaths(InventoryOf(dir, sha).value)
  {
    var files := InventoryOf(dir, sha).value;
    InventoryIsCanonical(dir, sha, FileDigest("", ""));
    forall i, j | 0 <= i < j < |files| ensures files[i].path != files[j].path {
      LessIsTotal(files[i].path, files[j].path);
    }
  }

  // ---------- signing ----------

  function SignedManifest(k: Crypto, files: seq<FileDigest>, version: string, key: string, now: Time): Manifest {
    Manifest(version, now, files, k.keyId(k.publicOf(key)), k.sign(key, k.payload(version, now, files)))
  }

  /** Sign: refuses an unversioned, empty or unreadable bundle and a bad key. */
  method Sign(k: Crypto, dir: seq<Entry>, version: string, key: string, now: Time) returns (m: Option<Manifest>)
    ensures m.Some? <==>
            version != "" && k.validPrivate(key) && InventoryOf(dir, k.sha).Some? && InventoryOf(dir, k.sha).value != []
    ensures m.Some? ==> m.value == SignedManifest(k, InventoryOf(dir, k.sha).value, version, key, now)
  {
    if version == "" || !k.validPrivate(key) { return None; }
    var files := TakeInventory(dir, k.sha);
    if files.None? || files.value == [] { return None; }
    var unsigned := Manifest(version, now, files.value, k.keyId(k.publicOf(key)), "");
    return Some(unsigned.(signature := k.sign(key, PayloadOf(k, unsigned))));
  }

  /** Sign, then Verify: succeeds on the untouched bundle and on any bundle that
      differs from it only in hidden files and directories, such as the dotfile
      the manifest itself is stored in. */
  lemma SignThenVerify(k: Crypto, dir: seq<Entry>, later: seq<Entry>, version: string, key: string, now: Time)
    requires Trustworthy(k) && k.validPrivate(key)
    requires WellFormed(dir) && InventoryOf(dir, k.sha).Some?
    requires StripHidden(later) == StripHidden(dir)
    ensures Matches(k, later, SignedManifest(k, InventoryOf(dir, k.sha).value, version, key, now), k.publicOf(key))
  {
    HiddenEntriesDoNotMatter(dir, later, k.sha);
    InventoryIsDistinct(dir, k.sha);
  }

  /** Two bundles the same manifest vouches for hold the same visible files,
      byte for byte. */
  lemma ManifestPinsContent(k: Crypto, a: seq<Entry>, b: seq<Entry>, files: seq<FileDigest>, path: seq<string>,
                            content: string)
    requires Trustworthy(k) && WellFormed(a) && WellFormed(b)
    requires InventoryOf(a, k.sha).Some? && AsMap(InventoryOf(a, k.sha).value) == AsMap(files)
    requires InventoryOf(b, k.sha).Some? && AsMap(InventoryOf(b, k.sha).value) == AsMap(files)
    requires Holds(a, path, content)
    ensures Holds(b, path, content)
  {
    var x, y := InventoryOf(a, k.sha).value, InventoryOf(b, k.sha).value;
    var node :| At(a, path, node) && ContentOf(node) == Some(content);
    VisiblePathsAreSlashFree(a, path, node);
    var d := FileDigest(JoinPath(path), k.sha(content));
    InventoryIsCanonical(a, k.sha, d);
    var i :| 0 <= i < |x| && x[i] == d;
    InventoryIsDistinct(a, k.sha);
    InventoryIsDistinct(b, k.sha);
    AsMapValue(x, i);
    AsMapKeys(y, d.path);
    var j :| 0 <= j < |y| && y[j].path == d.path;
    AsMapValue(y, j);
    assert y[j] == d && d in y;
    InventoryIsCanonical(b, k.sha, d);
    var q, text :| q != [] && Holds(b, q, text) && d == FileDigest(JoinPath(q), k.sha(text));
    var other :| At(b, q, other) && ContentOf(other) == Some(text);
    VisiblePathsAreSlashFree(b, q, other);
    JoinPathIsInjective(path, q);
    assert k.sha(content) == k.sha(text);
  }

  /** Equal digests name byte-identical bundles, whatever the version strings
      and signatures say. */
  lemma EqualDigestsEqualBundles(k: Crypto, a: seq<Entry>, m: Manifest, b: seq<Entry>, m': Manifest, pub: string)
    requires Trustworthy(k) && WellFormed(a) && WellFormed(b)
    requires Matches(k, a, m, pub) && Matches(k, b, m', pub)
    requires Digest(k, m) == Digest(k, m')
    ensures m.version == m'.version && m.createdAt == m'.createdAt && m.files == m'.files
    ensures SameVisibleFiles(a, b)
  {
    assert Digest(k, m)[7..] == k.sha(PayloadOf(k, m)) && Digest(k, m')[7..] == k.sha(PayloadOf(k, m'));
    assert k.payload(m.version, m.createdAt, m.files) == k.payload(m'.version, m'.createdAt, m'.files);
    forall path, content ensures Holds(a, path, content) <==> Holds(b, path, content) {
      if Holds(a, path, content) {
        ManifestPinsContent(k, a, b, m.files, path, content);
      }
      if Holds(b, path, content) {
        ManifestPinsContent(k, b, a, m.files, path, content);
      }
    }
  }

  // ---------- only what was signed verifies ----------

  /** A bundle the key holder signed. */
  datatype Issue = Issue(dir: seq<Entry>, version: string, at: Time)

  ghost predicate Issuable(k: Crypto, x: Issue) {
    WellFormed(x.dir) && InventoryOf(x.dir, k.sha).Some?
  }

  ghost predicate SignedOver(k: Crypto, x: Issue, text: string) {
    Issuable(k, x) && text == k.payload(x.version, x.at, InventoryOf(x.dir, k.sha).value)
  }

  /** The signature on this manifest is not forged: if it checks, the key holder
      signed this very text for some bundle. */
  ghost predicate Unforged(k: Crypto, pub: string, issued: set<Issue>, m: Manifest) {
    k.check(pub, PayloadOf(k, m), m.signature) ==> exists x :: x in issued && SignedOver(k, x, PayloadOf(k, m))
  }

  /** A bundle that verifies against an unforged manifest holds exactly the
      visible files, byte for byte, of a bundle the key holder signed under that
      version; any other bundle is refused. */
  lemma VerifiedWasSigned(k: Crypto, pub: string, issued: set<Issue>, dir: seq<Entry>, m: Manifest) returns (x: Issue)
    requires Trustworthy(k) && WellFormed(dir) && Unforged(k, pub, issued, m) && Matches(k, dir, m, pub)
    ensures x in issued && m.version == x.version && m.createdAt == x.at && SameVisibleFiles(dir, x.dir)
  {
    x :| x in issued && SignedOver(k, x, PayloadOf(k, m));
    var files := InventoryOf(x.dir, k.sha).value;
    assert k.payload(m.version, m.createdAt, m.files) == k.payload(x.version, x.at, files);
    forall path, content ensures Holds(dir, path, content) <==> Holds(x.dir, path, content) {
      if Holds(dir, path, content) {
        ManifestPinsContent(k, dir, x.dir, files, path, content);
      }
      if Holds(x.dir, path, content) {
        ManifestPinsContent(k, x.dir, dir, files, path, content);
      }
    }
  }

  /** What Sign produces is unforged, so the two hypotheses fit together. */
  lemma SignedIsUnforged(k: Crypto, pub: string, issued: set<Issue>, x: Issue, key: string)
    requires x in issued && Issuable(k, x)
    ensures Unforged(k, pub, issued, SignedManifest(k, InventoryOf(x.dir, k.sha).value, x.version, key, x.at))
  {
    var m := SignedManifest(k, InventoryOf(x.dir, k.sha).value, x.version, key, x.at);
    assert SignedOver(k, x, PayloadOf(k, m));
  }
}
