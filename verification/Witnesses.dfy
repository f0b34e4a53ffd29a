/** The hypotheses on encodings and primitives can be met: a record format and
    a set of primitives that satisfy them, built from prefix-free texts. */
module Witnesses {
  import opened Types
  import opened HashChain
  import opened FileLedger
  import opened TornWrites
  import opened BundleInventory
  import opened PolicyBundle

  // ---------- prefix-free texts ----------

  /** The characters the texts below are made of. */
  predicate Plain(s: string) {
    forall i | 0 <= i < |s| :: s[i] in {'1', '.', ';', ',', '+', '-'}
  }

  lemma {:induction false} UnaryIsPlain(n: nat)
    ensures Plain(Unary(n)) && Unary(n) != "" && (Unary(n)[0] == '1' || Unary(n)[0] == '.')
  {
    if n > 0 {
      UnaryIsPlain(n - 1);
    }
  }

  function Text(s: string): string {
    if s == "" then ";" else Unary(s[0] as int) + Text(s[1..])
  }

  lemma {:induction false} TextIsPlain(s: string)
    ensures Plain(Text(s)) && Text(s) != ""
  {
    if s != "" {
      UnaryIsPlain(s[0] as int);
      TextIsPlain(s[1..]);
    }
  }

  lemma {:induction false} TextIsPrefixFree(s: string, x: string, s': string, x': string)
    requires Text(s) + x == Text(s') + x'
    ensures s == s' && x == x'
    decreases |s|
  {
    assert (Text(s) + x)[0] == (Text(s') + x')[0];
    if s == "" {
      TextEnds(x, s', x');
    } else if s' == "" {
      TextEnds(x', s, x);
    } else {
      var n, n' := s[0] as int, s'[0] as int;
      assert Text(s) + x == Unary(n) + (Text(s[1..]) + x);
      assert Text(s') + x' == Unary(n') + (Text(s'[1..]) + x');
      UnaryIsPrefixFree(n, Text(s[1..]) + x, n', Text(s'[1..]) + x');
      TextIsPrefixFree(s[1..], x, s'[1..], x');
      assert s == [s[0]] + s[1..] && s' == [s'[0]] + s'[1..];
    }
  }

  lemma TextStarts(s: string)
    ensures Text(s) != "" && (Text(s)[0] == ';' <==> s == "")
  {
    if s != "" {
      UnaryIsPlain(s[0] as int);
      assert Text(s)[0] == Unary(s[0] as int)[0];
    }
  }

  lemma TextEnds(x: string, s: string, x': string)
    requires ";" + x == Text(s) + x'
    ensures s == "" && x == x'
  {
    assert (";" + x)[0] == (Text(s) + x')[0];
    TextStarts(s);
    assert (";" + x)[1..] == x && (Text("") + x')[1..] == x';
  }

  // ---------- a record format ----------

  function Inner(link: Link<nat>): string {
    Unary(link.body) + (Text(link.prevHash) + Text(link.hash))
  }

  function Encoded(link: Link<nat>): string {
    "{" + Inner(link) + "}"
  }

  lemma InnerIsPlain(link: Link<nat>)
    ensures Plain(Inner(link))
  {
    UnaryIsPlain(link.body);
    TextIsPlain(link.prevHash);
    TextIsPlain(link.hash);
  }

  /** The braces stand at the ends and nowhere else. */
  lemma Braces(link: Link<nat>)
    ensures var e := Encoded(link);
            && |e| >= 2 && e[0] == '{' && e[|e| - 1] == '}' && '\n' !in e
            && (forall i | 0 < i < |e| :: e[i] != '{') && (forall i | 0 <= i < |e| - 1 :: e[i] != '}')
  {
    InnerIsPlain(link);
    var e, inner := Encoded(link), Inner(link);
    assert forall i | 1 <= i < |e| - 1 :: e[i] == inner[i - 1];
  }

  lemma EncodedIsInjective(a: Link<nat>, b: Link<nat>)
    requires Encoded(a) == Encoded(b)
    ensures a == b
  {
    var x, y := Inner(a), Inner(b);
    assert Encoded(a)[1..|Encoded(a)| - 1] == x && Encoded(b)[1..|Encoded(b)| - 1] == y;
    UnaryIsPrefixFree(a.body, Text(a.prevHash) + Text(a.hash), b.body, Text(b.prevHash) + Text(b.hash));
    TextIsPrefixFree(a.prevHash, Text(a.hash), b.prevHash, Text(b.hash));
    assert Text(a.hash) + "" == Text(b.hash) + "";
    TextIsPrefixFree(a.hash, "", b.hash, "");
  }

  ghost function DecodedFrom(s: string): Option<Link<nat>> {
    if exists link :: Encoded(link) == Unterminated(s) then
      var link :| Encoded(link) == Unterminated(s); Some(link)
    else None
  }

  lemma DecodesBack(link: Link<nat>)
    ensures DecodedFrom(Encoded(link)) == Some(link) == DecodedFrom(Encoded(link) + "\n")
  {
    Braces(link);
    var e := Encoded(link);
    assert Unterminated(e) == e && Unterminated(e + "\n") == e;
    forall other | Encoded(other) == e ensures other == link {
      EncodedIsInjective(other, link);
    }
  }

  lemma NotEncoded(s: string)
    requires '\n' !in s && forall link :: Encoded(link) != s
    ensures DecodedFrom(s) == None == DecodedFrom(s + "\n")
  {
    assert Unterminated(s) == s by {
      if s != "" {
        assert s[|s| - 1] in s;
      }
    }
    assert Unterminated(s + "\n") == s;
  }

  lemma PieceStarts(f: Format<nat>, p: string)
    requires f.encode == Encoded && Piece(f, p)
    ensures p[0] == '{'
  {
    var link :| p <= f.encode(link);
    Braces(link);
  }

  lemma SmearIsNotEncoded(f: Format<nat>, pieces: seq<string>, link: Link<nat>)
    requires f.encode == Encoded && Smeared(f, pieces)
    ensures Encoded(link) != Concat(pieces)
  {
    Braces(link);
    var n := |pieces| - 1;
    var last := pieces[n];
    assert last in pieces;
    PieceStarts(f, last);
    if n == 0 {
      var whole :| last <= f.encode(whole) && |last| < |f.encode(whole)|;
      Braces(whole);
      assert pieces[..0] == [] && Concat(pieces) == last;
      assert last[|last| - 1] == Encoded(whole)[|last| - 1];
    } else {
      var front := Concat(pieces[..n]);
      assert pieces[..n][n - 1] in pieces;
      PieceStarts(f, pieces[n - 1]);
      assert front != "" by {
        assert Concat(pieces[..n]) == Concat(pieces[..n][..n - 1]) + pieces[n - 1];
      }
      assert Concat(pieces)[|front|] == last[0];
    }
  }

  lemma {:induction false} SmearHasNoNewline(f: Format<nat>, pieces: seq<string>)
    requires f.encode == Encoded && forall p | p in pieces :: Piece(f, p)
    ensures '\n' !in Concat(pieces)
  {
    if pieces != [] {
      var p := pieces[|pieces| - 1];
      SmearHasNoNewline(f, pieces[..|pieces| - 1]);
      assert Piece(f, p);
      var link :| p <= f.encode(link);
      Braces(link);
      assert forall i | 0 <= i < |p| :: p[i] == f.encode(link)[i];
    }
  }

  /** The hypotheses on the record format can be met together. */
  lemma SoundFormatExists() returns (f: Format<nat>)
    ensures Sound(f) && Separable(f)
  {
    var hash := IdealHashExists();
    f := Format(hash, Encoded, (s: string) => DecodedFrom(s));
    forall link: Link<nat>
      ensures f.decode(f.encode(link)) == Some(link) == f.decode(f.encode(link) + "\n")
      ensures f.encode(link) != "" && '\n' !in f.encode(link) && f.encode(link)[|f.encode(link)| - 1] != '\r'
    {
      DecodesBack(link);
      Braces(link);
    }
    BlankIsNothing();
    forall pieces: seq<string> | Smeared(f, pieces) ensures TornWrites.Unreadable(f, Concat(pieces)) {
      SmearHasNoNewline(f, pieces);
      forall link ensures Encoded(link) != Concat(pieces) {
        SmearIsNotEncoded(f, pieces, link);
      }
      NotEncoded(Concat(pieces));
    }
  }

  lemma BlankIsNothing()
    ensures DecodedFrom("\n") == None
  {
    assert Unterminated("\n") == "";
    forall link ensures Encoded(link) != "" {
      Braces(link);
    }
  }

  // ---------- primitives ----------

  function Magnitude(n: int): nat {
    if n >= 0 then n else -n
  }

  function Signed(n: int): string {
    (if n >= 0 then "+" else "-") + Unary(Magnitude(n))
  }

  lemma DropSign(n: int, digits: string, x: string)
    requires digits == Unary(Magnitude(n))
    ensures (Signed(n) + x)[0] == (if n >= 0 then '+' else '-')
    ensures (Signed(n) + x)[1..] == digits + x
  {
  }

  lemma SignedIsPrefixFree(n: int, x: string, n': int, x': string)
    requires Signed(n) + x == Signed(n') + x'
    ensures n == n' && x == x'
  {
    DropSign(n, Unary(Magnitude(n)), x);
    DropSign(n', Unary(Magnitude(n')), x');
    UnaryIsPrefixFree(Magnitude(n), x, Magnitude(n'), x');
  }

  function Files(files: seq<FileDigest>): string {
    if files == [] then ";" else "," + (Text(files[0].path) + (Text(files[0].sha256) + Files(files[1..])))
  }

  lemma {:induction false} FilesAreInjective(a: seq<FileDigest>, b: seq<FileDigest>)
    requires Files(a) == Files(b)
    ensures a == b
    decreases |a|
  {
    assert Files(a)[0] == Files(b)[0];
    if a != [] {
      var x, y := Text(a[0].sha256) + Files(a[1..]), Text(b[0].sha256) + Files(b[1..]);
      assert Files(a)[1..] == Text(a[0].path) + x && Files(b)[1..] == Text(b[0].path) + y;
      TextIsPrefixFree(a[0].path, x, b[0].path, y);
      TextIsPrefixFree(a[0].sha256, Files(a[1..]), b[0].sha256, Files(b[1..]));
      FilesAreInjective(a[1..], b[1..]);
      assert a == [a[0]] + a[1..] && b == [b[0]] + b[1..];
    }
  }

  function Payload(version: string, at: Time, files: seq<FileDigest>): string {
    Text(version) + (Signed(at) + Files(files))
  }

  lemma PayloadIsInjective(v: string, t: Time, f: seq<FileDigest>, v': string, t': Time, f': seq<FileDigest>)
    requires Payload(v, t, f) == Payload(v', t', f')
    ensures v == v' && t == t' && f == f'
  {
    TextIsPrefixFree(v, Signed(t) + Files(f), v', Signed(t') + Files(f'));
    SignedIsPrefixFree(t, Files(f), t', Files(f'));
    FilesAreInjective(f, f');
  }

  /** The hypotheses on hashing, payload and signatures can be met together. */
  lemma TrustworthyExists() returns (k: Crypto)
    ensures Trustworthy(k) && exists key :: k.validPrivate(key)
  {
    k := Crypto((s: string) => s, Payload, (pub: string) => true, (key: string) => true, (key: string) => key,
                (pub: string) => "key", (key: string, text: string) => "signature",
                (pub: string, text: string, signature: string) => true);
    forall v, t, f, v', t', f' | k.payload(v, t, f) == k.payload(v', t', f') ensures v == v' && t == t' && f == f' {
      PayloadIsInjective(v, t, f, v', t', f');
    }
    assert k.validPrivate("");
  }
}
