/** The hash chain of action records (pkg/audit/file_store.go), independent of
    how a record is written to the file. `C` is the JSON text of a record's
    hashed fields apart from prev_hash: it is all computeHash looks at. */
module HashChain {

  datatype Link<C> = Link(body: C, prevHash: string, hash: string)

  /** SHA-256 treated as an ideal function: no collisions, never empty. */
  ghost predicate Ideal<C(!new)>(hash: (C, string) -> string) {
    && (forall b, p, b', p' :: hash(b, p) == hash(b', p') ==> b == b' && p == p')
    && (forall b, p :: hash(b, p) != "")
  }

  /** The hash a next record must name: empty before the first record. */
  function Tail<C>(log: seq<Link<C>>): string {
    if log == [] then "" else log[|log| - 1].hash
  }

  predicate Continues<C>(hash: (C, string) -> string, prev: string, link: Link<C>) {
    link.prevHash == prev && link.hash == hash(link.body, prev)
  }

  predicate ContinuesAt<C>(hash: (C, string) -> string, log: seq<Link<C>>, i: nat)
    requires i < |log|
  {
    Continues(hash, Tail(log[..i]), log[i])
  }

  /** Every record names its predecessor's hash and carries its own. */
  predicate Intact<C>(hash: (C, string) -> string, log: seq<Link<C>>) {
    forall i | 0 <= i < |log| :: ContinuesAt(hash, log, i)
  }

  function LinkFor<C>(hash: (C, string) -> string, body: C, prev: string): Link<C> {
    Link(body, prev, hash(body, prev))
  }

  lemma IntactPrefix<C>(hash: (C, string) -> string, log: seq<Link<C>>, n: nat)
    requires Intact(hash, log) && n <= |log|
    ensures Intact(hash, log[..n])
  {
    forall i | 0 <= i < n ensures ContinuesAt(hash, log[..n], i) {
      assert ContinuesAt(hash, log, i);
      assert log[..n][..i] == log[..i];
    }
  }

  lemma IntactAppend<C>(hash: (C, string) -> string, log: seq<Link<C>>, link: Link<C>)
    ensures Intact(hash, log + [link]) <==> Intact(hash, log) && Continues(hash, Tail(log), link)
  {
    var more := log + [link];
    assert more[..|log|] == log;
    if Intact(hash, more) {
      IntactPrefix(hash, more, |log|);
      assert ContinuesAt(hash, more, |log|);
    }
    if Intact(hash, log) && Continues(hash, Tail(log), link) {
      forall i | 0 <= i < |more| ensures ContinuesAt(hash, more, i) {
        if i < |log| {
          assert ContinuesAt(hash, log, i);
          assert more[..i] == log[..i];
        }
      }
    }
  }

  lemma SameHashSameLink<C(!new)>(
      hash: (C, string) -> string, prev: string, link: Link<C>, prev': string, link': Link<C>)
    requires Ideal(hash) && Continues(hash, prev, link) && Continues(hash, prev', link')
    requires link.hash == link'.hash
    ensures prev == prev' && link == link'
  {
    assert hash(link.body, prev) == hash(link'.body, prev');
  }

  lemma TailIsNotEmpty<C(!new)>(hash: (C, string) -> string, log: seq<Link<C>>, n: nat)
    requires Ideal(hash) && Intact(hash, log) && 0 < n <= |log|
    ensures Tail(log[..n]) == log[n - 1].hash != ""
  {
    assert ContinuesAt(hash, log, n - 1);
  }

  /** A shared hash at any two positions of two intact logs means the same
      position and the same history up to it. */
  lemma {:induction false} SharedHashSharedHistory<C(!new)>(
      hash: (C, string) -> string, a: seq<Link<C>>, b: seq<Link<C>>, i: nat, j: nat)
    requires Ideal(hash) && Intact(hash, a) && Intact(hash, b)
    requires i < |a| && j < |b| && a[i].hash == b[j].hash
    ensures i == j && a[..i + 1] == b[..j + 1]
    decreases i
  {
    assert ContinuesAt(hash, a, i) && ContinuesAt(hash, b, j);
    SameHashSameLink(hash, Tail(a[..i]), a[i], Tail(b[..j]), b[j]);
    if i > 0 { TailIsNotEmpty(hash, a, i); }
    if j > 0 { TailIsNotEmpty(hash, b, j); }
    assert i == 0 <==> j == 0;
    if i > 0 {
      SharedHashSharedHistory(hash, a, b, i - 1, j - 1);
    }
    assert a[..i + 1] == a[..i] + [a[i]];
    assert b[..j + 1] == b[..j] + [b[j]];
  }

  lemma SharedHashSharedRecord<C(!new)>(
      hash: (C, string) -> string, a: seq<Link<C>>, b: seq<Link<C>>, i: nat, j: nat, k: nat)
    requires Ideal(hash) && Intact(hash, a) && Intact(hash, b)
    requires i < |a| && j < |b| && a[i].hash == b[j].hash && k <= i
    ensures k <= j && a[k] == b[k]
  {
    SharedHashSharedHistory(hash, a, b, i, j);
    assert a[..i + 1][k] == b[..j + 1][k];
  }

  /** The tail hash identifies an intact log. */
  lemma SameTailSameLog<C(!new)>(hash: (C, string) -> string, a: seq<Link<C>>, b: seq<Link<C>>)
    requires Ideal(hash) && Intact(hash, a) && Intact(hash, b)
    requires Tail(a) == Tail(b)
    ensures a == b
  {
    assert a[..|a|] == a && b[..|b|] == b;
    if a != [] { TailIsNotEmpty(hash, a, |a|); }
    if b != [] { TailIsNotEmpty(hash, b, |b|); }
    if a != [] {
      SharedHashSharedHistory(hash, a, b, |a| - 1, |b| - 1);
    }
  }

  /** Altering record k in a way that still verifies changes every hash from k
      on, to values the original log does not contain anywhere. */
  lemma AlteredRecordChangesLaterHashes<C(!new)>(
      hash: (C, string) -> string, a: seq<Link<C>>, b: seq<Link<C>>, k: nat, i: nat, j: nat)
    requires Ideal(hash) && Intact(hash, a) && Intact(hash, b)
    requires k < |a| && k < |b| && a[k] != b[k]
    requires k <= i < |b| && j < |a|
    ensures b[i].hash != a[j].hash
  {
    if b[i].hash == a[j].hash {
      SharedHashSharedRecord(hash, b, a, i, j, k);
    }
  }

  /** The hypotheses on the hash can be met: a length-prefixed text is ideal. */
  lemma IdealHashExists() returns (hash: (nat, string) -> string)
    ensures Ideal(hash)
  {
    hash := (n: nat, p: string) => Unary(n) + p;
    forall b: nat, p: string, b': nat, p': string | hash(b, p) == hash(b', p') ensures b == b' && p == p' {
      UnaryIsPrefixFree(b, p, b', p');
    }
  }

  function Unary(n: nat): string {
    if n == 0 then "." else "1" + Unary(n - 1)
  }

  lemma {:induction false} UnaryIsPrefixFree(n: nat, s: string, n': nat, s': string)
    requires Unary(n) + s == Unary(n') + s'
    ensures n == n' && s == s'
    decreases n
  {
    assert (Unary(n) + s)[0] == (Unary(n') + s')[0];
    if n == 0 {
      assert n' == 0;
      assert (Unary(n) + s)[1..] == s && (Unary(n') + s')[1..] == s';
    } else {
      assert n' > 0;
      assert (Unary(n) + s)[1..] == Unary(n - 1) + s;
      assert (Unary(n') + s')[1..] == Unary(n' - 1) + s';
      UnaryIsPrefixFree(n - 1, s, n' - 1, s');
    }
  }
}
