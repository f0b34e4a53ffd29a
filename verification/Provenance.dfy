/** The lossy, expiring per-subject cache that remembers which upstream a
    string came from (internal/gateway/provenance.go). */
module ProvenanceTracking {
  import opened Types

  const CACHE_TTL: int := 15 * MINUTE
  const CACHE_MAX_SIZE: nat := 256

  /** The fail-closed default for anything without a live entry. */
  const UNTRUSTED := Provenance("unspecified", false)

  datatype Cached = Cached(provenance: Provenance, expiresAt: Time)
  type Store = map<string, map<string, Cached>>

  /** One call of `record`. */
  datatype Sighting = Sighting(subject: string, value: string, provenance: Provenance, at: Time)

  function Entries(store: Store, subject: string): map<string, Cached> {
    if subject in store then store[subject] else map[]
  }

  function Record(store: Store, x: Sighting, maxSize: nat, ttl: int): Store {
    if x.value == "" then store
    else
      var kept := if |Entries(store, x.subject)| >= maxSize then map[] else Entries(store, x.subject);
      store[x.subject := kept[x.value := Cached(x.provenance, x.at + ttl)]]
  }

  function Resolve(store: Store, subject: string, value: string, now: Time): Provenance {
    var entries := Entries(store, subject);
    if value in entries && now < entries[value].expiresAt then entries[value].provenance else UNTRUSTED
  }

  function RecordEach(store: Store, xs: seq<Sighting>, maxSize: nat, ttl: int): Store {
    if xs == [] then store
    else Record(RecordEach(store, xs[..|xs| - 1], maxSize, ttl), xs[|xs| - 1], maxSize, ttl)
  }

  // ---------- what a tool result contributes ----------

  /** `value` is a string at the top level of a decoded document. */
  predicate IsTopLevelString(decoded: Json, value: string) {
    match decoded
    case Str(s) => s == value
    case Arr(items) => Str(value) in items
    case Obj(fields) => exists k :: k in fields && fields[k] == Str(value)
    case _ => false
  }

  ghost predicate Enumerates(keys: seq<string>, all: set<string>) {
    && (forall i, j | 0 <= i < j < |keys| :: keys[i] != keys[j])
    && (forall k :: k in keys <==> k in all)
  }

  lemma EnumeratesMore(keys: seq<string>, all: set<string>, k: string)
    requires Enumerates(keys, all) && k !in all
    ensures Enumerates(keys + [k], all + {k})
  {
  }

  /** The fields other than those left have been visited, under these keys. */
  ghost predicate VisitsSome(fields: map<string, Json>, left: set<string>, keys: seq<string>, visited: seq<Json>) {
    && Enumerates(keys, fields.Keys - left)
    && |visited| == |keys|
    && forall i | 0 <= i < |keys| :: keys[i] in fields && visited[i] == fields[keys[i]]
  }

  lemma VisitsOneMore(fields: map<string, Json>, left: set<string>, keys: seq<string>, visited: seq<Json>, k: string)
    requires VisitsSome(fields, left, keys, visited) && k in left && k in fields
    ensures VisitsSome(fields, left - {k}, keys + [k], visited + [fields[k]])
  {
    EnumeratesMore(keys, fields.Keys - left, k);
    assert fields.Keys - (left - {k}) == (fields.Keys - left) + {k};
  }

  ghost predicate VisitsFields(fields: map<string, Json>, keys: seq<string>, visited: seq<Json>) {
    VisitsSome(fields, {}, keys, visited)
  }

  /** The order in which top-level values are visited: slots of an array in
      order, fields of an object in any order. */
  ghost predicate Visits(decoded: Json, visited: seq<Json>) {
    match decoded
    case Str(_) => visited == [decoded]
    case Arr(items) => visited == items
    case Obj(fields) =>
      exists keys :: VisitsFields(fields, keys, visited)
    case _ => visited == []
  }

  function Strings(values: seq<Json>): (r: seq<string>)
    ensures forall v :: v in r <==> Str(v) in values
  {
    if values == [] then []
    else
      var last := values[|values| - 1];
      var front := Strings(values[..|values| - 1]);
      assert values == values[..|values| - 1] + [last];
      front + if last.Str? then [last.text] else []
  }

  /** Every visiting order records exactly the top-level strings. */
  lemma VisitsFindTopLevelStrings(decoded: Json, visited: seq<Json>, value: string)
    requires Visits(decoded, visited)
    ensures value in Strings(visited) <==> IsTopLevelString(decoded, value)
  {
    if decoded.Obj? {
      var keys :| VisitsFields(decoded.fields, keys, visited);
      FieldsVisited(decoded.fields, keys, visited, value);
    }
  }

  lemma FieldsVisited(fields: map<string, Json>, keys: seq<string>, visited: seq<Json>, value: string)
    requires VisitsFields(fields, keys, visited)
    ensures Str(value) in visited <==> exists k :: k in fields && fields[k] == Str(value)
  {
    if Str(value) in visited {
      var i :| 0 <= i < |visited| && visited[i] == Str(value);
      assert keys[i] in fields && fields[keys[i]] == Str(value);
    }
    assert fields.Keys - {} == fields.Keys;
    forall k | k in fields && fields[k] == Str(value) ensures Str(value) in visited {
      assert k in keys;
      var i :| 0 <= i < |keys| && keys[i] == k;
      assert visited[i] == Str(value);
    }
  }

  function Sightings(subject: string, values: seq<string>, provenance: Provenance, at: Time): (r: seq<Sighting>)
    ensures |r| == |values|
    ensures forall i | 0 <= i < |values| :: r[i] == Sighting(subject, values[i], provenance, at)
  {
    seq(|values|, i requires 0 <= i < |values| => Sighting(subject, values[i], provenance, at))
  }

  class ProvenanceCache {
    var ttl: int
    var maxSize: nat
    var bySubject: Store

    constructor ()
      ensures ttl == CACHE_TTL && maxSize == CACHE_MAX_SIZE && bySubject == map[]
    {
      ttl, maxSize, bySubject := CACHE_TTL, CACHE_MAX_SIZE, map[];
    }

    method RecordValue(subject: string, value: string, prov: Provenance, now: Time)
      modifies this
      ensures ttl == old(ttl) && maxSize == old(maxSize)
      ensures bySubject == Record(old(bySubject), Sighting(subject, value, prov, now), maxSize, ttl)
    {
      if value == "" {
        return;
      }
      if subject !in bySubject {
        bySubject := bySubject[subject := map[]];
      }
      if |bySubject[subject]| >= maxSize {
        bySubject := bySubject[subject := map[]];
      }
      bySubject := bySubject[subject := bySubject[subject][value := Cached(prov, now + ttl)]];
    }

    method ResolveValue(subject: string, value: string, now: Time) returns (prov: Provenance)
      ensures prov == Resolve(bySubject, subject, value, now)
    {
      if subject in bySubject {
        var m := bySubject[subject];
        if value in m && now < m[value].expiresAt {
          return m[value].provenance;
        }
      }
      return UNTRUSTED;
    }

    method RecordTopLevelStrings(subject: string, decoded: Json, prov: Provenance, now: Time)
      returns (ghost visited: seq<Json>)
      modifies this
      ensures ttl == old(ttl) && maxSize == old(maxSize)
      ensures Visits(decoded, visited)
      ensures bySubject == RecordEach(old(bySubject), Sightings(subject, Strings(visited), prov, now), maxSize, ttl)
    {
      match decoded
      case Obj(fields) =>
        ghost var keys;
        keys, visited := RecordFields(subject, fields, prov, now);
      case Arr(items) =>
        visited := items;
        RecordItems(subject, items, prov, now);
      case Str(s) =>
        RecordItems(subject, [decoded], prov, now);
        visited := [decoded];
      case _ =>
        visited := [];
    }

    method RecordFields(subject: string, fields: map<string, Json>, prov: Provenance, now: Time)
      returns (ghost keys: seq<string>, ghost visited: seq<Json>)
      modifies this
      ensures ttl == old(ttl) && maxSize == old(maxSize)
      ensures VisitsFields(fields, keys, visited)
      ensures bySubject == RecordEach(old(bySubject), Sightings(subject, Strings(visited), prov, now), maxSize, ttl)
    {
      var left := fields.Keys;
      keys, visited := [], [];
      while left != {}
        invariant left <= fields.Keys && VisitsSome(fields, left, keys, visited)
        invariant ttl == old(ttl) && maxSize == old(maxSize)
        invariant bySubject == RecordEach(old(bySubject), Sightings(subject, Strings(visited), prov, now), maxSize, ttl)
        decreases |left|
      {
        var k :| k in left;
        VisitOne(subject, fields[k], prov, now, old(bySubject), visited);
        VisitsOneMore(fields, left, keys, visited, k);
        visited, keys, left := visited + [fields[k]], keys + [k], left - {k};
      }
    }

    method RecordItems(subject: string, items: seq<Json>, prov: Provenance, now: Time)
      modifies this
      ensures ttl == old(ttl) && maxSize == old(maxSize)
      ensures bySubject == RecordEach(old(bySubject), Sightings(subject, Strings(items), prov, now), maxSize, ttl)
    {
      for i := 0 to |items|
        invariant ttl == old(ttl) && maxSize == old(maxSize)
        invariant bySubject ==
                  RecordEach(old(bySubject), Sightings(subject, Strings(items[..i]), prov, now), maxSize, ttl)
      {
        VisitOne(subject, items[i], prov, now, old(bySubject), items[..i]);
        assert items[..i] + [items[i]] == items[..i + 1];
      }
      assert items[..|items|] == items;
    }

    /** The body of both loops: record the value if it is a string. */
    method VisitOne(subject: string, val: Json, prov: Provenance, now: Time, ghost start: Store,
                    ghost visited: seq<Json>)
      requires bySubject == RecordEach(start, Sightings(subject, Strings(visited), prov, now), maxSize, ttl)
      modifies this
      ensures ttl == old(ttl) && maxSize == old(maxSize)
      ensures bySubject == RecordEach(start, Sightings(subject, Strings(visited + [val]), prov, now), maxSize, ttl)
    {
      ghost var before, after := Strings(visited), Strings(visited + [val]);
      assert (visited + [val])[..|visited|] == visited;
      if val.Str? {
        RecordValue(subject, val.text, prov, now);
        assert after == before + [val.text];
        ghost var xs := Sightings(subject, after, prov, now);
        assert xs[..|xs| - 1] == Sightings(subject, before, prov, now);
      } else {
        assert after == before;
      }
    }
  }

  // ---------- the cache against the full history ----------

  function Replay(h: seq<Sighting>, maxSize: nat, ttl: int): Store {
    RecordEach(map[], h, maxSize, ttl)
  }

  /** The latest sighting of a non-empty value under a subject. */
  function Latest(h: seq<Sighting>, subject: string, value: string): Option<Sighting> {
    if h == [] || value == "" then None
    else
      var last := h[|h| - 1];
      if last.subject == subject && last.value == value then Some(last)
      else Latest(h[..|h| - 1], subject, value)
  }

  /** The answer of an unbounded cache. */
  function FullHistoryAnswer(h: seq<Sighting>, subject: string, value: string, now: Time, ttl: int): Provenance {
    match Latest(h, subject, value)
    case Some(x) => if now < x.at + ttl then x.provenance else UNTRUSTED
    case None => UNTRUSTED
  }

  lemma {:induction false} EntriesAreLatest(h: seq<Sighting>, subject: string, value: string, maxSize: nat, ttl: int)
    requires value in Entries(Replay(h, maxSize, ttl), subject)
    ensures Latest(h, subject, value).Some?
    ensures Entries(Replay(h, maxSize, ttl), subject)[value] ==
            Cached(Latest(h, subject, value).value.provenance, Latest(h, subject, value).value.at + ttl)
  {
    if h != [] {
      var prefix, last := h[..|h| - 1], h[|h| - 1];
      if last.value == "" || last.subject != subject || last.value != value {
        EntriesAreLatest(prefix, subject, value, maxSize, ttl);
      }
    }
  }

  /** The cache under-approximates history: it gives the answer of the full
      history or the untrusted default, and nothing else. */
  lemma CacheRefinesHistory(h: seq<Sighting>, subject: string, value: string, now: Time, maxSize: nat, ttl: int)
    ensures var answer := Resolve(Replay(h, maxSize, ttl), subject, value, now);
            || answer == UNTRUSTED
            || (Latest(h, subject, value).Some?
                && now < Latest(h, subject, value).value.at + ttl
                && answer == Latest(h, subject, value).value.provenance
                && answer == FullHistoryAnswer(h, subject, value, now, ttl))
  {
    if value in Entries(Replay(h, maxSize, ttl), subject) {
      EntriesAreLatest(h, subject, value, maxSize, ttl);
    }
  }

  /** The distinct non-empty values recorded for a subject. */
  function ValuesOf(h: seq<Sighting>, subject: string): set<string> {
    set x | x in h && x.subject == subject && x.value != "" :: x.value
  }

  /** No record of the subject ever found its entries full. */
  predicate NeverFull(h: seq<Sighting>, subject: string, maxSize: nat) {
    forall i | 0 <= i < |h| && h[i].subject == subject && h[i].value != "" :: |ValuesOf(h[..i], subject)| < maxSize
  }

  lemma ValuesOfLast(h: seq<Sighting>, subject: string)
    requires h != []
    ensures ValuesOf(h, subject) == ValuesOf(h[..|h| - 1], subject) +
              if h[|h| - 1].subject == subject && h[|h| - 1].value != "" then {h[|h| - 1].value} else {}
  {
    assert h == h[..|h| - 1] + [h[|h| - 1]];
  }

  lemma {:induction false} NothingLost(h: seq<Sighting>, subject: string, maxSize: nat, ttl: int)
    requires NeverFull(h, subject, maxSize)
    ensures Entries(Replay(h, maxSize, ttl), subject).Keys == ValuesOf(h, subject)
  {
    if h != [] {
      var prefix, last := h[..|h| - 1], h[|h| - 1];
      forall i | 0 <= i < |prefix| ensures prefix[..i] == h[..i] {}
      NothingLost(prefix, subject, maxSize, ttl);
      ValuesOfLast(h, subject);
      assert |Entries(Replay(prefix, maxSize, ttl), subject)| == |ValuesOf(prefix, subject)|;
    }
  }

  lemma {:induction false} LatestIsAValue(h: seq<Sighting>, subject: string, value: string)
    ensures Latest(h, subject, value).Some? <==> value in ValuesOf(h, subject)
  {
    if h != [] {
      ValuesOfLast(h, subject);
      LatestIsAValue(h[..|h| - 1], subject, value);
    }
  }

  /** Until a subject's entries overflow, the cache answers like the full history. */
  lemma ExactWhileNeverFull(h: seq<Sighting>, subject: string, value: string, now: Time, maxSize: nat, ttl: int)
    requires NeverFull(h, subject, maxSize)
    ensures Resolve(Replay(h, maxSize, ttl), subject, value, now) == FullHistoryAnswer(h, subject, value, now, ttl)
  {
    NothingLost(h, subject, maxSize, ttl);
    LatestIsAValue(h, subject, value);
    if value in Entries(Replay(h, maxSize, ttl), subject) {
      EntriesAreLatest(h, subject, value, maxSize, ttl);
    }
  }

  /** A record that finds the entries full forgets every other value, even when
      it only refreshes a value that is already there. */
  lemma OverflowForgets(h: seq<Sighting>, x: Sighting, value: string, now: Time, maxSize: nat, ttl: int)
    requires x.value != "" && value != x.value
    requires |Entries(Replay(h, maxSize, ttl), x.subject)| >= maxSize
    ensures Resolve(Replay(h + [x], maxSize, ttl), x.subject, value, now) == UNTRUSTED
  {
    assert (h + [x])[..|h|] == h;
  }

  /** Record `j` of the history is of this subject and found its entries full. */
  predicate FoundFull(h: seq<Sighting>, j: nat, subject: string, maxSize: nat, ttl: int)
    requires j < |h|
  {
    h[j].subject == subject && h[j].value != "" && |Entries(Replay(h[..j], maxSize, ttl), subject)| >= maxSize
  }

  /** Record `i` is a sighting of the value that has not been cleared away since. */
  ghost predicate HeldSince(h: seq<Sighting>, i: nat, subject: string, value: string, maxSize: nat, ttl: int)
    requires i < |h|
  {
    && h[i].subject == subject && h[i].value == value != ""
    && forall j | i < j < |h| :: !FoundFull(h, j, subject, maxSize, ttl)
  }

  ghost predicate Retained(h: seq<Sighting>, subject: string, value: string, maxSize: nat, ttl: int) {
    exists i: nat :: i < |h| && HeldSince(h, i, subject, value, maxSize, ttl)
  }

  lemma FoundFullBefore(h: seq<Sighting>, n: nat, j: nat, subject: string, maxSize: nat, ttl: int)
    requires j < n <= |h|
    ensures FoundFull(h[..n], j, subject, maxSize, ttl) == FoundFull(h, j, subject, maxSize, ttl)
  {
    assert h[..n][..j] == h[..j];
  }

  lemma HeldStep(h: seq<Sighting>, i: nat, subject: string, value: string, maxSize: nat, ttl: int)
    requires i < |h| - 1
    ensures var n := |h| - 1;
            HeldSince(h, i, subject, value, maxSize, ttl) <==>
            HeldSince(h[..n], i, subject, value, maxSize, ttl) && !FoundFull(h, n, subject, maxSize, ttl)
  {
    var n := |h| - 1;
    forall j | i < j < n ensures FoundFull(h[..n], j, subject, maxSize, ttl) == FoundFull(h, j, subject, maxSize, ttl) {
      FoundFullBefore(h, n, j, subject, maxSize, ttl);
    }
  }

  lemma RetainedStep(h: seq<Sighting>, subject: string, value: string, maxSize: nat, ttl: int)
    requires h != []
    ensures var n := |h| - 1;
            Retained(h, subject, value, maxSize, ttl) <==>
            || (h[n].subject == subject && h[n].value == value != "")
            || (Retained(h[..n], subject, value, maxSize, ttl) && !FoundFull(h, n, subject, maxSize, ttl))
  {
    var n := |h| - 1;
    if h[n].subject == subject && h[n].value == value != "" {
      assert HeldSince(h, n, subject, value, maxSize, ttl);
    }
    if Retained(h[..n], subject, value, maxSize, ttl) {
      var i: nat :| i < n && HeldSince(h[..n], i, subject, value, maxSize, ttl);
      HeldStep(h, i, subject, value, maxSize, ttl);
    }
    if Retained(h, subject, value, maxSize, ttl) {
      var i: nat :| i < |h| && HeldSince(h, i, subject, value, maxSize, ttl);
      if i < n {
        HeldStep(h, i, subject, value, maxSize, ttl);
      }
    }
  }

  lemma {:induction false} EntriesAreRetained(h: seq<Sighting>, subject: string, value: string, maxSize: nat, ttl: int)
    ensures value in Entries(Replay(h, maxSize, ttl), subject) <==> Retained(h, subject, value, maxSize, ttl)
  {
    if h != [] {
      RetainedStep(h, subject, value, maxSize, ttl);
      EntriesAreRetained(h[..|h| - 1], subject, value, maxSize, ttl);
    }
  }

  /** The exact condition: the cache answers like the full history if and only if
      some sighting of the value has no later record of that subject that found
      its entries full, or the full history has nothing better than untrusted. */
  lemma ExactIffRetained(h: seq<Sighting>, subject: string, value: string, now: Time, maxSize: nat, ttl: int)
    ensures Resolve(Replay(h, maxSize, ttl), subject, value, now) == FullHistoryAnswer(h, subject, value, now, ttl) <==>
            || Retained(h, subject, value, maxSize, ttl)
            || FullHistoryAnswer(h, subject, value, now, ttl) == UNTRUSTED
  {
    EntriesAreRetained(h, subject, value, maxSize, ttl);
    if value in Entries(Replay(h, maxSize, ttl), subject) {
      EntriesAreLatest(h, subject, value, maxSize, ttl);
    }
  }

  /** No subject ever holds more than maxSize entries. */
  lemma {:induction false} SizeIsBounded(h: seq<Sighting>, subject: string, maxSize: nat, ttl: int)
    requires maxSize >= 1
    ensures |Entries(Replay(h, maxSize, ttl), subject)| <= maxSize
  {
    if h != [] {
      var prefix, last := h[..|h| - 1], h[|h| - 1];
      SizeIsBounded(prefix, subject, maxSize, ttl);
      if last.subject == subject && last.value != "" {
        var before := Entries(Replay(prefix, maxSize, ttl), subject);
        var kept := if |before| >= maxSize then map[] else before;
        var after := kept[last.value := Cached(last.provenance, last.at + ttl)];
        assert after.Keys == kept.Keys + {last.value};
        assert Entries(Replay(h, maxSize, ttl), subject) == after;
      }
    }
  }

  function Of(h: seq<Sighting>, subject: string): seq<Sighting> {
    if h == [] then []
    else
      var last := h[|h| - 1];
      Of(h[..|h| - 1], subject) + if last.subject == subject then [last] else []
  }

  lemma {:induction false} EntriesIgnoreOthers(h: seq<Sighting>, subject: string, maxSize: nat, ttl: int)
    ensures Entries(Replay(h, maxSize, ttl), subject) == Entries(Replay(Of(h, subject), maxSize, ttl), subject)
  {
    if h != [] {
      var prefix, last := h[..|h| - 1], h[|h| - 1];
      EntriesIgnoreOthers(prefix, subject, maxSize, ttl);
      if last.subject == subject {
        var own := Of(h, subject);
        assert own[..|own| - 1] == Of(prefix, subject);
      } else {
        assert Of(h, subject) == Of(prefix, subject);
      }
    }
  }

  /** One subject's records never change another subject's answers. */
  lemma SubjectsAreIsolated(h: seq<Sighting>, subject: string, value: string, now: Time, maxSize: nat, ttl: int)
    ensures Resolve(Replay(h, maxSize, ttl), subject, value, now) ==
            Resolve(Replay(Of(h, subject), maxSize, ttl), subject, value, now)
  {
    EntriesIgnoreOthers(h, subject, maxSize, ttl);
  }
}
