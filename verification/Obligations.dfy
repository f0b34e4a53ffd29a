/** Redaction of tool results by path (internal/gateway/obligations.go). */
module Obligations {
  import opened Types

  const REDACTED := Str("[REDACTED]")

  // ---------- path syntax ----------

  /** strings.Split(path, "."). */
  function Split(path: string): (segments: seq<string>)
    ensures |segments| >= 1
    ensures forall s <- segments :: '.' !in s
    ensures Join(segments) == path
  {
    if path == "" then [""]
    else
      var rest := Split(path[1..]);
      if path[0] == '.' then [""] + rest
      else [[path[0]] + rest[0]] + rest[1..]
  }

  function Join(segments: seq<string>): string
    requires |segments| >= 1
  {
    if |segments| == 1 then segments[0] else segments[0] + "." + Join(segments[1..])
  }

  function Digits(s: string): Option<nat> {
    if s == "" then Some(0)
    else
      var last := s[|s| - 1];
      match Digits(s[..|s| - 1])
      case Some(high) => if '0' <= last <= '9' then Some(10 * high + (last - '0') as nat) else None
      case None => None
  }

  /** strconv.Atoi. Values beyond the machine range are kept: as array indices
      they are out of bounds, which setAtPath treats like a parse error. */
  function Atoi(s: string): Option<int> {
    var signed := s != "" && (s[0] == '+' || s[0] == '-');
    var digits := if signed then s[1..] else s;
    if digits == "" then None
    else
      match Digits(digits)
      case Some(n) => Some(if signed && s[0] == '-' then 0 - n else n as int)
      case None => None
  }

  // ---------- trees and locations ----------

  /** One edge of a JSON tree. Locations, not path strings, identify slots. */
  datatype Step = Key(name: string) | Index(at: nat)
  type Location = seq<Step>

  /** What is visible of a node without looking into its children. */
  datatype Head = Leaf(value: Json) | Items(count: nat) | Fields(names: set<string>)

  function HeadOf(j: Json): Head {
    match j
    case Arr(items) => Items(|items|)
    case Obj(fields) => Fields(fields.Keys)
    case _ => Leaf(j)
  }

  predicate HasChild(j: Json, step: Step) {
    match step
    case Key(name) => j.Obj? && name in j.fields
    case Index(at) => j.Arr? && at < |j.items|
  }

  function Child(j: Json, step: Step): Json
    requires HasChild(j, step)
  {
    match step
    case Key(name) => j.fields[name]
    case Index(at) => j.items[at]
  }

  function WithChild(j: Json, step: Step, child: Json): Json
    requires HasChild(j, step)
  {
    match step
    case Key(name) => Obj(j.fields[name := child])
    case Index(at) => Arr(j.items[at := child])
  }

  lemma Extensional(a: Json, b: Json)
    requires HeadOf(a) == HeadOf(b)
    requires forall step | HasChild(a, step) :: Child(a, step) == Child(b, step)
    ensures a == b
  {
    match a
    case Arr(items) =>
      forall i | 0 <= i < |items| ensures items[i] == b.items[i] {
        assert HasChild(a, Index(i));
        assert Child(a, Index(i)) == Child(b, Index(i));
      }
      assert items == b.items;
    case Obj(fields) =>
      forall k | k in fields ensures fields[k] == b.fields[k] {
        assert HasChild(a, Key(k));
        assert Child(a, Key(k)) == Child(b, Key(k));
      }
      assert fields == b.fields;
    case _ =>
  }

  function Lookup(j: Json, at: Location): Option<Json> {
    if at == [] then Some(j)
    else if HasChild(j, at[0]) then Lookup(Child(j, at[0]), at[1..])
    else None
  }

  function HeadAt(j: Json, at: Location): Option<Head> {
    match Lookup(j, at)
    case Some(node) => Some(HeadOf(node))
    case None => None
  }

  function Replace(j: Json, at: Location, value: Json): Json {
    if at == [] then value
    else if HasChild(j, at[0]) then WithChild(j, at[0], Replace(Child(j, at[0]), at[1..], value))
    else j
  }

  lemma SameHeadSameChildren(a: Json, b: Json, step: Step)
    requires HeadOf(a) == HeadOf(b)
    ensures HasChild(a, step) <==> HasChild(b, step)
  {
  }

  /** The edge a path segment selects: an object key, or an array slot after Atoi. */
  function StepInto(j: Json, segment: string): (step: Option<Step>)
    ensures step.Some? ==> HasChild(j, step.value)
  {
    match j
    case Obj(fields) => if segment in fields then Some(Key(segment)) else None
    case Arr(items) =>
      (match Atoi(segment)
       case Some(i) => if 0 <= i < |items| then Some(Index(i)) else None
       case None => None)
    case _ => None
  }

  /** The location a path leads to, if every segment resolves. */
  function Resolve(j: Json, path: seq<string>): Option<Location> {
    if path == [] then Some([])
    else
      match StepInto(j, path[0])
      case None => None
      case Some(step) =>
        match Resolve(Child(j, step), path[1..])
        case None => None
        case Some(rest) => Some([step] + rest)
  }

  // ---------- one redaction ----------

  /** The tree after one redaction; unresolved paths leave it alone. */
  function Redact(j: Json, path: seq<string>): Json {
    match Resolve(j, path)
    case Some(at) => Replace(j, at, REDACTED)
    case None => j
  }

  /** setAtPath: walk to the container of the last segment, then overwrite
      that entry. The walk is the source's loop over `cur`; the overwrite of a
      freshly decoded, unshared tree is Replace at the location walked to. */
  method SetAtPath(root: Json, segments: seq<string>, replacement: Json) returns (found: bool, updated: Json)
    ensures found <==> segments != [] && Resolve(root, segments).Some?
    ensures updated == if found then Replace(root, Resolve(root, segments).value, replacement) else root
  {
    if segments == [] {
      return false, root;
    }
    var cur := root;
    var at: Location := [];
    var i := 0;
    assert segments[0..] == segments;
    forall rest: Location ensures at + rest == rest {}
    while i < |segments| - 1
      invariant 0 <= i < |segments|
      invariant Resolve(root, segments) ==
                match Resolve(cur, segments[i..])
                case None => None
                case Some(rest) => Some(at + rest)
    {
      assert segments[i..][1..] == segments[i + 1..];
      match StepInto(cur, segments[i]) {
        case None => return false, root;
        case Some(step) =>
          forall rest: Location ensures at + ([step] + rest) == (at + [step]) + rest {}
          cur := Child(cur, step);
          at := at + [step];
      }
      i := i + 1;
    }
    assert segments[i..][1..] == [];
    match StepInto(cur, segments[i]) {
      case None => return false, root;
      case Some(step) =>
        assert Resolve(Child(cur, step), segments[i..][1..]) == Some([]);
        assert [step] + [] == [step];
        return true, Replace(root, at + [step], replacement);
    }
  }

  // ---------- all redactions at once ----------

  /** The remainders of the paths that enter node `j` through `step`. */
  function Under(j: Json, paths: set<seq<string>>, step: Step): set<seq<string>> {
    set p | p in paths && p != [] && StepInto(j, p[0]) == Some(step) :: p[1..]
  }

  /** Redact every path of a set in one pass over the original tree. */
  function Mask(j: Json, paths: set<seq<string>>): Json {
    if [] in paths then REDACTED
    else
      match j
      case Arr(items) => Arr(seq(|items|, i requires 0 <= i < |items| => Mask(items[i], Under(j, paths, Index(i)))))
      case Obj(fields) => Obj(map k | k in fields :: Mask(fields[k], Under(j, paths, Key(k))))
      case _ => j
  }

  lemma MaskUnfolds(j: Json, paths: set<seq<string>>)
    requires [] !in paths
    ensures HeadOf(Mask(j, paths)) == HeadOf(j)
    ensures forall step | HasChild(j, step) ::
              HasChild(Mask(j, paths), step) &&
                Child(Mask(j, paths), step) == Mask(Child(j, step), Under(j, paths, step))
  {
    if j.Obj? {
      assert Mask(j, paths).fields.Keys == j.fields.Keys;
    }
  }

  lemma ReplaceUnfolds(j: Json, path: seq<string>)
    requires path != []
    ensures HeadOf(Redact(j, path)) == HeadOf(j)
    ensures forall step | HasChild(j, step) ::
              && HasChild(Redact(j, path), step)
              && Child(Redact(j, path), step) ==
                 (if StepInto(j, path[0]) == Some(step) then Redact(Child(j, step), path[1..]) else Child(j, step))
  {
    match StepInto(j, path[0])
    case None =>
    case Some(step) =>
      match Resolve(Child(j, step), path[1..]) {
        case None =>
        case Some(rest) =>
          assert ([step] + rest)[1..] == rest;
          if j.Obj? {
            assert Redact(j, path).fields.Keys == j.fields.Keys;
          }
      }
  }

  lemma SameHeadSameSteps(a: Json, b: Json, segment: string)
    requires HeadOf(a) == HeadOf(b)
    ensures StepInto(a, segment) == StepInto(b, segment)
  {
  }

  lemma SameHeadSameUnder(a: Json, b: Json, paths: set<seq<string>>, step: Step)
    requires HeadOf(a) == HeadOf(b)
    ensures Under(a, paths, step) == Under(b, paths, step)
  {
    forall s: string ensures StepInto(a, s) == StepInto(b, s) {
      SameHeadSameSteps(a, b, s);
    }
  }

  lemma UnderOneMore(j: Json, paths: set<seq<string>>, path: seq<string>, step: Step)
    requires path != []
    ensures Under(j, paths + {path}, step) ==
            Under(j, paths, step) + if StepInto(j, path[0]) == Some(step) then {path[1..]} else {}
  {
    assert StepInto(j, path[0]) == Some(step) ==> path[1..] in Under(j, paths + {path}, step);
  }

  /** One redaction followed by masking is masking one path more: an earlier
      redaction neither hides nor uncovers anything a later one would do. */
  lemma {:induction false} RedactThenMask(j: Json, path: seq<string>, paths: set<seq<string>>)
    ensures Mask(Redact(j, path), paths) == Mask(j, paths + {path})
  {
    if path != [] && [] !in paths {
      var left, right := Mask(Redact(j, path), paths), Mask(j, paths + {path});
      ReplaceUnfolds(j, path);
      MaskUnfolds(Redact(j, path), paths);
      MaskUnfolds(j, paths + {path});
      forall step | HasChild(j, step) ensures Child(left, step) == Child(right, step) {
        SameHeadSameUnder(Redact(j, path), j, paths, step);
        UnderOneMore(j, paths, path, step);
        if StepInto(j, path[0]) == Some(step) {
          RedactThenMask(Child(j, step), path[1..], Under(j, paths, step));
        } else {
          assert Under(j, paths + {path}, step) == Under(j, paths, step);
        }
      }
      forall step | HasChild(left, step) ensures HasChild(j, step) {
        SameHeadSameChildren(left, j, step);
      }
      Extensional(left, right);
    }
  }

  // ---------- obligations on a tool result ----------

  const REDACT := "redact"
  const CONTENT := "content"
  const STRUCTURED := "structuredContent"

  function RedactRaw(raw: Raw, path: seq<string>): Raw {
    match raw
    case Doc(tree) => Doc(Redact(tree, path))
    case _ => raw
  }

  function ApplyOne(result: ToolResult, o: Obligation): ToolResult {
    var segments := Split(o.target);
    if o.kind != REDACT || |segments| < 2 then result
    else if segments[0] == STRUCTURED then result.(structured := RedactRaw(result.structured, segments[1..]))
    else if segments[0] == CONTENT then result.(content := RedactRaw(result.content, segments[1..]))
    else result
  }

  /** The obligations in the order the policy listed them. */
  function Apply(result: ToolResult, obligations: seq<Obligation>): ToolResult
    decreases |obligations|
  {
    if obligations == [] then result
    else Apply(ApplyOne(result, obligations[0]), obligations[1..])
  }

  /** redactInJSON: empty or malformed bytes and unresolved paths come back as they were. */
  method RedactInJson(raw: Raw, segments: seq<string>) returns (out: Raw)
    requires segments != []
    ensures out == RedactRaw(raw, segments)
  {
    match raw
    case Absent => out := raw;
    case Unparsable(_) => out := raw;
    case Doc(tree) =>
      var found, updated := SetAtPath(tree, segments, REDACTED);
      out := if found then Doc(updated) else raw;
  }

  /** applyObligations. */
  method ApplyObligations(result: ToolResult, obligations: seq<Obligation>) returns (out: ToolResult)
    ensures out == Apply(result, obligations)
  {
    out := result;
    for i := 0 to |obligations|
      invariant Apply(result, obligations) == Apply(out, obligations[i..])
    {
      assert obligations[i..][1..] == obligations[i + 1..];
      var o := obligations[i];
      if o.kind == REDACT {
        var segments := Split(o.target);
        if |segments| >= 2 {
          if segments[0] == STRUCTURED {
            var raw := RedactInJson(out.structured, segments[1..]);
            out := out.(structured := raw);
          } else if segments[0] == CONTENT {
            var raw := RedactInJson(out.content, segments[1..]);
            out := out.(content := raw);
          }
        }
      }
    }
  }

  /** The paths the obligations aim at one field of the result. */
  function Targets(obligations: seq<Obligation>, field: string): set<seq<string>> {
    set o | o in obligations && o.kind == REDACT && |Split(o.target)| >= 2 && Split(o.target)[0] == field
          :: Split(o.target)[1..]
  }

  function MaskRaw(raw: Raw, paths: set<seq<string>>): Raw {
    match raw
    case Doc(tree) => Doc(Mask(tree, paths))
    case _ => raw
  }

  function MaskResult(result: ToolResult, obligations: seq<Obligation>): ToolResult {
    ToolResult(MaskRaw(result.content, Targets(obligations, CONTENT)),
               MaskRaw(result.structured, Targets(obligations, STRUCTURED)),
               result.isError)
  }

  lemma {:induction false} MaskNothing(j: Json)
    ensures Mask(j, {}) == j
  {
    MaskUnfolds(j, {});
    forall step | HasChild(j, step) ensures Child(Mask(j, {}), step) == Child(j, step) {
      assert Under(j, {}, step) == {};
      MaskNothing(Child(j, step));
    }
    Extensional(Mask(j, {}), j);
  }

  lemma RawStep(raw: Raw, path: seq<string>, paths: set<seq<string>>)
    ensures MaskRaw(RedactRaw(raw, path), paths) == MaskRaw(raw, paths + {path})
  {
    if raw.Doc? {
      RedactThenMask(raw.tree, path, paths);
    }
  }

  lemma TargetsSplit(obligations: seq<Obligation>, field: string)
    requires obligations != []
    ensures Targets(obligations, field) == Targets(obligations[..1], field) + Targets(obligations[1..], field)
  {
    assert obligations == obligations[..1] + obligations[1..];
  }

  /** Applying obligations one after the other equals masking all their
      targets at once in the original result. */
  lemma {:induction false} SequentialIsSimultaneous(result: ToolResult, obligations: seq<Obligation>)
    ensures Apply(result, obligations) == MaskResult(result, obligations)
    decreases |obligations|
  {
    if obligations == [] {
      if result.content.Doc? { MaskNothing(result.content.tree); }
      if result.structured.Doc? { MaskNothing(result.structured.tree); }
      assert Targets(obligations, CONTENT) == {} == Targets(obligations, STRUCTURED);
    } else {
      var o, rest := obligations[0], obligations[1..];
      var next := ApplyOne(result, o);
      SequentialIsSimultaneous(next, rest);
      TargetsSplit(obligations, CONTENT);
      TargetsSplit(obligations, STRUCTURED);
      FirstStep(result, o, CONTENT, Targets(rest, CONTENT));
      FirstStep(result, o, STRUCTURED, Targets(rest, STRUCTURED));
      assert obligations[..1] == [o];
    }
  }

  function FieldOf(result: ToolResult, field: string): Raw {
    if field == CONTENT then result.content else result.structured
  }

  lemma FirstStep(result: ToolResult, o: Obligation, field: string, paths: set<seq<string>>)
    requires field == CONTENT || field == STRUCTURED
    ensures MaskRaw(FieldOf(ApplyOne(result, o), field), paths) ==
            MaskRaw(FieldOf(result, field), Targets([o], field) + paths)
  {
    var segments := Split(o.target);
    if o.kind == REDACT && |segments| >= 2 && segments[0] == field {
      assert o in [o];
      assert Targets([o], field) == {segments[1..]};
      RawStep(FieldOf(result, field), segments[1..], paths);
      assert {segments[1..]} + paths == paths + {segments[1..]};
    } else {
      assert Targets([o], field) == {};
      assert Targets([o], field) + paths == paths;
    }
  }

  /** The outcome depends on the set of redaction targets only: not on their
      order, their repetition, or the obligations the gateway does not know. */
  lemma OrderDoesNotMatter(result: ToolResult, a: seq<Obligation>, b: seq<Obligation>)
    requires forall o: Obligation | o.kind == REDACT :: o in a <==> o in b
    ensures Apply(result, a) == Apply(result, b)
  {
    SequentialIsSimultaneous(result, a);
    SequentialIsSimultaneous(result, b);
    assert Targets(a, CONTENT) == Targets(b, CONTENT);
    assert Targets(a, STRUCTURED) == Targets(b, STRUCTURED);
  }

  lemma {:induction false} ApplyConcat(result: ToolResult, a: seq<Obligation>, b: seq<Obligation>)
    ensures Apply(Apply(result, a), b) == Apply(result, a + b)
    decreases |a|
  {
    if a == [] {
      assert a + b == b;
    } else {
      assert (a + b)[1..] == a[1..] + b;
      ApplyConcat(ApplyOne(result, a[0]), a[1..], b);
    }
  }

  /** Redacting an already redacted result changes nothing. */
  lemma ApplyTwice(result: ToolResult, obligations: seq<Obligation>)
    ensures Apply(Apply(result, obligations), obligations) == Apply(result, obligations)
  {
    ApplyConcat(result, obligations, obligations);
    OrderDoesNotMatter(result, obligations + obligations, obligations);
  }

  // ---------- which locations are replaced ----------

  /** The locations a set of paths resolves to in the original tree. Different
      paths ("0", "00", "+0") may name the same location. */
  function Locations(j: Json, paths: set<seq<string>>): set<Location> {
    set p | p in paths && Resolve(j, p).Some? :: Resolve(j, p).value
  }

  function Below(locations: set<Location>, step: Step): set<Location> {
    set l | l in locations && l != [] && l[0] == step :: l[1..]
  }

  /** Replace every location of a set at once. */
  function ReplaceAll(j: Json, locations: set<Location>): Json {
    if [] in locations then REDACTED
    else
      match j
      case Arr(items) =>
        Arr(seq(|items|, i requires 0 <= i < |items| => ReplaceAll(items[i], Below(locations, Index(i)))))
      case Obj(fields) => Obj(map k | k in fields :: ReplaceAll(fields[k], Below(locations, Key(k))))
      case _ => j
  }

  lemma ReplaceAllUnfolds(j: Json, locations: set<Location>)
    requires [] !in locations
    ensures HeadOf(ReplaceAll(j, locations)) == HeadOf(j)
    ensures forall step | HasChild(j, step) ::
              && HasChild(ReplaceAll(j, locations), step)
              && Child(ReplaceAll(j, locations), step) == ReplaceAll(Child(j, step), Below(locations, step))
  {
    if j.Obj? {
      assert ReplaceAll(j, locations).fields.Keys == j.fields.Keys;
    }
  }

  lemma LocationsBelow(j: Json, paths: set<seq<string>>, step: Step)
    requires HasChild(j, step)
    ensures Below(Locations(j, paths), step) == Locations(Child(j, step), Under(j, paths, step))
  {
    var child, under := Child(j, step), Under(j, paths, step);
    forall l | l in Below(Locations(j, paths), step) ensures l in Locations(child, under) {
      var p :| p in paths && Resolve(j, p).Some? && Resolve(j, p).value != [] &&
               Resolve(j, p).value[0] == step && Resolve(j, p).value[1..] == l;
      assert p[1..] in under;
      assert Resolve(child, p[1..]) == Some(l);
    }
    forall l | l in Locations(child, under) ensures l in Below(Locations(j, paths), step) {
      var q :| q in under && Resolve(child, q) == Some(l);
      var p :| p in paths && p != [] && StepInto(j, p[0]) == Some(step) && p[1..] == q;
      assert Resolve(j, p) == Some([step] + l);
      assert [step] + l in Locations(j, paths);
      assert ([step] + l)[1..] == l;
    }
  }

  lemma {:induction false} MaskReplacesLocations(j: Json, paths: set<seq<string>>)
    ensures Mask(j, paths) == ReplaceAll(j, Locations(j, paths))
  {
    var locations := Locations(j, paths);
    if [] in paths {
      assert Resolve(j, []) == Some([]);
      assert [] in locations;
    } else {
      assert [] !in locations;
      MaskUnfolds(j, paths);
      ReplaceAllUnfolds(j, locations);
      forall step | HasChild(j, step)
        ensures Child(Mask(j, paths), step) == Child(ReplaceAll(j, locations), step)
      {
        LocationsBelow(j, paths, step);
        MaskReplacesLocations(Child(j, step), Under(j, paths, step));
      }
      Extensional(Mask(j, paths), ReplaceAll(j, locations));
    }
  }

  /** The locations no other location of the set lies above. */
  function Shortest(locations: set<Location>): set<Location> {
    set l | l in locations && forall k | k in locations :: k <= l ==> k == l
  }

  lemma ShortestBelow(locations: set<Location>, step: Step)
    requires [] !in locations
    ensures Below(Shortest(locations), step) == Shortest(Below(locations, step))
  {
    forall l | l in Below(Shortest(locations), step) ensures l in Shortest(Below(locations, step)) {
      var whole :| whole in Shortest(locations) && whole != [] && whole[0] == step && whole[1..] == l;
      forall k | k in Below(locations, step) && k <= l ensures k == l {
        var above :| above in locations && above != [] && above[0] == step && above[1..] == k;
        assert above == [step] + k && whole == [step] + l;
        assert above <= whole;
      }
    }
    forall l | l in Shortest(Below(locations, step)) ensures l in Below(Shortest(locations), step) {
      var whole :| whole in locations && whole != [] && whole[0] == step && whole[1..] == l;
      forall k | k in locations && k <= whole ensures k == whole {
        assert k[0] == step && k[1..] <= l;
        assert k[1..] in Below(locations, step);
        assert k == [step] + k[1..] && whole == [step] + l;
      }
      assert whole in Shortest(locations);
    }
  }

  lemma {:induction false} OnlyShortestMatter(j: Json, locations: set<Location>)
    ensures ReplaceAll(j, locations) == ReplaceAll(j, Shortest(locations))
  {
    if [] in locations {
      assert [] in Shortest(locations);
    } else {
      ReplaceAllUnfolds(j, locations);
      ReplaceAllUnfolds(j, Shortest(locations));
      forall step | HasChild(j, step)
        ensures Child(ReplaceAll(j, locations), step) == Child(ReplaceAll(j, Shortest(locations)), step)
      {
        ShortestBelow(locations, step);
        OnlyShortestMatter(Child(j, step), Below(locations, step));
      }
      Extensional(ReplaceAll(j, locations), ReplaceAll(j, Shortest(locations)));
    }
  }

  /** Applying obligations to a document replaces, at once, exactly the
      shortest locations the targets resolve to in the original document. */
  lemma RedactionReplacesShortest(result: ToolResult, obligations: seq<Obligation>)
    ensures result.structured.Doc? ==>
              var tree := result.structured.tree;
              Apply(result, obligations).structured ==
              Doc(ReplaceAll(tree, Shortest(Locations(tree, Targets(obligations, STRUCTURED)))))
    ensures result.content.Doc? ==>
              var tree := result.content.tree;
              Apply(result, obligations).content ==
              Doc(ReplaceAll(tree, Shortest(Locations(tree, Targets(obligations, CONTENT)))))
  {
    SequentialIsSimultaneous(result, obligations);
    if result.structured.Doc? {
      var tree, paths := result.structured.tree, Targets(obligations, STRUCTURED);
      MaskReplacesLocations(tree, paths);
      OnlyShortestMatter(tree, Locations(tree, paths));
    }
    if result.content.Doc? {
      var tree, paths := result.content.tree, Targets(obligations, CONTENT);
      MaskReplacesLocations(tree, paths);
      OnlyShortestMatter(tree, Locations(tree, paths));
    }
  }

  predicate Covered(at: Location, locations: set<Location>) {
    exists l :: l in locations && l <= at
  }

  lemma CoveredBelow(at: Location, locations: set<Location>, step: Step)
    requires [] !in locations
    ensures Covered([step] + at, locations) <==> Covered(at, Below(locations, step))
  {
    if Covered([step] + at, locations) {
      var l :| l in locations && l <= [step] + at;
      assert l[0] == step && l[1..] <= at;
      assert l[1..] in Below(locations, step);
    }
    if Covered(at, Below(locations, step)) {
      var k :| k in Below(locations, step) && k <= at;
      var l :| l in locations && l != [] && l[0] == step && l[1..] == k;
      assert l == [step] + k;
      assert l <= [step] + at;
    }
  }

  /** Node by node: what lies under no replaced location is as before, and a
      shortest replaced location holds the placeholder. */
  lemma {:induction false} ReplaceAllPointwise(j: Json, locations: set<Location>, at: Location)
    ensures !Covered(at, locations) ==> HeadAt(ReplaceAll(j, locations), at) == HeadAt(j, at)
    ensures at in Shortest(locations) && Lookup(j, at).Some? ==> Lookup(ReplaceAll(j, locations), at) == Some(REDACTED)
    decreases at
  {
    if [] in locations {
      assert [] <= at;
    } else {
      ReplaceAllUnfolds(j, locations);
      if at != [] {
        var step := at[0];
        assert at == [step] + at[1..];
        CoveredBelow(at[1..], locations, step);
        ShortestBelow(locations, step);
        SameHeadSameChildren(ReplaceAll(j, locations), j, step);
        if HasChild(j, step) {
          ReplaceAllPointwise(Child(j, step), Below(locations, step), at[1..]);
          assert at in Shortest(locations) ==> at[1..] in Below(Shortest(locations), step);
        }
      }
    }
  }

  // ---------- non-interference ----------

  /** Wherever no redacted location lies above, both trees look the same. The
      subtrees at redacted locations may differ in value and in shape. */
  ghost predicate DifferOnlyBeneath(a: Json, b: Json, hidden: set<Location>) {
    forall at: Location :: !Covered(at, hidden) ==> HeadAt(a, at) == HeadAt(b, at)
  }

  lemma DifferBelow(a: Json, b: Json, hidden: set<Location>, step: Step)
    requires DifferOnlyBeneath(a, b, hidden) && [] !in hidden
    requires HasChild(a, step) && HasChild(b, step)
    ensures DifferOnlyBeneath(Child(a, step), Child(b, step), Below(hidden, step))
  {
    forall at: Location | !Covered(at, Below(hidden, step))
      ensures HeadAt(Child(a, step), at) == HeadAt(Child(b, step), at)
    {
      CoveredBelow(at, hidden, step);
      assert ([step] + at)[1..] == at;
      assert HeadAt(a, [step] + at) == HeadAt(b, [step] + at);
    }
  }

  lemma {:induction false} MaskHides(a: Json, b: Json, paths: set<seq<string>>)
    requires DifferOnlyBeneath(a, b, Locations(a, paths))
    ensures Mask(a, paths) == Mask(b, paths)
  {
    if [] !in paths {
      assert [] !in Locations(a, paths);
      assert HeadOf(a) == HeadOf(b) by {
        assert !Covered([], Locations(a, paths));
        assert HeadAt(a, []) == HeadAt(b, []);
      }
      MaskUnfolds(a, paths);
      MaskUnfolds(b, paths);
      var left, right := Mask(a, paths), Mask(b, paths);
      forall step | HasChild(left, step) ensures Child(left, step) == Child(right, step) {
        SameHeadSameChildren(left, a, step);
        SameHeadSameChildren(a, b, step);
        LocationsBelow(a, paths, step);
        DifferBelow(a, b, Locations(a, paths), step);
        MaskHides(Child(a, step), Child(b, step), Under(a, paths, step));
        SameHeadSameUnder(a, b, paths, step);
      }
      Extensional(left, right);
    }
  }

  /** Two raw fields that differ only beneath the locations the paths resolve to. */
  ghost predicate RawDifferOnlyBeneath(a: Raw, b: Raw, paths: set<seq<string>>) {
    match (a, b)
    case (Doc(s), Doc(t)) => DifferOnlyBeneath(s, t, Locations(s, paths))
    case _ => a == b
  }

  /** Two tool results that differ only beneath redacted locations are
      delivered as the same result: nothing hidden leaks. */
  lemma RedactionNonInterference(a: ToolResult, b: ToolResult, obligations: seq<Obligation>)
    requires a.isError == b.isError
    requires RawDifferOnlyBeneath(a.content, b.content, Targets(obligations, CONTENT))
    requires RawDifferOnlyBeneath(a.structured, b.structured, Targets(obligations, STRUCTURED))
    ensures Apply(a, obligations) == Apply(b, obligations)
  {
    SequentialIsSimultaneous(a, obligations);
    SequentialIsSimultaneous(b, obligations);
    if a.content.Doc? && b.content.Doc? {
      MaskHides(a.content.tree, b.content.tree, Targets(obligations, CONTENT));
    }
    if a.structured.Doc? && b.structured.Doc? {
      MaskHides(a.structured.tree, b.structured.tree, Targets(obligations, STRUCTURED));
    }
  }

  // ---------- what a path names ----------

  const DIGITS := "0123456789"

  /** A number as it is usually written. */
  function Decimal(n: nat): (s: string)
    ensures s != "" && forall c | c in s :: c in DIGITS
  {
    if n < 10 then [DIGITS[n]] else Decimal(n / 10) + [DIGITS[n % 10]]
  }

  lemma DigitValue(d: nat)
    requires d < 10
    ensures '0' <= DIGITS[d] <= '9' && (DIGITS[d] - '0') as nat == d
  {
  }

  lemma DigitsMore(s: string, d: nat)
    requires d < 10
    ensures Digits(s + [DIGITS[d]]) == match Digits(s) case Some(high) => Some(10 * high + d) case None => None
  {
    assert (s + [DIGITS[d]])[..|s|] == s;
    DigitValue(d);
  }

  lemma {:induction false} DigitsOfDecimal(n: nat)
    ensures Digits(Decimal(n)) == Some(n)
  {
    if n < 10 {
      DigitsMore("", n);
      assert "" + [DIGITS[n]] == [DIGITS[n]];
    } else {
      DigitsOfDecimal(n / 10);
      DigitsMore(Decimal(n / 10), n % 10);
    }
  }

  lemma {:induction false} LeadingZero(s: string)
    ensures Digits("0" + s) == Digits(s)
  {
    var t := "0" + s;
    if s == "" {
      DigitsMore("", 0);
      assert "" + [DIGITS[0]] == t;
    } else {
      assert t[..|t| - 1] == "0" + s[..|s| - 1];
      LeadingZero(s[..|s| - 1]);
    }
  }

  lemma AtoiUnsigned(s: string, n: nat)
    requires s != "" && s[0] != '+' && s[0] != '-' && Digits(s) == Some(n)
    ensures Atoi(s) == Some(n)
  {
  }

  lemma AtoiSigned(s: string, n: nat)
    requires s != "" && Digits(s) == Some(n)
    ensures Atoi("+" + s) == Some(n) && Atoi("-" + s) == Some(0 - n)
  {
    assert ("+" + s)[1..] == s && ("-" + s)[1..] == s;
  }

  /** Reading a written number gives it back, also behind a sign or a zero. */
  lemma AtoiReadsDecimals(n: nat)
    ensures Atoi(Decimal(n)) == Some(n) && Atoi("+" + Decimal(n)) == Some(n) && Atoi("0" + Decimal(n)) == Some(n)
    ensures Atoi("-" + Decimal(n)) == Some(0 - n)
  {
    var s := Decimal(n);
    DigitsOfDecimal(n);
    LeadingZero(s);
    assert s[0] in s && '+' !in DIGITS && '-' !in DIGITS;
    AtoiUnsigned(s, n);
    AtoiUnsigned("0" + s, n);
    AtoiSigned(s, n);
  }

  /** Each way of writing i names slot i of an array that has one, and none of a
      shorter array. */
  lemma SlotsByNumber(items: seq<Json>, i: nat)
    ensures var slot := if i < |items| then Some([Index(i)]) else None;
            && Resolve(Arr(items), [Decimal(i)]) == slot && Resolve(Arr(items), ["+" + Decimal(i)]) == slot
            && Resolve(Arr(items), ["0" + Decimal(i)]) == slot
  {
    AtoiReadsDecimals(i);
    OneSegment(items, Decimal(i), i);
    OneSegment(items, "+" + Decimal(i), i);
    OneSegment(items, "0" + Decimal(i), i);
  }

  lemma OneSegment(items: seq<Json>, s: string, i: nat)
    requires Atoi(s) == Some(i)
    ensures Resolve(Arr(items), [s]) == if i < |items| then Some([Index(i)]) else None
  {
    assert [s][1..] == [];
    if i < |items| {
      assert Resolve(Child(Arr(items), Index(i)), [s][1..]) == Some([]);
      assert [Index(i)] + [] == [Index(i)];
    }
  }

  /** Step k of a location is what segment k says: that key, or that number. */
  predicate Follows(at: Location, path: seq<string>) {
    && |at| == |path|
    && forall k | 0 <= k < |at| ::
         match at[k]
         case Key(name) => name == path[k]
         case Index(n) => Atoi(path[k]) == Some(n)
  }

  lemma {:induction false} ResolveFollows(j: Json, path: seq<string>)
    ensures Resolve(j, path).Some? ==> Follows(Resolve(j, path).value, path) && Lookup(j, Resolve(j, path).value).Some?
    decreases |path|
  {
    if path != [] && StepInto(j, path[0]).Some? {
      ResolveFollows(Child(j, StepInto(j, path[0]).value), path[1..]);
    }
  }

  /** A path leads to every location that exists and follows it: to exactly one,
      or to none if there is none. */
  lemma {:induction false} ResolveIsExact(j: Json, path: seq<string>, at: Location)
    ensures Resolve(j, path) == Some(at) <==> Follows(at, path) && Lookup(j, at).Some?
    decreases |path|
  {
    ResolveFollows(j, path);
    if Follows(at, path) && Lookup(j, at).Some? && path != [] {
      var step := at[0];
      assert StepInto(j, path[0]) == Some(step);
      assert forall k | 0 <= k < |at| - 1 :: at[1..][k] == at[k + 1] && path[1..][k] == path[k + 1];
      ResolveIsExact(Child(j, step), path[1..], at[1..]);
      assert at == [step] + at[1..];
    }
  }

  lemma {:induction false} SplitPlain(s: string)
    requires '.' !in s
    ensures Split(s) == [s]
  {
    if s != "" {
      assert s[0] in s;
      assert forall c | c in s[1..] :: c in s;
      SplitPlain(s[1..]);
      assert s == [s[0]] + s[1..];
    }
  }

  lemma {:induction false} SplitDotted(a: string, rest: string)
    requires '.' !in a
    ensures Split(a + "." + rest) == [a] + Split(rest)
  {
    var path := a + "." + rest;
    if a == "" {
      assert path == "." + rest && path[1..] == rest;
    } else {
      assert a[0] in a;
      assert forall c | c in a[1..] :: c in a;
      assert path[1..] == a[1..] + "." + rest;
      SplitDotted(a[1..], rest);
      assert a == [a[0]] + a[1..];
    }
  }

  lemma SplitTwo(a: string, b: string)
    requires '.' !in a && '.' !in b
    ensures Split(a + "." + b) == [a, b]
  {
    SplitDotted(a, b);
    SplitPlain(b);
  }

  /** In literals: redacting structuredContent.k overwrites field k, and nothing
      else, with the placeholder. */
  lemma RedactsTheField(result: ToolResult, fields: map<string, Json>, k: string)
    requires result.structured == Doc(Obj(fields)) && k in fields && '.' !in k
    ensures Apply(result, [Obligation("redact", "structuredContent." + k)]) ==
            result.(structured := Doc(Obj(fields[k := Str("[REDACTED]")])))
  {
    var o := Obligation("redact", "structuredContent." + k);
    SplitTwo("structuredContent", k);
    assert "structuredContent" + "." + k == o.target;
    assert [k][1..] == [] && [Key(k)] + [] == [Key(k)];
    assert Resolve(Child(Obj(fields), Key(k)), [k][1..]) == Some([]);
    assert Resolve(Obj(fields), [k]) == Some([Key(k)]);
    assert [Key(k)][1..] == [];
    assert Replace(Child(Obj(fields), Key(k)), [Key(k)][1..], REDACTED) == REDACTED;
    assert [o][1..] == [];
  }

  /** In literals: redacting content.i overwrites slot i, and no other. */
  lemma RedactsTheSlot(result: ToolResult, items: seq<Json>, i: nat)
    requires result.content == Doc(Arr(items)) && i < |items|
    ensures Apply(result, [Obligation("redact", "content." + Decimal(i))]) ==
            result.(content := Doc(Arr(items[i := Str("[REDACTED]")])))
  {
    assert '.' !in DIGITS;
    AtoiReadsDecimals(i);
    RedactsSlotNamed(result, items, Decimal(i), i);
  }

  lemma RedactsSlotNamed(result: ToolResult, items: seq<Json>, s: string, i: nat)
    requires result.content == Doc(Arr(items)) && i < |items| && '.' !in s && Atoi(s) == Some(i)
    ensures Apply(result, [Obligation("redact", "content." + s)]) ==
            result.(content := Doc(Arr(items[i := Str("[REDACTED]")])))
  {
    var o := Obligation("redact", "content." + s);
    SplitTwo("content", s);
    assert "content" + "." + s == o.target;
    OneSegment(items, s, i);
    assert [Index(i)][1..] == [];
    assert Replace(Child(Arr(items), Index(i)), [Index(i)][1..], REDACTED) == REDACTED;
    assert [o][1..] == [];
  }

  /** Segments that Atoi maps to one number name one array slot. */
  lemma AliasingSegments(items: seq<Json>)
    requires items != []
    ensures Resolve(Arr(items), ["0"]) == Resolve(Arr(items), ["00"]) == Resolve(Arr(items), ["+0"])
              == Resolve(Arr(items), ["-0"]) == Some([Index(0)])
  {
    assert Digits("0"[..0]) == Some(0);
    assert Digits("00"[..1]) == Digits("0") == Some(0);
    assert "+0"[1..] == "0" && "-0"[1..] == "0";
    assert Atoi("0") == Some(0) && Atoi("00") == Some(0) && Atoi("+0") == Some(0) && Atoi("-0") == Some(0);
    forall s: string | Atoi(s) == Some(0) ensures Resolve(Arr(items), [s]) == Some([Index(0)]) {
      assert [s][1..] == [] && [Index(0)] + [] == [Index(0)];
      assert StepInto(Arr(items), s) == Some(Index(0));
      assert Resolve(Child(Arr(items), Index(0)), [s][1..]) == Some([]);
    }
  }
}
