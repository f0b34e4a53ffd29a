/** The file-backed ledger: framing, append with its failure points, tail
    recovery and verification (pkg/audit/file_store.go). */
module FileLedger {
  import opened Types
  import opened HashChain

  /** What the store takes from crypto/sha256 and encoding/json. */
  datatype Format<!C> = Format(
    hash: (C, string) -> string,
    encode: Link<C> -> string,
    decode: string -> Option<Link<C>>)

  /** The hash is ideal; decoding a line (with or without its newline) gives
      back the record; JSON escaping (section 7 of RFC 8259) keeps raw line breaks
      out of an encoded record; and a blank line is no record. */
  ghost predicate Sound<C(!new)>(f: Format<C>) {
    && Ideal(f.hash)
    && (forall link :: f.decode(f.encode(link)) == Some(link))
    && (forall link :: f.decode(f.encode(link) + "\n") == Some(link))
    && f.decode("\n") == None
    && (forall link :: f.encode(link) != "" && '\n' !in f.encode(link) && f.encode(link)[|f.encode(link)| - 1] != '\r')
  }

  // ---------- framing ----------

  function FirstNewline(s: string): (i: nat)
    ensures i <= |s| && '\n' !in s[..i]
    ensures i < |s| ==> s[i] == '\n'
  {
    if s == "" || s[0] == '\n' then 0
    else
      var i := 1 + FirstNewline(s[1..]);
      assert s[..i] == [s[0]] + s[1..][..i - 1];
      i
  }

  /** What ReadBytes('\n') returns next: up to and including the first newline,
      or all that is left. */
  function NextLine(s: string): (line: string)
    ensures line <= s
    ensures s != "" ==> line != ""
  {
    var i := FirstNewline(s);
    if i == |s| then s else s[..i + 1]
  }

  /** The pieces a ReadBytes loop sees. */
  function Segments(s: string): seq<string> {
    if s == "" then [] else [NextLine(s)] + Segments(s[|NextLine(s)|..])
  }

  /** A segment as bufio.ScanLines delivers it: no newline, no final '\r'. */
  function Chomp(segment: string): string {
    var line := Unterminated(segment);
    if line != "" && line[|line| - 1] == '\r' then line[..|line| - 1] else line
  }

  function Unterminated(segment: string): string {
    if segment != "" && segment[|segment| - 1] == '\n' then segment[..|segment| - 1] else segment
  }

  function Frame<C>(f: Format<C>, log: seq<Link<C>>): string {
    if log == [] then "" else Frame(f, log[..|log| - 1]) + LineFor(f, log[|log| - 1])
  }

  function LineFor<C>(f: Format<C>, link: Link<C>): string {
    f.encode(link) + "\n"
  }

  function Lines<C>(f: Format<C>, log: seq<Link<C>>): (r: seq<string>)
    ensures |r| == |log|
  {
    seq(|log|, i requires 0 <= i < |log| => LineFor(f, log[i]))
  }

  lemma NextLineIs(s: string, i: nat)
    requires i < |s| && s[i] == '\n' && '\n' !in s[..i]
    ensures NextLine(s) == s[..i + 1]
  {
    var j := FirstNewline(s);
    assert forall k | 0 <= k < i :: s[k] == s[..i][k];
    assert forall k | 0 <= k < j :: s[k] == s[..j][k];
  }

  predicate Terminated(s: string) {
    s == "" || s[|s| - 1] == '\n'
  }

  lemma TerminatedHead(s: string, t: string) returns (line: string, rest: string)
    requires s != "" && Terminated(s)
    ensures |rest| < |s| && Terminated(rest)
    ensures Segments(s) == [line] + Segments(rest)
    ensures Segments(s + t) == [line] + Segments(rest + t)
  {
    var i := FirstNewline(s);
    assert s[..|s|] == s && s[|s| - 1] in s;
    line, rest := s[..i + 1], s[i + 1..];
    assert (s + t)[..i] == s[..i];
    NextLineIs(s, i);
    NextLineIs(s + t, i);
    assert (s + t)[..i + 1] == line && (s + t)[i + 1..] == rest + t;
  }

  lemma {:induction false} SegmentsOfTerminated(s: string, t: string)
    requires Terminated(s)
    ensures Segments(s + t) == Segments(s) + Segments(t)
    decreases |s|
  {
    if s == "" {
      assert s + t == t;
    } else {
      var line, rest := TerminatedHead(s, t);
      SegmentsOfTerminated(rest, t);
      Reassociate(line, Segments(rest), Segments(t));
    }
  }

  lemma Reassociate(line: string, a: seq<string>, b: seq<string>)
    ensures [line] + (a + b) == ([line] + a) + b
  {
  }

  lemma FrameIsTerminated<C>(f: Format<C>, log: seq<Link<C>>)
    ensures Terminated(Frame(f, log))
  {
  }

  lemma OneLineOneSegment<C(!new)>(f: Format<C>, link: Link<C>)
    requires Sound(f)
    ensures Segments(LineFor(f, link)) == [LineFor(f, link)]
  {
    var line := LineFor(f, link);
    assert line[..|f.encode(link)|] == f.encode(link);
    NextLineIs(line, |f.encode(link)|);
    assert NextLine(line) == line && line[|line|..] == "";
    assert Segments(line) == [line] + Segments("");
  }

  lemma OneMoreLine<C(!new)>(f: Format<C>, front: seq<Link<C>>, last: Link<C>)
    requires Sound(f)
    ensures Segments(Frame(f, front) + LineFor(f, last)) == Segments(Frame(f, front)) + [LineFor(f, last)]
  {
    FrameIsTerminated(f, front);
    SegmentsOfTerminated(Frame(f, front), LineFor(f, last));
    OneLineOneSegment(f, last);
  }

  lemma LinesMore<C>(f: Format<C>, log: seq<Link<C>>)
    requires log != []
    ensures Lines(f, log) == Lines(f, log[..|log| - 1]) + [LineFor(f, log[|log| - 1])]
  {
  }

  /** Framing round trip: reading back written records yields exactly their lines. */
  lemma {:induction false} FramingRoundTrip<C(!new)>(f: Format<C>, log: seq<Link<C>>)
    requires Sound(f)
    ensures Segments(Frame(f, log)) == Lines(f, log)
  {
    if log != [] {
      FramingRoundTrip(f, log[..|log| - 1]);
      OneMoreLine(f, log[..|log| - 1], log[|log| - 1]);
      LinesMore(f, log);
    }
  }

  // ---------- verification ----------

  predicate Readable<C>(f: Format<C>, segments: seq<string>) {
    forall s | s in segments :: f.decode(s).Some?
  }

  function Decoded<C>(f: Format<C>, segments: seq<string>): (log: seq<Link<C>>)
    requires Readable(f, segments)
    ensures |log| == |segments|
  {
    seq(|segments|, i requires 0 <= i < |segments| => f.decode(segments[i]).value)
  }

  /** The lines decode to an intact chain. */
  predicate GoodChain<C>(f: Format<C>, segments: seq<string>) {
    Readable(f, segments) && Intact(f.hash, Decoded(f, segments))
  }

  /** Line k is the first that does not extend the chain (counted from 1). */
  predicate FirstBreak<C>(f: Format<C>, segments: seq<string>, k: nat) {
    1 <= k <= |segments| && GoodChain(f, segments[..k - 1]) && !GoodChain(f, segments[..k])
  }

  lemma GoodChainStep<C>(f: Format<C>, segments: seq<string>, s: string)
    ensures GoodChain(f, segments + [s]) <==>
            && GoodChain(f, segments)
            && f.decode(s).Some?
            && Continues(f.hash, Tail(Decoded(f, segments)), f.decode(s).value)
  {
    var more := segments + [s];
    assert s in more;
    assert Readable(f, more) <==> Readable(f, segments) && f.decode(s).Some? by {
      if Readable(f, more) {
        assert forall x | x in segments :: x in more;
      }
    }
    if Readable(f, more) {
      assert Decoded(f, more) == Decoded(f, segments) + [f.decode(s).value];
      IntactAppend(f.hash, Decoded(f, segments), f.decode(s).value);
    }
  }

  lemma {:induction false} GoodChainPrefix<C>(f: Format<C>, segments: seq<string>, n: nat)
    requires n <= |segments| && GoodChain(f, segments)
    ensures GoodChain(f, segments[..n])
    decreases |segments| - n
  {
    if n == |segments| {
      assert segments[..n] == segments;
    } else {
      GoodChainPrefix(f, segments, n + 1);
      assert segments[..n + 1] == segments[..n] + [segments[n]];
      GoodChainStep(f, segments[..n], segments[n]);
    }
  }

  lemma GoodBeforeBreak<C>(f: Format<C>, segments: seq<string>, k: nat, k': nat)
    requires FirstBreak(f, segments, k') && k < k'
    ensures GoodChain(f, segments[..k])
  {
    GoodChainPrefix(f, segments[..k' - 1], k);
    assert segments[..k' - 1][..k] == segments[..k];
  }

  /** The line Verify reports is the only one it could report. */
  lemma FirstBreakIsUnique<C>(f: Format<C>, segments: seq<string>, k: nat, k': nat)
    requires FirstBreak(f, segments, k) && FirstBreak(f, segments, k')
    ensures k == k'
  {
    if k < k' {
      GoodBeforeBreak(f, segments, k, k');
    } else if k' < k {
      GoodBeforeBreak(f, segments, k', k);
    }
  }

  datatype Verdict = Sealed | BrokenAt(line: nat)

  lemma NotGood<C>(f: Format<C>, segments: seq<string>, k: nat)
    requires k <= |segments| && !GoodChain(f, segments[..k])
    ensures !GoodChain(f, segments)
  {
    if GoodChain(f, segments) {
      GoodChainPrefix(f, segments, k);
    }
  }

  lemma VerifyStep<C>(f: Format<C>, read: seq<string>, line: string, later: seq<string>, all: seq<string>)
    requires read + ([line] + later) == all && GoodChain(f, read)
    ensures (read + [line]) + later == all
    ensures if f.decode(line).Some? && Continues(f.hash, Tail(Decoded(f, read)), f.decode(line).value)
            then GoodChain(f, read + [line]) && Tail(Decoded(f, read + [line])) == f.decode(line).value.hash
            else !GoodChain(f, all) && FirstBreak(f, all, |read| + 1)
  {
    assert all[..|read|] == read && all[..|read| + 1] == read + [line];
    GoodChainStep(f, read, line);
    if !GoodChain(f, read + [line]) {
      NotGood(f, all, |read| + 1);
    }
  }

  /** bufio.Reader.ReadBytes up to a newline: the line, what is left, and
      whether the end of the file was hit first. */
  method ReadLine(file: string) returns (line: string, rest: string, eof: bool)
    ensures file == line + rest
    ensures line == "" <==> file == ""
    ensures line != "" ==> Segments(file) == [line] + Segments(rest)
    ensures eof ==> rest == ""
    ensures !eof ==> line != ""
  {
    line := NextLine(file);
    rest := file[|line|..];
    eof := line == "" || line[|line| - 1] != '\n';
  }

  /** Verify: the source's loop over ReadBytes, with prevHash and lineNum. */
  method VerifyFile<C>(f: Format<C>, file: string) returns (v: Verdict)
    ensures v == Sealed <==> GoodChain(f, Segments(file))
    ensures v.BrokenAt? ==> FirstBreak(f, Segments(file), v.line)
  {
    var rest := file;
    var prevHash := "";
    var lineNum := 0;
    ghost var read: seq<string> := [];
    while true
      invariant |read| == lineNum
      invariant read + Segments(rest) == Segments(file)
      invariant GoodChain(f, read) && prevHash == Tail(Decoded(f, read))
      decreases |rest|
    {
      lineNum := lineNum + 1;
      var line, later, eof := ReadLine(rest);
      if line != "" {
        VerifyStep(f, read, line, Segments(later), Segments(file));
        var rec := f.decode(line);
        if rec.None? {
          return BrokenAt(lineNum);
        }
        if rec.value.prevHash != prevHash {
          return BrokenAt(lineNum);
        }
        if rec.value.hash != f.hash(rec.value.body, rec.value.prevHash) {
          return BrokenAt(lineNum);
        }
        prevHash := rec.value.hash;
        read := read + [line];
      }
      if eof {
        assert Segments(later) == [] && Segments(file) == read;
        return Sealed;
      }
      rest := later;
    }
  }

  /** On a file of written records, Verify judges the chain of those records. */
  lemma FrameVerdict<C(!new)>(f: Format<C>, log: seq<Link<C>>, n: nat)
    requires Sound(f) && n <= |log|
    ensures |Segments(Frame(f, log))| == |log|
    ensures GoodChain(f, Segments(Frame(f, log))[..n]) <==> Intact(f.hash, log[..n])
  {
    FramingRoundTrip(f, log);
    var lines := Lines(f, log)[..n];
    forall s | s in lines ensures f.decode(s).Some? {
      var i :| 0 <= i < n && lines[i] == s;
      assert f.decode(LineFor(f, log[i])) == Some(log[i]);
    }
    assert Decoded(f, lines) == log[..n];
  }

  lemma WholeVerdict<C(!new)>(f: Format<C>, log: seq<Link<C>>)
    requires Sound(f)
    ensures GoodChain(f, Segments(Frame(f, log))) <==> Intact(f.hash, log)
  {
    FrameVerdict(f, log, |log|);
    var segments := Segments(Frame(f, log));
    assert segments[..|log|] == segments && log[..|log|] == log;
  }

  // ---------- recovery of the tail ----------

  const SCAN_LIMIT: nat := 8 * 1024 * 1024

  /** bufio.Scanner needs the line and the byte after it in its buffer. */
  predicate Scannable(segment: string, limit: nat) {
    |Unterminated(segment)| + 1 <= limit
  }

  function RecoverFrom<C>(f: Format<C>, segments: seq<string>, limit: nat): Option<string> {
    if segments == [] then Some("")
    else
      match RecoverFrom(f, segments[..|segments| - 1], limit)
      case None => None
      case Some(tail) => ScanOne(f, segments[|segments| - 1], tail, limit)
  }

  function ScanOne<C>(f: Format<C>, segment: string, tail: string, limit: nat): Option<string> {
    if !Scannable(segment, limit) then None
    else if Chomp(segment) == "" then Some(tail)
    else
      match f.decode(Chomp(segment))
      case None => None
      case Some(link) => Some(link.hash)
  }

  lemma RecoverStep<C>(f: Format<C>, segments: seq<string>, i: nat, limit: nat)
    requires i < |segments|
    ensures RecoverFrom(f, segments[..i + 1], limit) ==
            match RecoverFrom(f, segments[..i], limit)
            case None => None
            case Some(tail) => ScanOne(f, segments[i], tail, limit)
  {
    assert segments[..i + 1][..i] == segments[..i];
  }

  lemma {:induction false} RecoverFails<C>(f: Format<C>, segments: seq<string>, n: nat, limit: nat)
    requires n <= |segments| && RecoverFrom(f, segments[..n], limit).None?
    ensures RecoverFrom(f, segments, limit).None?
    decreases |segments| - n
  {
    if n == |segments| {
      assert segments[..n] == segments;
    } else {
      RecoverStep(f, segments, n, limit);
      RecoverFails(f, segments, n + 1, limit);
    }
  }

  /** NewFileStore's scan for the tail hash; None means it refuses to open. */
  method RecoverTail<C>(f: Format<C>, file: string, limit: nat) returns (lastHash: Option<string>)
    ensures lastHash == RecoverFrom(f, Segments(file), limit)
  {
    var segments := Segments(file);
    var tail := "";
    for i := 0 to |segments|
      invariant RecoverFrom(f, segments[..i], limit) == Some(tail)
    {
      RecoverStep(f, segments, i, limit);
      var line := Chomp(segments[i]);
      if !Scannable(segments[i], limit) {
        RecoverFails(f, segments, i + 1, limit);
        return None;
      }
      if line != "" {
        var rec := f.decode(line);
        if rec.None? {
          RecoverFails(f, segments, i + 1, limit);
          return None;
        }
        tail := rec.value.hash;
      }
    }
    assert segments[..|segments|] == segments;
    return Some(tail);
  }

  lemma ChompLine<C(!new)>(f: Format<C>, link: Link<C>)
    requires Sound(f)
    ensures Chomp(LineFor(f, link)) == f.encode(link) == Unterminated(LineFor(f, link))
  {
    assert LineFor(f, link)[..|f.encode(link)|] == f.encode(link);
  }

  /** Every line of the log can be scanned when the store is reopened. */
  ghost predicate AllScannable<C>(f: Format<C>, log: seq<Link<C>>, limit: nat) {
    forall link | link in log :: |f.encode(link)| + 1 <= limit
  }

  lemma AllScannableMore<C>(f: Format<C>, log: seq<Link<C>>, limit: nat)
    requires log != []
    ensures AllScannable(f, log, limit) <==>
            AllScannable(f, log[..|log| - 1], limit) && |f.encode(log[|log| - 1])| + 1 <= limit
  {
    assert log == log[..|log| - 1] + [log[|log| - 1]];
  }

  /** Reopening a written log recovers its tail exactly when every line fits
      the scanner's buffer; Append and Verify know no such limit. */
  lemma {:induction false} ReopenRecoversTail<C(!new)>(f: Format<C>, log: seq<Link<C>>, limit: nat)
    requires Sound(f)
    ensures RecoverFrom(f, Segments(Frame(f, log)), limit) ==
            if AllScannable(f, log, limit) then Some(Tail(log)) else None
  {
    FramingRoundTrip(f, log);
    if log != [] {
      var front, last := log[..|log| - 1], log[|log| - 1];
      ReopenRecoversTail(f, front, limit);
      FramingRoundTrip(f, front);
      AllScannableMore(f, log, limit);
      RecoverLast(f, front, last, limit);
      LinesMore(f, log);
    }
  }

  lemma RecoverLast<C(!new)>(f: Format<C>, front: seq<Link<C>>, last: Link<C>, limit: nat)
    requires Sound(f)
    ensures RecoverFrom(f, Lines(f, front) + [LineFor(f, last)], limit) ==
            if RecoverFrom(f, Lines(f, front), limit).Some? && |f.encode(last)| + 1 <= limit
            then Some(last.hash) else None
  {
    var lines := Lines(f, front) + [LineFor(f, last)];
    assert lines[..|lines| - 1] == Lines(f, front);
    ChompLine(f, last);
  }

  // ---------- blank lines ----------

  const BLANK := "\n"

  lemma BlankIsOneSegment()
    ensures Segments(BLANK) == [BLANK]
  {
    NextLineIs(BLANK, 0);
    assert BLANK[..1] == BLANK && BLANK[1..] == "";
    assert Segments(BLANK) == [BLANK] + Segments("");
  }

  lemma BlankSegments<C(!new)>(f: Format<C>, a: seq<Link<C>>, b: seq<Link<C>>)
    requires Sound(f)
    ensures Segments(Frame(f, a) + BLANK + Frame(f, b)) == Lines(f, a) + [BLANK] + Lines(f, b)
  {
    FrameIsTerminated(f, a);
    SegmentsOfTerminated(Frame(f, a), BLANK);
    SegmentsOfTerminated(Frame(f, a) + BLANK, Frame(f, b));
    FramingRoundTrip(f, a);
    FramingRoundTrip(f, b);
    BlankIsOneSegment();
  }

  lemma RecoverMore<C>(f: Format<C>, segments: seq<string>, s: string, limit: nat)
    ensures RecoverFrom(f, segments + [s], limit) ==
            match RecoverFrom(f, segments, limit)
            case None => None
            case Some(tail) => ScanOne(f, s, tail, limit)
  {
    assert (segments + [s])[..|segments|] == segments;
  }

  lemma BlankIsSkipped<C>(f: Format<C>, tail: string, limit: nat)
    requires limit >= 1
    ensures ScanOne(f, BLANK, tail, limit) == Some(tail)
  {
    assert Unterminated(BLANK) == "";
  }

  lemma Snoc(a: seq<string>, b: seq<string>)
    requires b != []
    ensures a + b == (a + b[..|b| - 1]) + [b[|b| - 1]]
  {
  }

  lemma RecoverNext<C>(f: Format<C>, a: seq<string>, b: seq<string>, limit: nat)
    requires b != []
    ensures RecoverFrom(f, a + b, limit) ==
            match RecoverFrom(f, a + b[..|b| - 1], limit)
            case None => None
            case Some(tail) => ScanOne(f, b[|b| - 1], tail, limit)
  {
    Snoc(a, b);
    RecoverMore(f, a + b[..|b| - 1], b[|b| - 1], limit);
  }

  lemma RecoverBlank<C>(f: Format<C>, a: seq<string>, limit: nat)
    requires limit >= 1
    ensures RecoverFrom(f, a + [BLANK], limit) == RecoverFrom(f, a, limit)
  {
    RecoverMore(f, a, BLANK, limit);
    if RecoverFrom(f, a, limit).Some? {
      BlankIsSkipped(f, RecoverFrom(f, a, limit).value, limit);
    }
  }

  lemma {:induction false} RecoverPastBlank<C>(f: Format<C>, a: seq<string>, b: seq<string>, limit: nat)
    requires limit >= 1
    ensures RecoverFrom(f, (a + [BLANK]) + b, limit) == RecoverFrom(f, a + b, limit)
    decreases |b|
  {
    if b == [] {
      RecoverBlank(f, a, limit);
      assert (a + [BLANK]) + b == a + [BLANK];
      assert a + b == a;
    } else {
      RecoverPastBlank(f, a, b[..|b| - 1], limit);
      RecoverNext(f, a + [BLANK], b, limit);
      RecoverNext(f, a, b, limit);
    }
  }

  lemma LinesConcat<C>(f: Format<C>, a: seq<Link<C>>, b: seq<Link<C>>)
    ensures Lines(f, a + b) == Lines(f, a) + Lines(f, b)
  {
  }

  /** A blank line among the records: reopening passes over it and recovers the
      same tail, while Verify rejects the file at that very line. */
  lemma BlankLines<C(!new)>(f: Format<C>, a: seq<Link<C>>, b: seq<Link<C>>, limit: nat)
    requires Sound(f) && limit >= 1
    ensures var segments := Segments(Frame(f, a) + BLANK + Frame(f, b));
            && RecoverFrom(f, segments, limit) == RecoverFrom(f, Segments(Frame(f, a + b)), limit)
            && !GoodChain(f, segments)
            && (Intact(f.hash, a) ==> FirstBreak(f, segments, |a| + 1))
  {
    var segments := Segments(Frame(f, a) + BLANK + Frame(f, b));
    BlankSegments(f, a, b);
    RecoverPastBlank(f, Lines(f, a), Lines(f, b), limit);
    FramingRoundTrip(f, a + b);
    LinesConcat(f, a, b);
    BlankBreaks(f, a, segments);
  }

  lemma BlankBreaks<C(!new)>(f: Format<C>, a: seq<Link<C>>, segments: seq<string>)
    requires Sound(f) && |segments| > |a| && segments[..|a| + 1] == Lines(f, a) + [BLANK]
    ensures !GoodChain(f, segments)
    ensures Intact(f.hash, a) ==> FirstBreak(f, segments, |a| + 1)
  {
    GoodChainStep(f, Lines(f, a), BLANK);
    NotGood(f, segments, |a| + 1);
    assert segments[..|a|] == Lines(f, a);
    FramingRoundTrip(f, a);
    WholeVerdict(f, a);
  }

  // ---------- the store ----------

  /** Where an append fails. A failed write may leave a part of the line. */
  datatype Fault = NoFault | MarshalFails | OpenFails | WriteFails(written: nat) | SyncFails

  datatype Disk = Disk(file: string, lastHash: string)

  function AppendTo<C>(f: Format<C>, d: Disk, body: C, fault: Fault): Disk {
    var link := LinkFor(f.hash, body, d.lastHash);
    var line := LineFor(f, link);
    match fault
    case NoFault => Disk(d.file + line, link.hash)
    case SyncFails => d.(file := d.file + line)
    case WriteFails(n) => d.(file := d.file + line[..if n < |line| then n else |line|])
    case _ => d
  }

  function ReopenAt<C>(f: Format<C>, d: Disk, limit: nat): Disk {
    match RecoverFrom(f, Segments(d.file), limit)
    case Some(tail) => d.(lastHash := tail)
    case None => d
  }

  class FileStore<C> {
    const f: Format<C>
    var file: string
    var lastHash: string

    /** An opened store over an existing file; see Open for the refusal. */
    constructor (f: Format<C>, file: string, lastHash: string)
      ensures this.f == f && this.file == file && this.lastHash == lastHash
    {
      this.f, this.file, this.lastHash := f, file, lastHash;
    }

    /** NewFileStore: continue the chain found in the file, or refuse. */
    static method Open(f: Format<C>, file: string) returns (store: FileStore?<C>)
      ensures store == null <==> RecoverFrom(f, Segments(file), SCAN_LIMIT).None?
      ensures store != null ==>
                && fresh(store) && store.f == f && store.file == file
                && RecoverFrom(f, Segments(file), SCAN_LIMIT) == Some(store.lastHash)
    {
      var tail := RecoverTail(f, file, SCAN_LIMIT);
      if tail.None? {
        return null;
      }
      store := new FileStore(f, file, tail.value);
    }

    /** Append: chain to lastHash, write, fsync; lastHash moves only at the end. */
    method Append(body: C, fault: Fault) returns (ok: bool)
      modifies this
      ensures ok <==> fault == NoFault
      ensures Disk(file, lastHash) == AppendTo(f, old(Disk(file, lastHash)), body, fault)
    {
      if fault == MarshalFails {
        return false;
      }
      var hash := f.hash(body, lastHash);
      var line := f.encode(Link(body, lastHash, hash)) + "\n";
      if fault == OpenFails {
        return false;
      }
      if fault.WriteFails? {
        file := file + line[..if fault.written < |line| then fault.written else |line|];
        return false;
      }
      file := file + line;
      if fault == SyncFails {
        return false;
      }
      lastHash := hash;
      return true;
    }

    method Verify() returns (v: Verdict)
      ensures v == Sealed <==> GoodChain(f, Segments(file))
      ensures v.BrokenAt? ==> FirstBreak(f, Segments(file), v.line)
    {
      v := VerifyFile(f, file);
    }
  }

  // ---------- runs ----------

  datatype Op<C> = Append(body: C, fault: Fault) | Check | Verify | Reopen

  function Perform<C>(f: Format<C>, d: Disk, op: Op<C>, limit: nat): Disk {
    match op
    case Append(body, fault) => AppendTo(f, d, body, fault)
    case Reopen => ReopenAt(f, d, limit)
    case _ => d
  }

  function Run<C>(f: Format<C>, ops: seq<Op<C>>, limit: nat): Disk {
    if ops == [] then Disk("", "") else Perform(f, Run(f, ops[..|ops| - 1], limit), ops[|ops| - 1], limit)
  }

  /** The whole line reached the file, whether or not the append succeeded. */
  predicate Writes<C>(op: Op<C>) {
    op.Append? && (op.fault == NoFault || op.fault == SyncFails)
  }

  /** A failed write that left part of a line behind. */
  predicate Tears<C>(op: Op<C>) {
    op.Append? && op.fault.WriteFails? && op.fault.written > 0
  }

  /** The records a run without torn writes puts into the file. */
  function Written<C>(f: Format<C>, ops: seq<Op<C>>, limit: nat): seq<Link<C>> {
    if ops == [] then []
    else
      var front, last := ops[..|ops| - 1], ops[|ops| - 1];
      Written(f, front, limit) +
      if Writes(last) then [LinkFor(f.hash, last.body, Run(f, front, limit).lastHash)] else []
  }

  /** The last write was not confirmed by fsync and the store not reopened since. */
  predicate Stale<C>(ops: seq<Op<C>>) {
    if ops == [] then false
    else
      var last := ops[|ops| - 1];
      if last.Reopen? then false
      else if Writes(last) then last.fault == SyncFails
      else Stale(ops[..|ops| - 1])
  }

  predicate WritesWhileStale<C>(ops: seq<Op<C>>) {
    exists i :: 0 <= i < |ops| && Writes(ops[i]) && Stale(ops[..i])
  }

  lemma WritesWhileStaleStep<C>(ops: seq<Op<C>>)
    requires ops != []
    ensures WritesWhileStale(ops) <==>
            WritesWhileStale(ops[..|ops| - 1]) || (Writes(ops[|ops| - 1]) && Stale(ops[..|ops| - 1]))
  {
    var front := ops[..|ops| - 1];
    if WritesWhileStale(front) {
      var i :| 0 <= i < |front| && Writes(front[i]) && Stale(front[..i]);
      assert ops[i] == front[i] && ops[..i] == front[..i];
    }
    if WritesWhileStale(ops) {
      var i :| 0 <= i < |ops| && Writes(ops[i]) && Stale(ops[..i]);
      if i < |front| {
        assert ops[i] == front[i] && ops[..i] == front[..i];
      }
    }
  }

  lemma {:induction false} FileHoldsWritten<C(!new)>(f: Format<C>, ops: seq<Op<C>>, limit: nat)
    requires forall op | op in ops :: !Tears(op)
    ensures Run(f, ops, limit).file == Frame(f, Written(f, ops, limit))
  {
    if ops != [] {
      var front, last := ops[..|ops| - 1], ops[|ops| - 1];
      FileHoldsWritten(f, front, limit);
      assert last in ops;
      if Writes(last) {
        var log := Written(f, ops, limit);
        assert log[..|log| - 1] == Written(f, front, limit);
      } else {
        assert Written(f, ops, limit) == Written(f, front, limit);
      }
      if last.Append? && last.fault.WriteFails? {
        var d := Run(f, front, limit);
        var line := LineFor(f, LinkFor(f.hash, last.body, d.lastHash));
        assert line[..0] == "" && d.file + line[..0] == d.file;
      }
    }
  }

  /** Where lastHash stands relative to the written records. */
  predicate TailAgrees<C>(log: seq<Link<C>>, lastHash: string, stale: bool) {
    if stale then log != [] && lastHash == Tail(log[..|log| - 1]) else lastHash == Tail(log)
  }

  lemma TailMoves<C(!new)>(hash: (C, string) -> string, log: seq<Link<C>>)
    requires Ideal(hash) && Intact(hash, log) && log != []
    ensures Tail(log[..|log| - 1]) != Tail(log)
  {
    var n := |log| - 1;
    assert ContinuesAt(hash, log, n);
    if n > 0 && log[n - 1].hash == log[n].hash {
      SharedHashSharedHistory(hash, log, log, n - 1, n);
    }
  }

  /** What a run without torn writes keeps about the written records. */
  ghost predicate Tracks<C>(hash: (C, string) -> string, log: seq<Link<C>>, lastHash: string, stale: bool,
                            broken: bool) {
    (Intact(hash, log) <==> !broken) && (!broken ==> TailAgrees(log, lastHash, stale))
  }

  lemma WriteKeeps<C(!new)>(hash: (C, string) -> string, log: seq<Link<C>>, body: C, d: Disk, stale: bool,
                            broken: bool, synced: bool)
    requires Ideal(hash) && Tracks(hash, log, d.lastHash, stale, broken)
    ensures var link := LinkFor(hash, body, d.lastHash);
            Tracks(hash, log + [link], if synced then link.hash else d.lastHash, !synced, broken || stale)
  {
    var link := LinkFor(hash, body, d.lastHash);
    IntactAppend(hash, log, link);
    assert (log + [link])[..|log|] == log;
    if !broken && stale {
      TailMoves(hash, log);
    }
  }

  lemma FrontScannable<C>(f: Format<C>, ops: seq<Op<C>>, limit: nat)
    requires ops != [] && AllScannable(f, Written(f, ops, limit), limit)
    ensures AllScannable(f, Written(f, ops[..|ops| - 1], limit), limit)
  {
    var log := Written(f, ops[..|ops| - 1], limit);
    assert forall link | link in log :: link in Written(f, ops, limit);
  }

  lemma ReopenKeeps<C(!new)>(f: Format<C>, ops: seq<Op<C>>, limit: nat)
    requires Sound(f) && forall op | op in ops :: !Tears(op)
    requires AllScannable(f, Written(f, ops, limit), limit)
    ensures ReopenAt(f, Run(f, ops, limit), limit).lastHash == Tail(Written(f, ops, limit))
  {
    FileHoldsWritten(f, ops, limit);
    ReopenRecoversTail(f, Written(f, ops, limit), limit);
  }

  lemma {:induction false} RunInvariant<C(!new)>(f: Format<C>, ops: seq<Op<C>>, limit: nat)
    requires Sound(f) && forall op | op in ops :: !Tears(op)
    requires AllScannable(f, Written(f, ops, limit), limit)
    ensures Tracks(f.hash, Written(f, ops, limit), Run(f, ops, limit).lastHash, Stale(ops), WritesWhileStale(ops))
  {
    if ops != [] {
      var front, last := ops[..|ops| - 1], ops[|ops| - 1];
      var log, d := Written(f, front, limit), Run(f, front, limit);
      FrontScannable(f, ops, limit);
      RunInvariant(f, front, limit);
      WritesWhileStaleStep(ops);
      if Writes(last) {
        WriteKeeps(f.hash, log, last.body, d, Stale(front), WritesWhileStale(front), last.fault == NoFault);
      } else {
        assert Written(f, ops, limit) == log;
        if last.Reopen? {
          ReopenKeeps(f, front, limit);
        }
      }
    }
  }

  // The statements from here to the end of this section are about runs without
  // torn writes whose lines fit the scanner's buffer. They need nothing of the
  // encoding beyond Sound; TornWrites states the same for all runs, of encodings
  // that are also Separable.

  /** Verify accepts the file if and only if no record was written between a
      failed fsync and the next reopen. */
  lemma VerifyAcceptsUntorn<C(!new)>(f: Format<C>, ops: seq<Op<C>>, limit: nat)
    requires Sound(f) && forall op | op in ops :: !Tears(op)
    requires AllScannable(f, Written(f, ops, limit), limit)
    ensures GoodChain(f, Segments(Run(f, ops, limit).file)) <==> !WritesWhileStale(ops)
  {
    RunInvariant(f, ops, limit);
    FileHoldsWritten(f, ops, limit);
    WholeVerdict(f, Written(f, ops, limit));
  }

  function SucceededBodies<C>(ops: seq<Op<C>>): seq<C> {
    if ops == [] then []
    else
      var last := ops[|ops| - 1];
      SucceededBodies(ops[..|ops| - 1]) + if last.Append? && last.fault == NoFault then [last.body] else []
  }

  function Bodies<C>(log: seq<Link<C>>): seq<C> {
    seq(|log|, i requires 0 <= i < |log| => log[i].body)
  }

  /** A failed append that leaves the file as it was. */
  predicate Untouching<C>(op: Op<C>) {
    op.Append? && op.fault != NoFault ==> !Writes(op) && !Tears(op)
  }

  lemma {:induction false} SuccessesAreWritten<C>(f: Format<C>, ops: seq<Op<C>>, limit: nat)
    requires forall op | op in ops :: Untouching(op)
    ensures Bodies(Written(f, ops, limit)) == SucceededBodies(ops)
  {
    if ops != [] {
      assert ops[|ops| - 1] in ops;
      SuccessesAreWritten(f, ops[..|ops| - 1], limit);
    }
  }

  lemma {:induction false} TailIsKept<C(!new)>(f: Format<C>, ops: seq<Op<C>>, limit: nat)
    requires Sound(f) && forall op | op in ops :: Untouching(op)
    ensures Intact(f.hash, Written(f, ops, limit))
    ensures Run(f, ops, limit).lastHash == Tail(Written(f, ops, limit))
  {
    if ops != [] {
      var front, last := ops[..|ops| - 1], ops[|ops| - 1];
      var log := Written(f, front, limit);
      assert last in ops;
      TailIsKept(f, front, limit);
      if Writes(last) {
        IntactAppend(f.hash, log, LinkFor(f.hash, last.body, Tail(log)));
      } else {
        assert Written(f, ops, limit) == log;
        if last.Reopen? {
          FileHoldsWritten(f, front, limit);
          ReopenRecoversTail(f, log, limit);
        }
      }
    }
  }

  /** Chain preservation: when a failed append leaves the file untouched, every
      run of append, check, verify and reopen, refused reopens included, ends in
      a file that holds exactly the successfully appended records, in order, as
      an intact chain, with lastHash at its tail. */
  lemma ChainIsPreserved<C(!new)>(f: Format<C>, ops: seq<Op<C>>, limit: nat)
    requires Sound(f) && forall op | op in ops :: Untouching(op)
    ensures var d, log := Run(f, ops, limit), Written(f, ops, limit);
            && Segments(d.file) == Lines(f, log)
            && Intact(f.hash, log)
            && Bodies(log) == SucceededBodies(ops)
            && d.lastHash == Tail(log)
            && GoodChain(f, Segments(d.file))
  {
    var log := Written(f, ops, limit);
    SuccessesAreWritten(f, ops, limit);
    TailIsKept(f, ops, limit);
    FileHoldsWritten(f, ops, limit);
    FramingRoundTrip(f, log);
    WholeVerdict(f, log);
  }

  /** After a write whose fsync failed, the file still verifies; reopening
      before the next append puts lastHash back at the tail. */
  lemma ReopenHeals<C(!new)>(f: Format<C>, ops: seq<Op<C>>, limit: nat)
    requires Sound(f) && forall op | op in ops :: !Tears(op)
    requires AllScannable(f, Written(f, ops, limit), limit)
    requires !WritesWhileStale(ops) && Stale(ops)
    ensures GoodChain(f, Segments(Run(f, ops, limit).file))
    ensures Run(f, ops, limit).lastHash != Tail(Written(f, ops, limit))
    ensures Run(f, ops + [Reopen], limit).lastHash == Tail(Written(f, ops, limit))
  {
    VerifyAcceptsUntorn(f, ops, limit);
    RunInvariant(f, ops, limit);
    TailMoves(f.hash, Written(f, ops, limit));
    assert (ops + [Reopen])[..|ops|] == ops;
    FileHoldsWritten(f, ops, limit);
    ReopenRecoversTail(f, Written(f, ops, limit), limit);
  }

  lemma {:induction false} WrittenGrows<C>(f: Format<C>, ops: seq<Op<C>>, n: nat, limit: nat)
    requires n <= |ops|
    ensures Written(f, ops[..n], limit) <= Written(f, ops, limit)
    decreases |ops|
  {
    if n == |ops| {
      assert ops[..n] == ops;
    } else {
      var front := ops[..|ops| - 1];
      WrittenGrows(f, front, n, limit);
      assert front[..n] == ops[..n];
    }
  }

  /** The first write made while stale is the line Verify reports, whatever
      the run does afterwards. */
  lemma StaleWriteIsReported<C(!new)>(f: Format<C>, ops: seq<Op<C>>, i: nat, limit: nat)
    requires Sound(f) && forall op | op in ops :: !Tears(op)
    requires AllScannable(f, Written(f, ops, limit), limit)
    requires i < |ops| && Writes(ops[i]) && Stale(ops[..i]) && !WritesWhileStale(ops[..i])
    ensures FirstBreak(f, Segments(Run(f, ops, limit).file), |Written(f, ops[..i], limit)| + 1)
  {
    StaleWriteBreaks(f, ops, i, limit);
    var log := Written(f, ops, limit);
    var k := |Written(f, ops[..i], limit)| + 1;
    FileHoldsWritten(f, ops, limit);
    FrameVerdict(f, log, k - 1);
    FrameVerdict(f, log, k);
  }

  lemma StaleWriteBreaks<C(!new)>(f: Format<C>, ops: seq<Op<C>>, i: nat, limit: nat)
    requires Sound(f) && forall op | op in ops :: !Tears(op)
    requires AllScannable(f, Written(f, ops, limit), limit)
    requires i < |ops| && Writes(ops[i]) && Stale(ops[..i]) && !WritesWhileStale(ops[..i])
    ensures var log, k := Written(f, ops, limit), |Written(f, ops[..i], limit)| + 1;
            k <= |log| && Intact(f.hash, log[..k - 1]) && !Intact(f.hash, log[..k])
  {
    var upto := ops[..i + 1];
    assert upto[..i] == ops[..i];
    WritesWhileStaleStep(upto);
    PrefixIntact(f, ops, i, limit);
    PrefixIntact(f, ops, i + 1, limit);
  }

  lemma PrefixIntact<C(!new)>(f: Format<C>, ops: seq<Op<C>>, n: nat, limit: nat)
    requires Sound(f) && forall op | op in ops :: !Tears(op)
    requires AllScannable(f, Written(f, ops, limit), limit) && n <= |ops|
    ensures var log, k := Written(f, ops, limit), |Written(f, ops[..n], limit)|;
            k <= |log| && (Intact(f.hash, log[..k]) <==> !WritesWhileStale(ops[..n]))
  {
    var log, part := Written(f, ops, limit), Written(f, ops[..n], limit);
    WrittenGrows(f, ops, n, limit);
    assert log[..|part|] == part;
    PrefixScannable(f, log, |part|, limit);
    RunInvariant(f, ops[..n], limit);
  }

  lemma PrefixScannable<C>(f: Format<C>, log: seq<Link<C>>, n: nat, limit: nat)
    requires AllScannable(f, log, limit) && n <= |log|
    ensures AllScannable(f, log[..n], limit)
  {
  }
}
