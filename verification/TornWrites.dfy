/** The ledger file when a failed write leaves part of a line behind
    (pkg/audit/file_store.go): every run of append, check, verify and reopen,
    with every failure, and nothing assumed of line lengths. */
module TornWrites {
  import opened Types
  import opened HashChain
  import opened FileLedger

  // ---------- pieces of lines ----------

  function Concat(pieces: seq<string>): string {
    if pieces == [] then "" else Concat(pieces[..|pieces| - 1]) + pieces[|pieces| - 1]
  }

  /** A beginning of an encoded record, up to the whole of it. */
  ghost predicate Piece<C(!new)>(f: Format<C>, p: string) {
    p != "" && exists link :: p <= f.encode(link)
  }

  /** A beginning that stops short of the whole record. */
  ghost predicate Fragment<C(!new)>(f: Format<C>, p: string) {
    p != "" && exists link :: p <= f.encode(link) && |p| < |f.encode(link)|
  }

  /** Several pieces run together on one line, or one that stops short. */
  ghost predicate Smeared<C(!new)>(f: Format<C>, pieces: seq<string>) {
    && (forall p | p in pieces :: Piece(f, p))
    && (|pieces| >= 2 || (|pieces| == 1 && Fragment(f, pieces[0])))
  }

  /** No such line parses: a JSON object cut short stays open, whatever other
      objects or their beginnings follow it (sections 2 and 4 of RFC 8259). */
  ghost predicate Separable<C(!new)>(f: Format<C>) {
    forall pieces: seq<string> | Smeared(f, pieces) :: Unreadable(f, Concat(pieces))
  }

  predicate Unreadable<C>(f: Format<C>, line: string) {
    f.decode(line).None? && f.decode(line + "\n").None?
  }

  // ---------- the layout of the file ----------

  /** How many bytes of a line of length `n` reach the file. */
  function Reach(fault: Fault, n: nat): (r: nat)
    ensures r <= n
  {
    match fault
    case NoFault => n
    case SyncFails => n
    case WriteFails(k) => if k < n then k else n
    case _ => 0
  }

  /** The terminated lines of the file, and the pieces after its last newline. */
  datatype Layout = Layout(lines: seq<string>, pieces: seq<string>)

  function Wrote(y: Layout, line: string, reach: nat): Layout
    requires reach <= |line|
  {
    if reach == 0 then y
    else if reach == |line| then Layout(y.lines + [Concat(y.pieces) + line], [])
    else Layout(y.lines, y.pieces + [line[..reach]])
  }

  function FileOf(y: Layout): string {
    Concat(y.lines) + Concat(y.pieces)
  }

  /** The lines a reader of the file sees. */
  function LinesOf(y: Layout): seq<string> {
    y.lines + if y.pieces == [] then [] else [Concat(y.pieces)]
  }

  predicate IsLine(s: string) {
    s != "" && s[|s| - 1] == '\n' && '\n' !in s[..|s| - 1]
  }

  ghost predicate WellLaid<C(!new)>(f: Format<C>, y: Layout) {
    (forall s | s in y.lines :: IsLine(s)) && (forall p | p in y.pieces :: Piece(f, p))
  }

  /** The record an append tries to write. */
  function LinkAt<C>(f: Format<C>, ops: seq<Op<C>>, n: nat, limit: nat): Link<C>
    requires n < |ops| && ops[n].Append?
  {
    LinkFor(f.hash, ops[n].body, Run(f, ops[..n], limit).lastHash)
  }

  /** How much of its line the append at `n` leaves in the file. */
  function ReachAt<C>(f: Format<C>, ops: seq<Op<C>>, n: nat, limit: nat): (r: nat)
    requires n < |ops| && ops[n].Append?
    ensures r <= |LineFor(f, LinkAt(f, ops, n, limit))|
  {
    Reach(ops[n].fault, |LineFor(f, LinkAt(f, ops, n, limit))|)
  }

  function LayoutOf<C>(f: Format<C>, ops: seq<Op<C>>, limit: nat): Layout {
    if ops == [] then Layout([], [])
    else
      var n := |ops| - 1;
      var y := LayoutOf(f, ops[..n], limit);
      if !ops[n].Append? then y
      else Wrote(y, LineFor(f, LinkAt(f, ops, n, limit)), ReachAt(f, ops, n, limit))
  }

  lemma ConcatMore(pieces: seq<string>, p: string)
    ensures Concat(pieces + [p]) == Concat(pieces) + p
  {
    assert (pieces + [p])[..|pieces|] == pieces;
  }

  lemma PieceOf<C(!new)>(f: Format<C>, link: Link<C>, n: nat)
    requires Sound(f) && 0 < n <= |f.encode(link)|
    ensures var p := LineFor(f, link)[..n];
            p == f.encode(link)[..n] && Piece(f, p) && (n < |f.encode(link)| ==> Fragment(f, p))
  {
    var p := LineFor(f, link)[..n];
    assert p == f.encode(link)[..n];
    assert p <= f.encode(link);
  }

  lemma WholePiece<C(!new)>(f: Format<C>, link: Link<C>)
    requires Sound(f)
    ensures Piece(f, f.encode(link))
  {
    assert f.encode(link) <= f.encode(link);
  }

  lemma {:induction false} PiecesHaveNoNewline<C(!new)>(f: Format<C>, pieces: seq<string>)
    requires Sound(f) && forall p | p in pieces :: Piece(f, p)
    ensures '\n' !in Concat(pieces)
    ensures Concat(pieces) == "" <==> pieces == []
  {
    if pieces != [] {
      var front, p := pieces[..|pieces| - 1], pieces[|pieces| - 1];
      PiecesHaveNoNewline(f, front);
      assert Piece(f, p);
      var link :| p <= f.encode(link);
      assert '\n' !in f.encode(link);
      assert forall i | 0 <= i < |p| :: p[i] == f.encode(link)[i];
    }
  }

  /** A line written behind left-over pieces: all of them run together. */
  lemma EndedLine<C(!new)>(f: Format<C>, y: Layout, link: Link<C>)
    requires Sound(f) && WellLaid(f, y)
    ensures var more := y.pieces + [f.encode(link)];
            && (forall p | p in more :: Piece(f, p))
            && Concat(y.pieces) + LineFor(f, link) == Concat(more) + "\n"
            && IsLine(Concat(more) + "\n")
  {
    var more := y.pieces + [f.encode(link)];
    WholePiece(f, link);
    ConcatMore(y.pieces, f.encode(link));
    PiecesHaveNoNewline(f, more);
    assert (Concat(more) + "\n")[..|Concat(more)|] == Concat(more);
  }

  lemma WroteIsAppended<C(!new)>(f: Format<C>, y: Layout, link: Link<C>, reach: nat)
    requires Sound(f) && WellLaid(f, y) && reach <= |LineFor(f, link)|
    ensures WellLaid(f, Wrote(y, LineFor(f, link), reach))
    ensures FileOf(Wrote(y, LineFor(f, link), reach)) == FileOf(y) + LineFor(f, link)[..reach]
  {
    var line := LineFor(f, link);
    if reach == 0 {
      assert line[..0] == "";
    } else if reach < |line| {
      PieceOf(f, link, reach);
      ConcatMore(y.pieces, line[..reach]);
    } else {
      EndedLine(f, y, link);
      ConcatMore(y.lines, Concat(y.pieces) + line);
      assert line[..reach] == line;
    }
  }

  lemma AppendReaches<C>(f: Format<C>, d: Disk, body: C, fault: Fault)
    ensures var line := LineFor(f, LinkFor(f.hash, body, d.lastHash));
            AppendTo(f, d, body, fault).file == d.file + line[..Reach(fault, |line|)]
  {
    var line := LineFor(f, LinkFor(f.hash, body, d.lastHash));
    assert line[..|line|] == line && line[..0] == "";
    assert d.file + "" == d.file;
  }

  lemma {:induction false} LayoutIsFile<C(!new)>(f: Format<C>, ops: seq<Op<C>>, limit: nat)
    requires Sound(f)
    ensures WellLaid(f, LayoutOf(f, ops, limit))
    ensures Run(f, ops, limit).file == FileOf(LayoutOf(f, ops, limit))
  {
    if ops != [] {
      var n := |ops| - 1;
      LayoutIsFile(f, ops[..n], limit);
      if ops[n].Append? {
        WroteIsAppended(f, LayoutOf(f, ops[..n], limit), LinkAt(f, ops, n, limit), ReachAt(f, ops, n, limit));
        AppendReaches(f, Run(f, ops[..n], limit), ops[n].body, ops[n].fault);
      }
    }
  }

  // ---------- the layout is what readers see ----------

  lemma OneLine(s: string)
    requires IsLine(s)
    ensures Segments(s) == [s]
  {
    NextLineIs(s, |s| - 1);
    assert s[..|s|] == s && s[|s|..] == "";
    assert Segments(s) == [s] + Segments("");
  }

  lemma OpenLine(s: string)
    requires s != "" && '\n' !in s
    ensures Segments(s) == [s]
  {
    var i := FirstNewline(s);
    assert NextLine(s) == s && s[|s|..] == "";
    assert Segments(s) == [s] + Segments("");
  }

  lemma SettledMore(head: string, lines: seq<string>, s: string)
    requires Terminated(head) && Segments(head) == lines && IsLine(s)
    ensures Terminated(head + s) && Segments(head + s) == lines + [s]
  {
    SegmentsOfTerminated(head, s);
    OneLine(s);
  }

  lemma {:induction false} SettledSegments(lines: seq<string>)
    requires forall s | s in lines :: IsLine(s)
    ensures Terminated(Concat(lines)) && Segments(Concat(lines)) == lines
  {
    if lines != [] {
      var front := lines[..|lines| - 1];
      SettledSegments(front);
      SettledMore(Concat(front), front, lines[|lines| - 1]);
      assert lines == front + [lines[|lines| - 1]];
    }
  }

  lemma SegmentsAreLines<C(!new)>(f: Format<C>, y: Layout)
    requires Sound(f) && WellLaid(f, y)
    ensures Segments(FileOf(y)) == LinesOf(y)
    ensures Terminated(FileOf(y)) <==> y.pieces == []
  {
    var head, tail := Concat(y.lines), Concat(y.pieces);
    SettledSegments(y.lines);
    PiecesHaveNoNewline(f, y.pieces);
    if y.pieces == [] {
      assert FileOf(y) == head;
    } else {
      SegmentsOfTerminated(head, tail);
      OpenLine(tail);
      assert FileOf(y)[|FileOf(y)| - 1] == tail[|tail| - 1];
      assert tail[|tail| - 1] in tail;
    }
  }

  /** In every run, what a reader of the file sees is the layout. */
  lemma RunLayout<C(!new)>(f: Format<C>, ops: seq<Op<C>>, limit: nat)
    requires Sound(f)
    ensures var file, y := Run(f, ops, limit).file, LayoutOf(f, ops, limit);
            && WellLaid(f, y) && Segments(file) == LinesOf(y)
            && (Terminated(file) <==> y.pieces == [])
  {
    LayoutIsFile(f, ops, limit);
    SegmentsAreLines(f, LayoutOf(f, ops, limit));
  }

  // ---------- one write ----------

  predicate Good<C>(f: Format<C>, y: Layout) {
    GoodChain(f, LinesOf(y))
  }

  lemma UnreadableLine<C>(f: Format<C>, lines: seq<string>, s: string)
    requires f.decode(s).None?
    ensures !GoodChain(f, lines + [s])
  {
    GoodChainStep(f, lines, s);
  }

  /** Anything written behind left-over pieces makes the line unreadable. */
  lemma WriteOnPieces<C(!new)>(f: Format<C>, y: Layout, link: Link<C>, reach: nat)
    requires Sound(f) && Separable(f) && WellLaid(f, y) && y.pieces != [] && 0 < reach <= |LineFor(f, link)|
    ensures !Good(f, Wrote(y, LineFor(f, link), reach))
  {
    var line := LineFor(f, link);
    if reach == |line| {
      var more := y.pieces + [f.encode(link)];
      EndedLine(f, y, link);
      assert Smeared(f, more);
      assert Unreadable(f, Concat(more));
      UnreadableLine(f, y.lines, Concat(more) + "\n");
      assert LinesOf(Wrote(y, line, reach)) == y.lines + [Concat(more) + "\n"];
    } else {
      var more := y.pieces + [line[..reach]];
      PieceOf(f, link, reach);
      assert Smeared(f, more);
      assert Unreadable(f, Concat(more));
      UnreadableLine(f, y.lines, Concat(more));
    }
  }

  lemma FragmentIsBad<C(!new)>(f: Format<C>, y: Layout, link: Link<C>, reach: nat)
    requires Sound(f) && Separable(f) && y.pieces == [] && 0 < reach < |f.encode(link)|
    ensures !Good(f, Wrote(y, LineFor(f, link), reach))
  {
    var p := LineFor(f, link)[..reach];
    PieceOf(f, link, reach);
    assert y.pieces + [p] == [p];
    assert Smeared(f, [p]);
    assert Unreadable(f, Concat([p]));
    UnreadableLine(f, y.lines, Concat([p]));
  }

  /** What a write of at least a whole record on a line of its own adds. */
  lemma WholeRecordAdds<C(!new)>(f: Format<C>, y: Layout, link: Link<C>, reach: nat) returns (s: string)
    requires Sound(f) && y.pieces == [] && |f.encode(link)| <= reach <= |LineFor(f, link)|
    ensures LinesOf(Wrote(y, LineFor(f, link), reach)) == LinesOf(y) + [s]
    ensures f.decode(s) == Some(link) && (s == f.encode(link) || s == LineFor(f, link))
  {
    var line, e := LineFor(f, link), f.encode(link);
    assert f.decode(e) == Some(link) && f.decode(e + "\n") == Some(link);
    if reach == |line| {
      s := line;
      assert Concat(y.pieces) + line == line;
      assert LinesOf(Wrote(y, line, reach)) == y.lines + [line];
    } else {
      s := e;
      assert line[..reach] == e && y.pieces + [e] == [e];
      ConcatMore([], e);
      assert [] + [e] == [e] && Concat([e]) == e;
    }
    assert LinesOf(y) == y.lines;
  }

  /** One write keeps the file acceptable if and only if it leaves at least a
      whole record, on a line of its own, that names the hash before it. */
  lemma WriteVerdict<C(!new)>(f: Format<C>, y: Layout, link: Link<C>, reach: nat)
    requires Sound(f) && Separable(f) && WellLaid(f, y) && 0 < reach <= |LineFor(f, link)|
    requires link.hash == f.hash(link.body, link.prevHash)
    ensures Good(f, Wrote(y, LineFor(f, link), reach)) <==>
            && Good(f, y) && y.pieces == [] && reach >= |f.encode(link)|
            && link.prevHash == Tail(Decoded(f, LinesOf(y)))
  {
    if y.pieces != [] {
      WriteOnPieces(f, y, link, reach);
    } else if reach < |f.encode(link)| {
      FragmentIsBad(f, y, link, reach);
    } else {
      var s := WholeRecordAdds(f, y, link, reach);
      GoodChainStep(f, LinesOf(y), s);
    }
  }

  // ---------- the exact condition ----------

  /** A whole record reached the file and the store did not learn of it, neither
      from the append nor by being reopened since. */
  predicate Behind<C>(f: Format<C>, ops: seq<Op<C>>, limit: nat) {
    if ops == [] then false
    else
      var n := |ops| - 1;
      match ops[n]
      case Append(_, fault) =>
        if ReachAt(f, ops, n, limit) >= |f.encode(LinkAt(f, ops, n, limit))| then fault != NoFault
        else Behind(f, ops[..n], limit)
      case Reopen => Behind(f, ops[..n], limit) && RecoverFrom(f, Segments(Run(f, ops[..n], limit).file), limit).None?
      case _ => Behind(f, ops[..n], limit)
  }

  /** Every append that wrote anything wrote at least a whole record, at the
      start of a line, and while the store was not behind. */
  predicate Clean<C>(f: Format<C>, ops: seq<Op<C>>, limit: nat) {
    ops != [] ==>
      var n := |ops| - 1;
      Clean(f, ops[..n], limit) && CleanAt(f, ops, n, limit)
  }

  predicate CleanAt<C>(f: Format<C>, ops: seq<Op<C>>, n: nat, limit: nat)
    requires n < |ops|
  {
    ops[n].Append? && ReachAt(f, ops, n, limit) > 0 ==>
      && ReachAt(f, ops, n, limit) >= |f.encode(LinkAt(f, ops, n, limit))|
      && Terminated(Run(f, ops[..n], limit).file)
      && !Behind(f, ops[..n], limit)
  }

  /** Each line is a record as it was encoded, the last perhaps without newline. */
  ghost predicate Framed<C>(f: Format<C>, lines: seq<string>) {
    && Readable(f, lines)
    && forall s | s in lines :: s == f.encode(f.decode(s).value) || s == LineFor(f, f.decode(s).value)
  }

  lemma FramedMore<C(!new)>(f: Format<C>, lines: seq<string>, link: Link<C>, s: string)
    requires Framed(f, lines) && f.decode(s) == Some(link) && (s == f.encode(link) || s == LineFor(f, link))
    ensures Framed(f, lines + [s]) && Tail(Decoded(f, lines + [s])) == link.hash
    ensures Decoded(f, lines + [s]) == Decoded(f, lines) + [link]
  {
    forall x | x in lines + [s] ensures x in lines || x == s {}
    assert Readable(f, lines + [s]);
  }

  lemma ChompFramed<C(!new)>(f: Format<C>, link: Link<C>)
    requires Sound(f)
    ensures Chomp(f.encode(link)) == f.encode(link) == Chomp(LineFor(f, link))
  {
    ChompLine(f, link);
    var e := f.encode(link);
    assert e[|e| - 1] in e;
  }

  /** Tail recovery, where it does not refuse, finds the last record's hash. */
  lemma {:induction false} RecoverFramed<C(!new)>(f: Format<C>, lines: seq<string>, limit: nat)
    requires Sound(f) && Framed(f, lines)
    ensures RecoverFrom(f, lines, limit).Some? ==> RecoverFrom(f, lines, limit) == Some(Tail(Decoded(f, lines)))
  {
    if lines != [] {
      var front, last := lines[..|lines| - 1], lines[|lines| - 1];
      assert forall x | x in front :: x in lines;
      assert last in lines;
      RecoverFramed(f, front, limit);
      ChompFramed(f, f.decode(last).value);
      assert f.decode(f.encode(f.decode(last).value)) == Some(f.decode(last).value);
    }
  }

  /** What holds after every run. */
  ghost predicate Accounted<C>(f: Format<C>, ops: seq<Op<C>>, limit: nat) {
    var lines := LinesOf(LayoutOf(f, ops, limit));
    && (GoodChain(f, lines) <==> Clean(f, ops, limit))
    && (Clean(f, ops, limit) ==>
          && Framed(f, lines)
          && (Run(f, ops, limit).lastHash == Tail(Decoded(f, lines)) <==> !Behind(f, ops, limit)))
  }

  lemma AppendIsAccounted<C(!new)>(f: Format<C>, ops: seq<Op<C>>, limit: nat)
    requires Sound(f) && Separable(f) && ops != [] && ops[|ops| - 1].Append?
    requires ReachAt(f, ops, |ops| - 1, limit) > 0 && Accounted(f, ops[..|ops| - 1], limit)
    ensures Accounted(f, ops, limit)
  {
    var n := |ops| - 1;
    RunLayout(f, ops[..n], limit);
    WriteVerdict(f, LayoutOf(f, ops[..n], limit), LinkAt(f, ops, n, limit), ReachAt(f, ops, n, limit));
    if Clean(f, ops, limit) {
      CleanWrite(f, LayoutOf(f, ops[..n], limit), LinkAt(f, ops, n, limit), ReachAt(f, ops, n, limit));
    }
  }

  /** A clean write adds one line, and its hash is a new one. */
  lemma CleanWrite<C(!new)>(f: Format<C>, y: Layout, link: Link<C>, reach: nat)
    requires Sound(f) && y.pieces == [] && |f.encode(link)| <= reach <= |LineFor(f, link)|
    requires Framed(f, LinesOf(y)) && Good(f, y) && link == LinkFor(f.hash, link.body, Tail(Decoded(f, LinesOf(y))))
    ensures var lines := LinesOf(Wrote(y, LineFor(f, link), reach));
            && Framed(f, lines) && Tail(Decoded(f, lines)) == link.hash
            && link.hash != Tail(Decoded(f, LinesOf(y)))
  {
    var s := WholeRecordAdds(f, y, link, reach);
    FramedMore(f, LinesOf(y), link, s);
    var log := Decoded(f, LinesOf(y));
    IntactAppend(f.hash, log, link);
    TailMoves(f.hash, log + [link]);
    assert (log + [link])[..|log|] == log;
  }

  lemma ReopenIsAccounted<C(!new)>(f: Format<C>, ops: seq<Op<C>>, limit: nat)
    requires Sound(f) && ops != [] && ops[|ops| - 1].Reopen? && Accounted(f, ops[..|ops| - 1], limit)
    ensures Accounted(f, ops, limit)
  {
    var front := ops[..|ops| - 1];
    RunLayout(f, front, limit);
    if Clean(f, ops, limit) {
      RecoverFramed(f, LinesOf(LayoutOf(f, front, limit)), limit);
    }
  }

  lemma NothingWritten<C(!new)>(f: Format<C>, ops: seq<Op<C>>, limit: nat)
    requires Sound(f) && ops != [] && ops[|ops| - 1].Append? && ReachAt(f, ops, |ops| - 1, limit) == 0
    ensures var front := ops[..|ops| - 1];
            && Run(f, ops, limit).lastHash == Run(f, front, limit).lastHash
            && (Clean(f, ops, limit) <==> Clean(f, front, limit))
            && (Behind(f, ops, limit) <==> Behind(f, front, limit))
  {
  }

  lemma {:induction false} RunIsAccounted<C(!new)>(f: Format<C>, ops: seq<Op<C>>, limit: nat)
    requires Sound(f) && Separable(f)
    ensures Accounted(f, ops, limit)
  {
    if ops != [] {
      var n := |ops| - 1;
      RunIsAccounted(f, ops[..n], limit);
      if ops[n].Reopen? {
        ReopenIsAccounted(f, ops, limit);
      } else if ops[n].Append? && ReachAt(f, ops, n, limit) > 0 {
        AppendIsAccounted(f, ops, limit);
      } else if ops[n].Append? {
        NothingWritten(f, ops, limit);
      }
    }
  }

  /** The exact condition for an intact ledger, over every run of append, check,
      verify and reopen with every failure, torn writes included: Verify accepts
      the file if and only if every append that wrote anything wrote at least a
      whole record, at the start of a line, and while the store was not behind. */
  lemma VerifyAcceptsExactly<C(!new)>(f: Format<C>, ops: seq<Op<C>>, limit: nat)
    requires Sound(f) && Separable(f)
    ensures GoodChain(f, Segments(Run(f, ops, limit).file)) <==> Clean(f, ops, limit)
  {
    RunIsAccounted(f, ops, limit);
    RunLayout(f, ops, limit);
  }

  /** While the store is behind, the file is still acceptable, lastHash is not
      its tail, and a reopen that is not refused puts it there. */
  lemma ReopenCatchesUp<C(!new)>(f: Format<C>, ops: seq<Op<C>>, limit: nat)
    requires Sound(f) && Separable(f) && Clean(f, ops, limit) && Behind(f, ops, limit)
    ensures var d := Run(f, ops, limit);
            && GoodChain(f, Segments(d.file)) && d.lastHash != Tail(Decoded(f, Segments(d.file)))
            && (RecoverFrom(f, Segments(d.file), limit).Some? ==>
                  Run(f, ops + [Reopen], limit).lastHash == Tail(Decoded(f, Segments(d.file))))
  {
    RunIsAccounted(f, ops, limit);
    RunLayout(f, ops, limit);
    RecoverFramed(f, LinesOf(LayoutOf(f, ops, limit)), limit);
    assert (ops + [Reopen])[..|ops|] == ops;
  }

  // ---------- the line Verify reports ----------

  /** Line `k` is broken for good: it is terminated, or it is the open line. */
  ghost predicate BrokenLine<C>(f: Format<C>, y: Layout, k: nat) {
    FirstBreak(f, LinesOf(y), k) && k - 1 <= |y.lines|
  }

  /** A write changes no terminated line. */
  lemma LinesStay<C>(f: Format<C>, y: Layout, link: Link<C>, reach: nat, k: nat)
    requires reach <= |LineFor(f, link)| && k <= |y.lines|
    ensures var z := Wrote(y, LineFor(f, link), reach);
            k <= |z.lines| && LinesOf(z)[..k] == LinesOf(y)[..k]
  {
  }

  lemma BrokenLineStays<C(!new)>(f: Format<C>, y: Layout, k: nat, link: Link<C>, reach: nat)
    requires Sound(f) && Separable(f) && WellLaid(f, y) && BrokenLine(f, y, k)
    requires reach <= |LineFor(f, link)| && link.hash == f.hash(link.body, link.prevHash)
    ensures BrokenLine(f, Wrote(y, LineFor(f, link), reach), k)
  {
    var z := Wrote(y, LineFor(f, link), reach);
    LinesStay(f, y, link, reach, k - 1);
    if k <= |y.lines| {
      LinesStay(f, y, link, reach, k);
    } else if reach > 0 {
      assert y.pieces != [] && LinesOf(y)[..k] == LinesOf(y);
      WriteOnPieces(f, y, link, reach);
      assert LinesOf(z)[..k] == LinesOf(z);
    }
  }

  /** The first unclean write breaks the line it lands on. */
  lemma UncleanBreaks<C(!new)>(f: Format<C>, y: Layout, link: Link<C>, reach: nat)
    requires WellLaid(f, y) && Good(f, y) && 0 < reach <= |LineFor(f, link)| &&
             !Good(f, Wrote(y, LineFor(f, link), reach))
    ensures BrokenLine(f, Wrote(y, LineFor(f, link), reach), |y.lines| + 1)
  {
    var z, n := Wrote(y, LineFor(f, link), reach), |y.lines|;
    LinesStay(f, y, link, reach, n);
    GoodChainPrefix(f, LinesOf(y), n);
    assert LinesOf(z)[..n + 1] == LinesOf(z);
  }

  lemma LaidWell<C(!new)>(f: Format<C>, ops: seq<Op<C>>, limit: nat)
    requires Sound(f)
    ensures WellLaid(f, LayoutOf(f, ops, limit))
  {
    LayoutIsFile(f, ops, limit);
  }

  lemma BrokenOneMore<C(!new)>(f: Format<C>, ops: seq<Op<C>>, k: nat, limit: nat)
    requires Sound(f) && Separable(f) && ops != [] && BrokenLine(f, LayoutOf(f, ops[..|ops| - 1], limit), k)
    ensures BrokenLine(f, LayoutOf(f, ops, limit), k)
  {
    var m := |ops| - 1;
    LaidWell(f, ops[..m], limit);
    if ops[m].Append? {
      BrokenLineStays(f, LayoutOf(f, ops[..m], limit), k, LinkAt(f, ops, m, limit), ReachAt(f, ops, m, limit));
    }
  }

  lemma {:induction false} BrokenEverAfter<C(!new)>(f: Format<C>, ops: seq<Op<C>>, n: nat, k: nat, limit: nat)
    requires Sound(f) && Separable(f) && n <= |ops| && BrokenLine(f, LayoutOf(f, ops[..n], limit), k)
    ensures BrokenLine(f, LayoutOf(f, ops, limit), k)
    decreases |ops|
  {
    if n == |ops| {
      assert ops[..n] == ops;
    } else {
      var front := ops[..|ops| - 1];
      assert front[..n] == ops[..n];
      BrokenEverAfter(f, front, n, k, limit);
      BrokenOneMore(f, ops, k, limit);
    }
  }

  /** The line the append at `n` writes on, counted from 1: one more than the
      terminated lines before it. */
  function LandsOn<C>(f: Format<C>, ops: seq<Op<C>>, n: nat, limit: nat): nat
    requires n < |ops|
  {
    |LayoutOf(f, ops[..n], limit).lines| + 1
  }

  lemma UncleanAppend<C(!new)>(f: Format<C>, ops: seq<Op<C>>, n: nat, limit: nat)
    requires Sound(f) && Separable(f) && n < |ops| && Clean(f, ops[..n], limit) && !CleanAt(f, ops, n, limit)
    ensures BrokenLine(f, LayoutOf(f, ops[..n + 1], limit), LandsOn(f, ops, n, limit))
  {
    var upto := ops[..n + 1];
    assert upto[..n] == ops[..n] && upto[n] == ops[n];
    RunIsAccounted(f, ops[..n], limit);
    RunIsAccounted(f, upto, limit);
    RunLayout(f, ops[..n], limit);
    UncleanBreaks(f, LayoutOf(f, ops[..n], limit), LinkAt(f, ops, n, limit), ReachAt(f, ops, n, limit));
  }

  /** Whatever a run does afterwards, the line Verify reports is the one the
      first unclean append landed on. */
  lemma FirstUncleanIsReported<C(!new)>(f: Format<C>, ops: seq<Op<C>>, n: nat, limit: nat)
    requires Sound(f) && Separable(f) && n < |ops| && Clean(f, ops[..n], limit) && !CleanAt(f, ops, n, limit)
    ensures FirstBreak(f, Segments(Run(f, ops, limit).file), LandsOn(f, ops, n, limit))
  {
    UncleanAppend(f, ops, n, limit);
    BrokenEverAfter(f, ops, n + 1, LandsOn(f, ops, n, limit), limit);
    RunLayout(f, ops, limit);
  }

  // ---------- a confirmed append ----------

  lemma {:induction false} LinesGrow<C(!new)>(f: Format<C>, ops: seq<Op<C>>, n: nat, limit: nat)
    requires n <= |ops|
    ensures LayoutOf(f, ops[..n], limit).lines <= LayoutOf(f, ops, limit).lines
    decreases |ops|
  {
    if n == |ops| {
      assert ops[..n] == ops;
    } else {
      assert ops[..|ops| - 1][..n] == ops[..n];
      LinesGrow(f, ops[..|ops| - 1], n, limit);
    }
  }

  /** Right after a confirmed append, the line it ended. */
  lemma ConfirmedLine<C(!new)>(f: Format<C>, y: Layout, link: Link<C>)
    requires Sound(f) && Separable(f) && WellLaid(f, y)
    ensures var z := Wrote(y, LineFor(f, link), |LineFor(f, link)|);
            && |z.lines| == |y.lines| + 1
            && f.decode(z.lines[|y.lines|]) == if y.pieces == [] then Some(link) else None
  {
    var more := y.pieces + [f.encode(link)];
    EndedLine(f, y, link);
    if y.pieces == [] {
      assert Concat(y.pieces) + LineFor(f, link) == f.encode(link) + "\n";
      assert f.decode(f.encode(link) + "\n") == Some(link);
    } else {
      assert Smeared(f, more);
      assert Unreadable(f, Concat(more));
    }
  }

  /** Whatever happens later, the line of a confirmed append reads back as its
      record if and only if the file ended in a newline when it was written;
      otherwise the line reads back as nothing. */
  lemma ConfirmedReadsBack<C(!new)>(f: Format<C>, ops: seq<Op<C>>, n: nat, limit: nat)
    requires Sound(f) && Separable(f) && n < |ops| && ops[n].Append? && ops[n].fault == NoFault
    ensures var segments, k := Segments(Run(f, ops, limit).file), LandsOn(f, ops, n, limit) - 1;
            && k < |segments|
            && f.decode(segments[k]) ==
               if Terminated(Run(f, ops[..n], limit).file) then Some(LinkAt(f, ops, n, limit)) else None
  {
    var upto, y := ops[..n + 1], LayoutOf(f, ops[..n], limit);
    assert upto[..n] == ops[..n] && upto[n] == ops[n];
    RunLayout(f, ops[..n], limit);
    ConfirmedLine(f, y, LinkAt(f, ops, n, limit));
    assert LayoutOf(f, upto, limit) ==
           Wrote(y, LineFor(f, LinkAt(f, ops, n, limit)), |LineFor(f, LinkAt(f, ops, n, limit))|);
    LinesGrow(f, ops, n + 1, limit);
    RunLayout(f, ops, limit);
  }

  lemma {:induction false} CleanBefore<C>(f: Format<C>, ops: seq<Op<C>>, n: nat, limit: nat)
    requires n < |ops| && Clean(f, ops, limit)
    ensures CleanAt(f, ops, n, limit)
    decreases |ops|
  {
    var k := |ops| - 1;
    if n < k {
      CleanBefore(f, ops[..k], n, limit);
      assert ops[..k][..n] == ops[..n];
    }
  }

  /** In a file Verify accepts, every confirmed append reads back. */
  lemma AcceptedReadsBack<C(!new)>(f: Format<C>, ops: seq<Op<C>>, n: nat, limit: nat)
    requires Sound(f) && Separable(f) && n < |ops| && ops[n].Append? && ops[n].fault == NoFault
    requires GoodChain(f, Segments(Run(f, ops, limit).file))
    ensures Terminated(Run(f, ops[..n], limit).file)
  {
    VerifyAcceptsExactly(f, ops, limit);
    CleanBefore(f, ops, n, limit);
  }
}
