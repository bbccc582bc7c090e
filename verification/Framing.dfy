/** NNTP framing. */
module Framing {
  // Sending an article dot-stuffed (LinesWriter, CMD_POST, CMD_IHAVE), reading it back with header
  // filter and un-stuffing (readDotLines), the body buffer of yEnc mode 4, and the cache file.
  // Section 3.1.1 of RFC 3977.

  import opened Bytes
  import opened Text
  import opened Wrappers

  type Line = seq<byte>

  predicate OneLine(line: Line) { LF !in line }

  // --- the cleanHeader keys -----------------------------------------------------------------

  const CLEAN_HEADER: seq<Line> :=
    [[88, 45],                                                // X-
     [68, 97, 116, 101, 58],                                  // Date:
     [78, 110, 116, 112, 45],                                 // Nntp-
     [80, 97, 116, 104, 58],                                  // Path:
     [88, 114, 101, 102, 58],                                 // Xref:
     [67, 97, 110, 99, 101, 108, 45],                         // Cancel-
     [73, 110, 106, 101, 99, 116, 105, 111, 110, 45],         // Injection-
     [85, 115, 101, 114, 45, 65, 103, 101, 110, 116, 58],     // User-Agent:
     [79, 114, 103, 97, 110, 105, 122, 97, 116, 105, 111, 110, 58]]  // Organization:

  // Path: not-for-mail
  const PATH: Line := [80, 97, 116, 104, 58, 32, 110, 111, 116, 45, 102, 111, 114, 45, 109, 97, 105, 108]

  predicate Spaced(line: Line) { line != [] && (line[0] == SPACE || line[0] == TAB) }

  predicate HasKey(line: Line, n: nat)
    requires n <= |CLEAN_HEADER|
  {
    exists k | 0 <= k < n :: CLEAN_HEADER[k] <= line
  }

  predicate Unwanted(line: Line) { HasKey(line, |CLEAN_HEADER|) }

  lemma KeysAreNotSpaced(line: Line)
    ensures Unwanted(line) ==> !Spaced(line)
  {
    assert forall k | 0 <= k < |CLEAN_HEADER| ::
      CLEAN_HEADER[k] != [] && CLEAN_HEADER[k][0] != SPACE && CLEAN_HEADER[k][0] != TAB;
  }

  method IsUnwanted(line: Line) returns (found: bool)
    ensures found == Unwanted(line)
  {
    for k := 0 to |CLEAN_HEADER|
      invariant !HasKey(line, k)
    {
      if HasPrefix(line, CLEAN_HEADER[k]) { return true; }
    }
    found := false;
  }

  // --- sending ------------------------------------------------------------------------------

  function Stuff(line: Line): Line { if [DOT] <= line then [DOT] + line else line }

  function Unstuff(line: Line): Line { if [DOT, DOT] <= line then line[1..] else line }

  function Map(f: Line -> Line, lines: seq<Line>): seq<Line> {
    seq(|lines|, k requires 0 <= k < |lines| => f(lines[k]))
  }

  /** Lines as they go over the wire, without the terminator. */
  function Raw(lines: seq<Line>): seq<byte> {
    if lines == [] then [] else lines[0] + CRLF + Raw(lines[1..])
  }

  /** A multi-line data block: stuffed lines and the terminator. */
  function Wire(lines: seq<Line>): seq<byte> { Raw(Map(Stuff, lines)) + ([DOT] + CRLF) }

  lemma {:induction false} RawAppend(a: seq<Line>, b: seq<Line>)
    ensures Raw(a + b) == Raw(a) + Raw(b)
  {
    if a == [] {
      assert a + b == b;
    } else {
      RawAppend(a[1..], b);
      assert (a + b)[1..] == a[1..] + b;
      assert a[0] + CRLF + (Raw(a[1..]) + Raw(b)) == a[0] + CRLF + Raw(a[1..]) + Raw(b);
    }
  }

  lemma RawNext(lines: seq<Line>, k: nat)
    requires k < |lines|
    ensures Raw(Map(Stuff, lines[k..])) == Stuff(lines[k]) + CRLF + Raw(Map(Stuff, lines[k + 1..]))
  {
    var a := Map(Stuff, lines[k..]);
    assert a[1..] == Map(Stuff, lines[k + 1..]);
  }

  function Cut(s: seq<byte>, n: nat): seq<byte> { if |s| <= n then s else s[..n] }

  /** Where a writer stops taking bytes if its connection fails after `limit` bytes: at the first
      full buffer that does not fit. */
  function Stop(limit: nat, size: nat): nat
    requires size > 0
  {
    (limit / size + 1) * size
  }

  lemma StopIs(limit: nat, size: nat, blocks: nat)
    requires size > 0 && blocks * size <= limit
    ensures blocks * size + size <= Stop(limit, size) && limit < Stop(limit, size)
    ensures limit < blocks * size + size ==> blocks * size + size == Stop(limit, size)
    ensures (blocks + 1) * size == blocks * size + size
  {
    var q := limit / size;
    assert limit == q * size + limit % size;
    assert (q + 1) * size == q * size + size && (blocks + 1) * size == blocks * size + size;
    Times(q + 1, blocks, size);
    Times(blocks + 1, q, size);
  }

  lemma Times(a: nat, b: nat, size: nat)
    ensures a <= b ==> a * size <= b * size
  {}

  /** A bufio.Writer on a connection that takes `limit` bytes in all and then fails. */
  class Writer {
    const size: nat
    const limit: nat
    var sent: seq<byte>      // what the connection has taken
    var buffer: seq<byte>
    var failed: bool
    ghost var blocks: nat    // how many full buffers it has taken

    /** What WriteString has said it took. */
    ghost function Taken(): seq<byte>
      reads this
    {
      sent + buffer
    }

    ghost predicate Valid()
      reads this
    {
      && |buffer| <= size && size > 0 && |sent| <= limit
      && (failed ==> |sent| == limit && buffer != [])
    }

    /** Only full buffers have been flushed, and no flush has failed. */
    ghost predicate Ready()
      reads this
    {
      Valid() && !failed && |sent| == blocks * size
    }

    constructor (size: nat, limit: nat)
      requires size > 0
      ensures Ready() && Taken() == [] && this.size == size && this.limit == limit
    {
      this.size, this.limit := size, limit;
      sent, buffer, failed, blocks := [], [], false, 0;
    }

    /** Hands the buffer to the connection; what it does not take stays in the buffer. */
    method Flush() returns (ok: bool)
      requires Valid() && !failed
      modifies this`sent, this`buffer, this`failed
      ensures Valid() && Taken() == old(Taken())
      ensures ok == !failed == (|Taken()| <= limit) && (ok ==> buffer == [])
      ensures |sent| >= old(|sent|)
    {
      var n := if |buffer| <= limit - |sent| then |buffer| else limit - |sent|;
      assert sent + buffer == sent + buffer[..n] + buffer[n..];
      failed := n < |buffer|;
      sent, buffer := sent + buffer[..n], buffer[n..];
      ok := !failed;
    }

    /** Takes all of `s`, or stops at the full buffer whose flush failed, with more to come. */
    method WriteString(s: seq<byte>) returns (n: nat, ok: bool)
      requires Ready()
      modifies this
      ensures Valid() && n <= |s| && Taken() == old(Taken()) + s[..n]
      ensures ok ==> n == |s| && Ready()
      ensures !ok ==> failed && n < |s| && |Taken()| == Stop(limit, size)
    {
      n := 0;
      while |s| - n > size - |buffer| && !failed
        invariant Valid() && n <= |s| && Taken() == old(Taken()) + s[..n]
        invariant if failed then n < |s| && |Taken()| == Stop(limit, size) else Ready()
        decreases !failed, |s| - n, |buffer|
      {
        var room := size - |buffer|;
        AppendCut(old(Taken()), s, n, n + room);
        assert sent + (buffer + s[n..n + room]) == sent + buffer + s[n..n + room];
        buffer := buffer + s[n..n + room];
        n := n + room;
        StopIs(limit, size, blocks);
        var ok' := Flush();
        if ok' { blocks := blocks + 1; }
      }
      if failed { return n, false; }
      AppendCut(old(Taken()), s, n, |s|);
      assert sent + (buffer + s[n..]) == sent + buffer + s[n..];
      buffer := buffer + s[n..];
      n, ok := |s|, true;
    }
  }

  lemma AppendCut(a: seq<byte>, s: seq<byte>, n: nat, m: nat)
    requires n <= m <= |s|
    ensures a + s[..n] + s[n..m] == a + s[..m]
    ensures m == |s| ==> s[n..m] == s[n..]
  {
    assert s[..n] + s[n..m] == s[..m];
  }

  /** The closure `write` of LinesWriter, on its way to `all`: after a failure exactly what the
      connection takes has been sent, and what filled the buffers is counted. */
  method WritePart(w: Writer, s: seq<byte>, txb: nat, ghost all: seq<byte>, ghost rest: seq<byte>)
      returns (txb': nat, ok: bool)
    requires w.Ready() && w.Taken() + (s + rest) == all && txb == |w.Taken()|
    modifies w
    ensures txb' == |w.Taken()|
    ensures ok ==> w.Ready() && w.Taken() + rest == all
    ensures !ok ==> txb' == Stop(w.limit, w.size) < |all| && w.limit < |all| && w.sent == Cut(all, w.limit)
  {
    var n;
    ghost var before := w.Taken();
    StopIs(w.limit, w.size, 0);
    n, ok := w.WriteString(s);
    txb' := txb + n;
    assert s == s[..n] + s[n..];
    assert all == w.Taken() + (s[n..] + rest);
  }

  /** LinesWriter, by way of a buffer of `size` bytes; CMD_POST and CMD_IHAVE send the article in the
      same way. On the wire is status line and block, cut where the connection fails; success
      means all of it. txb counts what went into the buffer: all of it, or up to the first full
      buffer that the connection did not take. */
  method LinesWriter(status: Line, lines: seq<Line>, size: nat, limit: nat)
      returns (sent: seq<byte>, txb: nat, ok: bool)
    requires size > 0
    ensures var all := status + CRLF + Wire(lines);
            && ok == (|all| <= limit) && sent == Cut(all, limit)
            && txb == if |all| <= Stop(limit, size) then |all| else Stop(limit, size)
  {
    var w := new Writer(size, limit);
    ghost var all, end := status + CRLF + Wire(lines), [DOT] + CRLF;
    assert [] + (status + CRLF + Wire(lines)) == all;
    txb, ok := WritePart(w, status + CRLF, 0, all, Wire(lines));
    if !ok { return w.sent, txb, false; }
    assert lines[0..] == lines;
    for k := 0 to |lines|
      invariant fresh(w) && w.Ready() && w.Taken() + (Raw(Map(Stuff, lines[k..])) + end) == all && txb == |w.Taken()|
    {
      hide Raw;
      var line := lines[k];
      if HasPrefix(line, [DOT]) { line := [DOT] + line; }
      RawNext(lines, k);
      ghost var more := Raw(Map(Stuff, lines[k + 1..]));
      assert line + CRLF + more + end == line + CRLF + (more + end);
      txb, ok := WritePart(w, line + CRLF, txb, all, more + end);
      if !ok { return w.sent, txb, false; }
    }
    assert [] + end == end + [];
    txb, ok := WritePart(w, [DOT] + CRLF, txb, all, []);
    if !ok { return w.sent, txb, false; }
    assert w.Taken() + [] == w.Taken();
    StopIs(limit, size, w.blocks);
    ok := w.Flush();
    sent := w.sent;
  }

  // --- reading lines ------------------------------------------------------------------------

  /** textproto's ReadLine: up to LF, without LF or CRLF; at the end of the stream what is left. */
  function ReadLine(s: seq<byte>): Option<(Line, seq<byte>)> {
    if s == [] then None
    else
      match IndexOf(LF, s)
      case None => Some((s, []))
      case Some(i) =>
        IndexOfIs(LF, s);
        Some((if i > 0 && s[i - 1] == CR then s[..i - 1] else s[..i], s[i + 1..]))
  }

  /** A line read is what stands before the first LF, without one CR before that; or all there is. */
  lemma LineRead(s: seq<byte>)
    ensures ReadLine(s).None? <==> s == []
    ensures s != [] ==>
              var (line, rest) := ReadLine(s).value;
              && LF !in line
              && ((s == line && rest == []) || s == line + CRLF + rest
                  || (s == line + [LF] + rest && (line == [] || line[|line| - 1] != CR)))
  {
    IndexOfIs(LF, s);
    if IndexOf(LF, s).Some? { CutAtLf(s, IndexOf(LF, s).value); }
    hide IndexOf;
  }

  lemma CutAtLf(s: seq<byte>, i: nat)
    requires i < |s| && s[i] == LF
    ensures s == s[..i] + [LF] + s[i + 1..]
    ensures i > 0 && s[i - 1] == CR ==> s == s[..i - 1] + CRLF + s[i + 1..]
  {}

  /** The lines up to the terminator, and what follows it; None if the stream ends before. */
  function Received(s: seq<byte>): Option<(seq<Line>, seq<byte>)>
    decreases |s|
  {
    match ReadLine(s)
    case None => None
    case Some((line, rest)) =>
      ReadShrinks(s);
      if line == [DOT] then Some(([], rest))
      else match Received(rest) case None => None case Some((lines, end)) => Some(([line] + lines, end))
  }

  lemma ReadShrinks(s: seq<byte>)
    ensures ReadLine(s).Some? ==> |ReadLine(s).value.1| < |s| && OneLine(ReadLine(s).value.0)
  {
    IndexOfIs(LF, s);
  }

  /** A line without LF comes back, even if it ends in CR. */
  lemma ReadOneLine(line: Line, rest: seq<byte>)
    requires OneLine(line)
    ensures ReadLine(line + CRLF + rest) == Some((line, rest))
  {
    var s := line + CRLF + rest;
    IndexOfIs(LF, s);
    var i := IndexOf(LF, s).value;
    assert s[|line| + 1] == LF;
    assert s[..i - 1] == line && s[i + 1..] == rest;
  }

  lemma ReceivedCons(line: Line, more: seq<byte>)
    requires OneLine(line)
    ensures Received(line + CRLF + more) ==
            if line == [DOT] then Some(([], more))
            else match Received(more) case None => None case Some((lines, end)) => Some(([line] + lines, end))
  {
    ReadOneLine(line, more);
    hide ReadLine;
  }

  lemma {:induction false} ReceivedRaw(lines: seq<Line>, rest: seq<byte>)
    requires forall k | 0 <= k < |lines| :: OneLine(lines[k]) && lines[k] != [DOT]
    ensures Received(Raw(lines) + ([DOT] + CRLF) + rest) == Some((lines, rest))
  {
    hide Received, ReadLine;
    var tail := [DOT] + CRLF + rest;
    if lines == [] {
      ReceivedCons([DOT], rest);
      assert [] + ([DOT] + CRLF) + rest == tail;
    } else {
      ReceivedRaw(lines[1..], rest);
      var raw := Raw(lines[1..]);
      assert Raw(lines) == lines[0] + CRLF + raw;
      hide Raw;
      ReceivedCons(lines[0], raw + ([DOT] + CRLF) + rest);
      assert lines[0] + CRLF + raw + ([DOT] + CRLF) + rest == lines[0] + CRLF + (raw + ([DOT] + CRLF) + rest);
      assert [lines[0]] + lines[1..] == lines;
    }
  }

  lemma StuffedIsNeverDot(line: Line)
    ensures Stuff(line) != [DOT] && Unstuff(Stuff(line)) == line && (OneLine(line) ==> OneLine(Stuff(line)))
  {
    if [DOT] <= line {
      assert Stuff(line)[0] == Stuff(line)[1] == DOT && Stuff(line)[1..] == line;
    }
    assert [DOT, DOT] <= line ==> line[..1] == [DOT];
  }

  /** The terminator is never ambiguous: exactly the stuffed lines arrive, and the next reply
      starts right after them. */
  lemma WireIsUnambiguous(lines: seq<Line>, rest: seq<byte>)
    requires forall k | 0 <= k < |lines| :: OneLine(lines[k])
    ensures Received(Wire(lines) + rest) == Some((Map(Stuff, lines), rest))
  {
    forall k | 0 <= k < |lines|
      ensures OneLine(Map(Stuff, lines)[k]) && Map(Stuff, lines)[k] != [DOT]
    {
      StuffedIsNeverDot(lines[k]);
    }
    ReceivedRaw(Map(Stuff, lines), rest);
  }

  // --- readDotLines -------------------------------------------------------------------------

  datatype Command = ARTICLE | HEAD | BODY | Other

  /** `proxy` relays unchanged, `clean` is the CleanHeaders option, `date` the new Date line. */
  datatype Opts = Opts(command: Command, proxy: bool, clean: bool, date: Line)

  function Stamp(o: Opts): seq<Line> { if o.proxy then [] else [o.date, PATH] }

  // What is kept, said without the loop:

  function Spaces(lines: seq<Line>): (n: nat)
    ensures n <= |lines| && forall k | 0 <= k < n :: Spaced(lines[k])
    ensures n < |lines| ==> !Spaced(lines[n])
  {
    if lines == [] || !Spaced(lines[0]) then 0 else 1 + Spaces(lines[1..])
  }

  /** A header field: a line and the continuation lines after it. */
  function HeaderFields(head: seq<Line>): seq<seq<Line>>
    decreases |head|
  {
    if head == [] then []
    else var n := 1 + Spaces(head[1..]); [head[..n]] + HeaderFields(head[n..])
  }

  /** The lines of the fields whose first line has no cleanHeader key. */
  function Wanted(fields: seq<seq<Line>>): seq<Line> {
    if fields == [] then []
    else (if fields[0] != [] && Unwanted(fields[0][0]) then [] else fields[0]) + Wanted(fields[1..])
  }

  function Header(o: Opts, head: seq<Line>): seq<Line> {
    if o.clean && !o.proxy then Wanted(HeaderFields(head)) else head
  }

  function HeadLength(lines: seq<Line>): (n: nat)
    ensures n <= |lines| && (n < |lines| ==> lines[n] == []) && forall k | 0 <= k < n :: lines[k] != []
  {
    if lines == [] || lines[0] == [] then 0 else 1 + HeadLength(lines[1..])
  }

  function Kept(o: Opts, lines: seq<Line>): seq<Line> {
    var h := HeadLength(lines);
    match o.command
    case Other => lines
    case BODY => Map(Unstuff, lines)
    case HEAD => Header(o, lines[..h]) + (if h < |lines| then Stamp(o) else []) + Stamp(o)
    case ARTICLE => Header(o, lines[..h]) + (if h < |lines| then Stamp(o) + Map(Unstuff, lines[h..]) else [])
  }

  // The loop, step by step:

  /** The two flags of the loop. */
  datatype Flags = Flags(parseHeader: bool, ignore: bool)

  function Start(o: Opts): Flags { Flags(o.command.ARTICLE? || o.command.HEAD?, false) }

  /** What one line other than the terminator adds to the content. */
  function Step(o: Opts, f: Flags, line: Line): (seq<Line>, Flags) {
    if f.parseHeader && line == [] then
      (Stamp(o) + (if o.command.HEAD? then [] else if o.command.Other? then [line] else [Unstuff(line)]),
          Flags(false, f.ignore))
    else if f.parseHeader then
      if Spaced(line) && f.ignore then ([], f)
      else if o.clean && !o.proxy && Unwanted(line) then ([], Flags(true, true))
      else ([line], Flags(true, false))
    else
      (if o.command.HEAD? then [] else if o.command.Other? then [line] else [Unstuff(line)], f)
  }

  function Collect(o: Opts, f: Flags, lines: seq<Line>): seq<Line>
    decreases |lines|
  {
    if lines == [] then (if o.command.HEAD? then Stamp(o) else [])
    else var (add, g) := Step(o, f, lines[0]); add + Collect(o, g, lines[1..])
  }

  lemma {:induction false} CollectBody(o: Opts, f: Flags, lines: seq<Line>)
    requires !f.parseHeader
    ensures Collect(o, f, lines) ==
            match o.command
            case Other => lines
            case HEAD => Stamp(o)
            case _ => Map(Unstuff, lines)
    decreases |lines|
  {
    if lines != [] {
      CollectBody(o, f, lines[1..]);
      assert Map(Unstuff, lines) == [Unstuff(lines[0])] + Map(Unstuff, lines[1..]);
      assert [lines[0]] + lines[1..] == lines && [] + Stamp(o) == Stamp(o);
    }
  }

  /** What follows the header, from its blank line on. */
  function AfterHead(o: Opts, rest: seq<Line>): seq<Line> {
    if rest == [] then (if o.command.HEAD? then Stamp(o) else [])
    else Stamp(o) + if o.command.HEAD? then Stamp(o) else Map(Unstuff, rest)
  }

  lemma CollectRest(o: Opts, f: Flags, rest: seq<Line>)
    requires f.parseHeader && (o.command.ARTICLE? || o.command.HEAD?) && (rest == [] || rest[0] == [])
    ensures Collect(o, f, rest) == AfterHead(o, rest)
  {
    if rest != [] {
      CollectBody(o, Flags(false, f.ignore), rest[1..]);
      assert Map(Unstuff, rest) == [Unstuff(rest[0])] + Map(Unstuff, rest[1..]);
      assert Stamp(o) + [] + Stamp(o) == Stamp(o) + Stamp(o);
      assert Stamp(o) + [Unstuff([])] + Map(Unstuff, rest[1..]) == Stamp(o) + ([Unstuff([])] + Map(Unstuff, rest[1..]));
    }
  }

  /** Continuation lines share the fate of the line before them. */
  lemma {:induction false} CollectSpaced(o: Opts, f: Flags, n: nat, lines: seq<Line>)
    requires f.parseHeader && n <= |lines| && (forall k | 0 <= k < n :: Spaced(lines[k]))
    ensures Collect(o, f, lines) == (if f.ignore then [] else lines[..n]) + Collect(o, f, lines[n..])
    decreases n
  {
    hide Step, Unwanted, Spaced;
    if n == 0 {
      assert lines[0..] == lines && [] + Collect(o, f, lines) == Collect(o, f, lines);
    } else {
      StepSpaced(o, f, lines[0]);
      assert forall k | 0 <= k < n - 1 :: Spaced(lines[1..][k]);
      CollectSpaced(o, f, n - 1, lines[1..]);
      assert lines[1..][n - 1..] == lines[n..];
      var last := Collect(o, f, lines[n..]);
      hide Collect;
      if f.ignore {
        assert [] + ([] + last) == [] + last;
      } else {
        assert [lines[0]] + (lines[1..][..n - 1] + last) == lines[..n] + last;
      }
    }
  }

  lemma StepSpaced(o: Opts, f: Flags, line: Line)
    requires f.parseHeader && Spaced(line)
    ensures Step(o, f, line) == (if f.ignore then [] else [line], f)
  {
    KeysAreNotSpaced(line);
  }

  /** One field is kept or dropped as a whole. */
  lemma CollectField(o: Opts, f: Flags, n: nat, lines: seq<Line>)
    requires f.parseHeader && 0 < n <= |lines| && lines[0] != []
    requires (forall k | 0 <= k < n - 1 :: Spaced(lines[1..][k])) && (f.ignore ==> !Spaced(lines[0]))
    ensures var drop := o.clean && !o.proxy && Unwanted(lines[0]);
            Collect(o, f, lines) == (if drop then [] else lines[..n]) + Collect(o, Flags(true, drop), lines[n..])
  {
    hide Unwanted, Spaced, Collect, Step;
    var drop, more := o.clean && !o.proxy && Unwanted(lines[0]), lines[1..];
    StepFirst(o, f, lines[0]);
    CollectCons(o, f, lines);
    var g := Flags(true, drop);
    CollectSpaced(o, g, n - 1, more);
    assert more[n - 1..] == lines[n..];
    var last := Collect(o, g, lines[n..]);
    if drop {
      assert [] + ([] + last) == [] + last;
    } else {
      assert [lines[0]] + (more[..n - 1] + last) == lines[..n] + last;
    }
  }

  lemma StepFirst(o: Opts, f: Flags, line: Line)
    requires f.parseHeader && line != [] && (f.ignore ==> !Spaced(line))
    ensures var drop := o.clean && !o.proxy && Unwanted(line);
            Step(o, f, line) == (if drop then [] else [line], Flags(true, drop))
  {}

  lemma CollectCons(o: Opts, f: Flags, lines: seq<Line>)
    requires lines != []
    ensures var (add, g) := Step(o, f, lines[0]); Collect(o, f, lines) == add + Collect(o, g, lines[1..])
  {}

  /** The first field of a header. */
  lemma FieldFirst(o: Opts, f: Flags, head: seq<Line>, rest: seq<Line>) returns (n: nat, drop: bool)
    requires f.parseHeader && head != [] && head[0] != [] && (f.ignore ==> !Spaced(head[0]))
    ensures 0 < n <= |head| && (n < |head| ==> !Spaced(head[n]))
    ensures Collect(o, f, head + rest) ==
            (if drop then [] else head[..n]) + Collect(o, Flags(true, drop), head[n..] + rest)
    ensures Header(o, head) == (if drop then [] else head[..n]) + Header(o, head[n..])
  {
    hide Unwanted, Header, Collect, Spaced, Wanted, HeaderFields;
    n, drop := 1 + Spaces(head[1..]), o.clean && !o.proxy && Unwanted(head[0]);
    var spaced, lines := head[1..], head + rest;
    forall k | 0 <= k < n - 1
      ensures Spaced(lines[1..][k])
    {
      assert lines[1..][k] == spaced[k];
    }
    HeaderStep(o, head, n);
    CollectField(o, f, n, lines);
    assert lines[n..] == head[n..] + rest && lines[..n] == head[..n];
    assert n < |head| ==> head[n] == spaced[n - 1];
  }

  /** The header loop is "group the lines into fields, drop the unwanted fields". */
  lemma {:induction false} CollectHeader(o: Opts, f: Flags, head: seq<Line>, rest: seq<Line>)
    requires f.parseHeader && (o.command.ARTICLE? || o.command.HEAD?) && (rest == [] || rest[0] == [])
    requires (forall k | 0 <= k < |head| :: head[k] != []) && (f.ignore && head != [] ==> !Spaced(head[0]))
    ensures Collect(o, f, head + rest) == Header(o, head) + AfterHead(o, rest)
    decreases |head|
  {
    hide Step, Unwanted, Header, AfterHead, Collect, Spaced;
    if head == [] {
      assert head + rest == rest && [] + AfterHead(o, rest) == AfterHead(o, rest);
      NoFields(o);
      CollectRest(o, f, rest);
    } else {
      var n, drop := FieldFirst(o, f, head, rest);
      CollectHeader(o, Flags(true, drop), head[n..], rest);
      var field := if drop then [] else head[..n];
      assert field + (Header(o, head[n..]) + AfterHead(o, rest)) == field + Header(o, head[n..]) + AfterHead(o, rest);
    }
  }

  lemma HeaderStep(o: Opts, head: seq<Line>, n: nat)
    requires head != [] && n == 1 + Spaces(head[1..])
    ensures Header(o, head) ==
            (if o.clean && !o.proxy && Unwanted(head[0]) then [] else head[..n]) + Header(o, head[n..])
  {
    hide Wanted, HeaderFields, Unwanted;
    WantedStep(head, n);
    assert head[..n] + head[n..] == head;
  }

  lemma WantedStep(head: seq<Line>, n: nat)
    requires head != [] && n == 1 + Spaces(head[1..])
    ensures Wanted(HeaderFields(head)) ==
            (if Unwanted(head[0]) then [] else head[..n]) + Wanted(HeaderFields(head[n..]))
  {
    hide Unwanted;
    var more := HeaderFields(head[n..]);
    assert HeaderFields(head) == [head[..n]] + more && ([head[..n]] + more)[1..] == more;
  }

  lemma NoFields(o: Opts)
    ensures Wanted(HeaderFields([])) == [] && Header(o, []) == []
  {}

  lemma WantedFirst(head: seq<Line>) returns (n: nat)
    requires head != []
    ensures 0 < n <= |head|
    ensures Wanted(HeaderFields(head)) ==
            (if Unwanted(head[0]) then [] else head[..n]) + Wanted(HeaderFields(head[n..]))
  {
    hide Wanted, HeaderFields, Unwanted;
    n := 1 + Spaces(head[1..]);
    WantedStep(head, n);
  }

  lemma CollectIsKept(o: Opts, lines: seq<Line>)
    ensures Collect(o, Start(o), lines) == Kept(o, lines)
  {
    hide Header, Collect, Stamp, Step, Map;
    if o.command.ARTICLE? || o.command.HEAD? {
      var h := HeadLength(lines);
      var head, rest := lines[..h], lines[h..];
      assert head + rest == lines;
      CollectHeader(o, Start(o), head, rest);
      assert Header(o, head) + (Stamp(o) + Stamp(o)) == Header(o, head) + Stamp(o) + Stamp(o);
      assert Header(o, head) + [] + Stamp(o) == Header(o, head) + Stamp(o);
    } else {
      CollectBody(o, Start(o), lines);
    }
  }

  // The body buffer of mode 4:

  /** The body lines of the article as they came over the wire. */
  function BodyLines(o: Opts, lines: seq<Line>): seq<Line> {
    match o.command
    case BODY => lines
    case ARTICLE => lines[HeadLength(lines)..]
    case _ => []
  }

  function Bodies(o: Opts, parseHeader: bool, lines: seq<Line>): seq<Line>
    decreases |lines|
  {
    if lines == [] then []
    else
      var ph := parseHeader && lines[0] != [];
      (if ph || o.command.HEAD? || o.command.Other? then [] else [Unstuff(lines[0])]) + Bodies(o, ph, lines[1..])
  }

  lemma {:induction false} BodiesAre(o: Opts, parseHeader: bool, lines: seq<Line>)
    requires o.command.BODY? || o.command.ARTICLE?
    ensures Bodies(o, parseHeader, lines) == Map(Unstuff, if parseHeader then lines[HeadLength(lines)..] else lines)
    decreases |lines|
  {
    if lines != [] {
      var ph := parseHeader && lines[0] != [];
      BodiesAre(o, ph, lines[1..]);
      if ph {
        assert lines[HeadLength(lines)..] == lines[1..][HeadLength(lines[1..])..];
      } else {
        assert lines[HeadLength(lines)..] == lines || !parseHeader;
        assert Map(Unstuff, lines) == [Unstuff(lines[0])] + Map(Unstuff, lines[1..]);
      }
    }
  }

  lemma {:induction false} NoBodies(o: Opts, parseHeader: bool, lines: seq<Line>)
    requires o.command.HEAD? || o.command.Other?
    ensures Bodies(o, parseHeader, lines) == []
    decreases |lines|
  {
    if lines != [] { NoBodies(o, parseHeader && lines[0] != [], lines[1..]); }
  }

  /** What is decoded in mode 4. */
  function Mode4(o: Opts, lines: seq<Line>): seq<byte> {
    Wire(Map(Unstuff, BodyLines(o, lines)))
  }

  lemma Mode4IsBodies(o: Opts, lines: seq<Line>)
    ensures Raw(Map(Stuff, Bodies(o, Start(o).parseHeader, lines))) + ([DOT] + CRLF) == Mode4(o, lines)
  {
    if o.command.HEAD? || o.command.Other? {
      NoBodies(o, Start(o).parseHeader, lines);
    } else {
      BodiesAre(o, Start(o).parseHeader, lines);
    }
  }

  /** One round of the loop; `y` goes to the body buffer. */
  method HandleLine(o: Opts, line: Line, f: Flags) returns (add: seq<Line>, g: Flags, y: seq<byte>)
    ensures (add, g) == Step(o, f, line)
    ensures y == if g.parseHeader || o.command.HEAD? || o.command.Other? then [] else Stuff(Unstuff(line)) + CRLF
  {
    add, g, y := [], f, [];
    if g.parseHeader && |line| == 0 {
      g := Flags(false, g.ignore);
      if !o.proxy { add := [o.date, PATH]; }
    }
    if g.parseHeader {
      var spaced := |line| > 0 && (line[0] == SPACE || line[0] == TAB);
      if !spaced && g.ignore { g := Flags(true, false); }
      if spaced && g.ignore { return; }
      if o.clean && !o.proxy {
        var drop := IsUnwanted(line);
        if drop { return [], Flags(true, true), []; }
      }
      add := [line];
    }
    assert add + [] == add;
    if !g.parseHeader && !o.command.HEAD? {
      assert [] + [line] == [line] && [] + [Unstuff(line)] == [Unstuff(line)];
      var l := line;
      if !o.command.Other? && HasPrefix(l, [DOT, DOT]) { l := l[1..]; }
      add := add + [l];
      if !o.command.Other? { y := Restuff(l); }
    }
  }

  /** The dot taken off goes back on. */
  method Restuff(line: Line) returns (y: seq<byte>)
    ensures y == Stuff(line) + CRLF
  {
    y := [];
    if |line| > 0 && line[0] == DOT { y := y + [DOT]; }
    y := y + line;
    y := y + [CR, LF];
  }

  lemma BodiesStep(o: Opts, f: Flags, line: Line, lines: seq<Line>, ybuf: seq<byte>)
    ensures var g := Step(o, f, line).1;
            ybuf + Raw(Map(Stuff, Bodies(o, f.parseHeader, [line] + lines))) ==
            ybuf + (if g.parseHeader || o.command.HEAD? || o.command.Other? then [] else Stuff(Unstuff(line)) + CRLF)
            + Raw(Map(Stuff, Bodies(o, g.parseHeader, lines)))
  {
    var ph := f.parseHeader && line != [];
    assert ([line] + lines)[1..] == lines;
    var all, more := Map(Stuff, Bodies(o, f.parseHeader, [line] + lines)), Map(Stuff, Bodies(o, ph, lines));
    if ph || o.command.HEAD? || o.command.Other? {
      assert all == more && ybuf + [] == ybuf;
    } else {
      assert all == [Stuff(Unstuff(line))] + more && all[1..] == more;
      assert ybuf + (Stuff(Unstuff(line)) + CRLF + Raw(more)) == ybuf + (Stuff(Unstuff(line)) + CRLF) + Raw(more);
    }
  }

  lemma CollectStep(o: Opts, f: Flags, line: Line, lines: seq<Line>, content: seq<Line>)
    ensures var (add, g) := Step(o, f, line);
            content + Collect(o, f, [line] + lines) == content + add + Collect(o, g, lines)
  {
    hide Step;
    var (add, g) := Step(o, f, line);
    assert ([line] + lines)[1..] == lines;
    assert content + (add + Collect(o, g, lines)) == content + add + Collect(o, g, lines);
  }

  lemma AtDot(o: Opts, f: Flags)
    ensures Collect(o, f, []) == (if o.command.HEAD? then Stamp(o) else [])
    ensures Raw(Map(Stuff, Bodies(o, f.parseHeader, []))) == []
  {}

  /** The loop of readDotLines; `ok` is false if the stream ends before the final dot. */
  method ReadDotLines(wire: seq<byte>, o: Opts) returns (content: seq<Line>, ybuf: seq<byte>, rest: seq<byte>, ok: bool)
    ensures match Received(wire)
            case None => !ok
            case Some((lines, end)) => ok && rest == end && content == Kept(o, lines) && ybuf == Mode4(o, lines)
  {
    hide Collect, Bodies, Kept, Mode4, Raw, ReadLine;
    var f := Start(o);
    content, ybuf, rest, ok := [], [], wire, false;
    while true
      invariant Received(wire).None? == Received(rest).None?
      invariant Received(wire).Some? ==>
                  var all, left := Received(wire).value, Received(rest).value;
                  && left.1 == all.1
                  && content + Collect(o, f, left.0) == Collect(o, Start(o), all.0)
                  && ybuf + Raw(Map(Stuff, Bodies(o, f.parseHeader, left.0))) ==
                     Raw(Map(Stuff, Bodies(o, Start(o).parseHeader, all.0)))
      decreases |rest|
    {
      ReadShrinks(rest);
      var next := ReadLine(rest);
      if next.None? { return; }
      var (line, more) := next.value;
      if line == [DOT] {
        AtDot(o, f);
        if o.command.HEAD? && !o.proxy { content := content + [o.date, PATH]; }
        rest := more;
        break;
      }
      if Received(more).Some? {
        CollectStep(o, f, line, Received(more).value.0, content);
        BodiesStep(o, f, line, Received(more).value.0, ybuf);
      }
      hide Step;
      var add, y;
      add, f, y := HandleLine(o, line, f);
      content, ybuf, rest := content + add, ybuf + y, more;
    }
    CollectIsKept(o, Received(wire).value.0);
    Mode4IsBodies(o, Received(wire).value.0);
    ybuf := ybuf + [DOT, CR, LF];
    ok := true;
  }

  // --- main results -------------------------------------------------------------------------

  lemma StuffedHead(lines: seq<Line>)
    ensures HeadLength(Map(Stuff, lines)) == HeadLength(lines)
  {
    var a, b := HeadLength(Map(Stuff, lines)), HeadLength(lines);
    assert a < |lines| ==> Map(Stuff, lines)[a] == Stuff(lines[a]);
    assert b < |lines| ==> Map(Stuff, lines)[b] == Stuff(lines[b]);
  }

  lemma Unstuffed(lines: seq<Line>)
    ensures Map(Unstuff, Map(Stuff, lines)) == lines
  {
    forall k | 0 <= k < |lines|
      ensures Unstuff(Stuff(lines[k])) == lines[k]
    {
      StuffedIsNeverDot(lines[k]);
    }
  }

  /** Sent and read back with BODY, any lines are the same; and mode 4 gets the wire bytes. */
  lemma BodyRoundTrip(o: Opts, lines: seq<Line>, rest: seq<byte>)
    requires o.command.BODY? && forall k | 0 <= k < |lines| :: OneLine(lines[k])
    ensures Received(Wire(lines) + rest) == Some((Map(Stuff, lines), rest))
    ensures Kept(o, Map(Stuff, lines)) == lines
    ensures Mode4(o, Map(Stuff, lines)) == Wire(lines)
  {
    WireIsUnambiguous(lines, rest);
    Unstuffed(lines);
  }

  lemma RelayedIs(o: Opts, lines: seq<Line>)
    requires o.command.ARTICLE? && o.proxy
    ensures var h := HeadLength(lines); Kept(o, Map(Stuff, lines)) == Map(Stuff, lines[..h]) + lines[h..]
  {
    StuffedHead(lines);
    hide Stuff, Unstuff, HeadLength;
    var h, sent := HeadLength(lines), Map(Stuff, lines);
    assert sent[h..] == Map(Stuff, lines[h..]) && sent[..h] == Map(Stuff, lines[..h]);
    Unstuffed(lines[h..]);
    assert [] + lines[h..] == lines[h..];
  }

  /** A relayed article comes back unchanged just if no header line begins with a dot: header
      lines are not un-stuffed. */
  lemma ArticleRoundTrip(o: Opts, lines: seq<Line>)
    requires o.command.ARTICLE? && o.proxy
    ensures Kept(o, Map(Stuff, lines)) == lines <==> forall k | 0 <= k < HeadLength(lines) :: !([DOT] <= lines[k])
  {
    hide Kept, HeadLength;
    RelayedIs(o, lines);
    RelayedSame(lines, HeadLength(lines));
  }

  lemma RelayedSame(lines: seq<Line>, h: nat)
    requires h <= |lines|
    ensures Map(Stuff, lines[..h]) + lines[h..] == lines <==> forall k | 0 <= k < h :: !([DOT] <= lines[k])
  {
    var head := Map(Stuff, lines[..h]);
    var got := head + lines[h..];
    assert forall k | 0 <= k < h :: got[k] == Stuff(lines[k]);
    assert forall k | h <= k < |lines| :: got[k] == lines[k];
    forall k | 0 <= k < h
      ensures Stuff(lines[k]) == lines[k] <==> !([DOT] <= lines[k])
    {
      assert [DOT] <= lines[k] ==> |Stuff(lines[k])| == |lines[k]| + 1;
    }
    hide Stuff, Map;
    assert got == lines <==> forall k | 0 <= k < h :: got[k] == lines[k];
  }

  /** Re-uploads: after cleaning, no header line carries a cleanHeader key. */
  lemma {:induction false} NothingUnwantedLeft(head: seq<Line>)
    ensures forall k | 0 <= k < |Wanted(HeaderFields(head))| :: !Unwanted(Wanted(HeaderFields(head))[k])
    decreases |head|
  {
    hide Wanted, HeaderFields;
    if head == [] {
      NoFields(Opts(HEAD, true, true, []));
    } else {
      var n := 1 + Spaces(head[1..]);
      NothingUnwantedLeft(head[n..]);
      WantedStep(head, n);
      forall k | 1 <= k < n
        ensures !Unwanted(head[k])
      {
        assert Spaced(head[1..][k - 1]);
        KeysAreNotSpaced(head[k]);
      }
    }
  }

  /** Cleaning a clean header changes nothing. */
  lemma {:induction false} CleanStaysClean(head: seq<Line>)
    requires forall k | 0 <= k < |head| :: !Unwanted(head[k])
    ensures Wanted(HeaderFields(head)) == head
    decreases |head|
  {
    hide Unwanted, Wanted, HeaderFields;
    if head == [] {
      NoFields(Opts(HEAD, true, true, []));
    } else {
      var n := WantedFirst(head);
      var more := head[n..];
      CleanStaysClean(more);
      assert head[..n] + more == head;
    }
  }

  const DATE_KEY: Line := [68, 97, 116, 101, 58]   // Date:
  const PATH_KEY: Line := [80, 97, 116, 104, 58]   // Path:

  lemma DateAndPathUnwanted(line: Line)
    ensures DATE_KEY <= line || PATH_KEY <= line ==> Unwanted(line)
    ensures DATE_KEY <= line ==> !(PATH_KEY <= line)
    ensures PATH_KEY <= PATH && PATH != [] && Unstuff([]) == []
  {
    assert CLEAN_HEADER[1] == DATE_KEY && CLEAN_HEADER[3] == PATH_KEY;
    assert DATE_KEY[0] != PATH_KEY[0] && PATH[..5] == PATH_KEY;
  }

  lemma {:induction false} HeadEnds(head: seq<Line>, rest: seq<Line>)
    requires (forall k | 0 <= k < |head| :: head[k] != []) && rest != [] && rest[0] == []
    ensures HeadLength(head + rest) == |head|
    decreases |head|
  {
    if head == [] {
      assert head + rest == rest;
    } else {
      HeadEnds(head[1..], rest);
      assert (head + rest)[1..] == head[1..] + rest && (head + rest)[0] == head[0];
    }
  }

  lemma {:induction false} WantedFrom(head: seq<Line>)
    ensures forall k | 0 <= k < |Wanted(HeaderFields(head))| :: Wanted(HeaderFields(head))[k] in head
    decreases |head|
  {
    hide Wanted, HeaderFields, Unwanted;
    if head == [] {
      NoFields(Opts(HEAD, true, true, []));
    } else {
      var n := 1 + Spaces(head[1..]);
      WantedFrom(head[n..]);
      WantedStep(head, n);
    }
  }

  /** The header of a re-upload, without blank line: what the filter leaves, the new Date, the Path. */
  lemma StampedHeader(o: Opts, lines: seq<Line>) returns (kept: seq<Line>)
    requires o.command.ARTICLE? && !o.proxy && HeadLength(lines) < |lines|
    ensures Kept(o, lines) == kept + [o.date, PATH] + Map(Unstuff, lines[HeadLength(lines)..])
    ensures forall k | 0 <= k < |kept| :: kept[k] in lines[..HeadLength(lines)] && kept[k] != []
    ensures if o.clean then forall k | 0 <= k < |kept| :: !Unwanted(kept[k]) else kept == lines[..HeadLength(lines)]
  {
    var head := lines[..HeadLength(lines)];
    kept := Header(o, head);
    WantedFrom(head);
    NothingUnwantedLeft(head);
    hide HeaderFields, Wanted, Unwanted, Unstuff;
    assert kept + ([o.date, PATH] + Map(Unstuff, lines[HeadLength(lines)..])) ==
           kept + [o.date, PATH] + Map(Unstuff, lines[HeadLength(lines)..]);
  }

  /** MAIN: the new Date line and the Path line stand, in this order, directly in front of the blank
      line of every article read for a re-upload. With the filter on, no other header line has the
      key of a Date or a Path. */
  lemma ReuploadHeader(o: Opts, lines: seq<Line>)
    requires o.command.ARTICLE? && !o.proxy && HeadLength(lines) < |lines| && DATE_KEY <= o.date
    ensures var c := Kept(o, lines);
            var n := HeadLength(c);
            && 2 <= n < |c| && c[n - 2] == o.date && c[n - 1] == PATH && c[n] == []
            && c[n..] == Map(Unstuff, lines[HeadLength(lines)..])
            && (o.clean ==> forall k | 0 <= k < n ::
                  (DATE_KEY <= c[k] <==> k == n - 2) && (PATH_KEY <= c[k] <==> k == n - 1))
  {
    var kept := StampedHeader(o, lines);
    var body := Map(Unstuff, lines[HeadLength(lines)..]);
    var c := Kept(o, lines);
    DateAndPathUnwanted(o.date);
    assert PATH_KEY <= PATH && !(DATE_KEY <= PATH) by { DateAndPathUnwanted(PATH); }
    assert body[0] == [];
    hide Kept, Map, Unstuff, Unwanted;
    HeadEnds(kept + [o.date, PATH], body);
    forall k | 0 <= k < |kept|
      ensures c[k] == kept[k] && (o.clean ==> !(DATE_KEY <= c[k]) && !(PATH_KEY <= c[k]))
    {
      DateAndPathUnwanted(kept[k]);
    }
  }

  /** Without a blank line an article gets no new lines; a HEAD reply gets them at its end. */
  lemma HeaderOnly(o: Opts, lines: seq<Line>)
    requires !o.proxy && HeadLength(lines) == |lines|
    ensures o.command.ARTICLE? ==> Kept(o, lines) == Header(o, lines)
    ensures o.command.HEAD? ==> Kept(o, lines) == Header(o, lines) + [o.date, PATH]
  {
    assert lines[..|lines|] == lines;
    assert Header(o, lines) + [] == Header(o, lines);
  }

  /** Mode 4 gives the decoder the bytes the server sent, just if the server stuffed its body
      lines; un-stuffing and re-stuffing doubles any other leading dot. */
  lemma {:induction false} RestuffingRestores(lines: seq<Line>)
    ensures var ybuf := Raw(Map(Stuff, Map(Unstuff, lines)));
            && |ybuf| >= |Raw(lines)|
            && (ybuf == Raw(lines) <==> forall k | 0 <= k < |lines| :: [DOT] <= lines[k] ==> [DOT, DOT] <= lines[k])
  {
    if lines != [] {
      RestuffingRestores(lines[1..]);
      RestuffOne(lines[0]);
      var a, b := Map(Stuff, Map(Unstuff, lines)), Map(Stuff, Map(Unstuff, lines[1..]));
      var s := Stuff(Unstuff(lines[0]));
      assert a == [s] + b && a[1..] == b;
      assert forall k | 1 <= k < |lines| :: lines[k] == lines[1..][k - 1];
      hide Stuff, Unstuff, Map;
      var x, y := Raw(b), Raw(lines[1..]);
      assert Raw(a) == s + CRLF + x && Raw(lines) == lines[0] + CRLF + y;
      hide Raw;
      SameFront(s + CRLF, x, y);
    }
  }

  lemma SameFront(a: seq<byte>, x: seq<byte>, y: seq<byte>)
    ensures a + x == a + y ==> x == y
  {
    assert (a + x)[|a|..] == x && (a + y)[|a|..] == y;
  }

  lemma RestuffOne(line: Line)
    ensures var s := Stuff(Unstuff(line)); |s| >= |line| && (s == line || |s| > |line|)
    ensures Stuff(Unstuff(line)) == line <==> ([DOT] <= line ==> [DOT, DOT] <= line)
  {
    if [DOT, DOT] <= line {
      assert line == [DOT] + line[1..] && line[1..][0] == DOT;
      assert [DOT] <= line[1..];
    }
  }

  // --- the cache file -----------------------------------------------------------------------

  /** Every line followed by LF. */
  function CacheFile(article: seq<Line>): seq<byte> {
    if article == [] then [] else article[0] + [LF] + CacheFile(article[1..])
  }

  /** CacheWriter; None is "nothing written": an empty article, or the file is there already. */
  method CacheWriter(article: seq<Line>, exists_: bool) returns (file: Option<seq<byte>>, wrote: nat)
    ensures file == if article == [] || exists_ then None else Some(CacheFile(article))
    ensures wrote == |file.GetOr([])|
  {
    if |article| == 0 || exists_ { return None, 0; }
    var written := [];
    assert article[0..] == article;
    for k := 0 to |article|
      invariant written + CacheFile(article[k..]) == CacheFile(article)
    {
      assert article[k..][1..] == article[k + 1..];
      assert written + (article[k] + [LF] + CacheFile(article[k + 1..])) ==
          written + (article[k] + [LF]) + CacheFile(article[k + 1..]);
      written := written + (article[k] + [LF]);
    }
    assert written + [] == written;
    file, wrote := Some(written), |written|;
  }

  /** CacheReader; None for a missing or empty file. */
  function CacheReader(file: Option<seq<byte>>): Option<seq<Line>> {
    if file.None? || file.value == [] then None else Some(Split(LF, file.value[..|file.value| - 1]))
  }

  /** The reader inverts the writer just on articles whose lines have no LF. */
  lemma CacheRoundTrip(article: seq<Line>)
    requires article != []
    ensures CacheReader(Some(CacheFile(article))) == Some(article) <==>
            forall k | 0 <= k < |article| :: OneLine(article[k])
  {
    CacheFileEnds(article);
    hide CacheFile, Split;
    if forall k | 0 <= k < |article| :: OneLine(article[k]) { SplitOfFile(article); }
  }

  lemma {:induction false} CacheFileEnds(article: seq<Line>)
    ensures article != [] ==> CacheFile(article) != [] && CacheFile(article)[|CacheFile(article)| - 1] == LF
  {
    if |article| > 1 { CacheFileEnds(article[1..]); }
  }

  lemma {:induction false} SplitOfFile(article: seq<Line>)
    requires article != [] && forall k | 0 <= k < |article| :: OneLine(article[k])
    ensures CacheFile(article) != [] && Split(LF, CacheFile(article)[..|CacheFile(article)| - 1]) == article
  {
    var line, more := article[0], CacheFile(article[1..]);
    if |article| == 1 {
      assert CacheFile(article)[..|CacheFile(article)| - 1] == line;
      SplitOne(LF, line);
    } else {
      SplitOfFile(article[1..]);
      var rest := more[..|more| - 1];
      assert CacheFile(article)[..|CacheFile(article)| - 1] == line + [LF] + rest;
      SplitCons(LF, line, rest);
      assert [line] + article[1..] == article;
    }
  }

  lemma {:induction false} ReceivedHasNoLf(s: seq<byte>)
    ensures Received(s).Some? ==> forall k | 0 <= k < |Received(s).value.0| :: OneLine(Received(s).value.0[k])
    decreases |s|
  {
    ReadShrinks(s);
    if ReadLine(s).Some? { ReceivedHasNoLf(ReadLine(s).value.1); }
  }

  lemma {:induction false} WantedAreLines(head: seq<Line>)
    requires forall k | 0 <= k < |head| :: OneLine(head[k])
    ensures forall k | 0 <= k < |Wanted(HeaderFields(head))| :: OneLine(Wanted(HeaderFields(head))[k])
    decreases |head|
  {
    hide Wanted, HeaderFields, Unwanted;
    if head == [] {
      NoFields(Opts(HEAD, true, true, []));
    } else {
      var n := WantedFirst(head);
      WantedAreLines(head[n..]);
    }
  }

  lemma UnstuffedAreLines(lines: seq<Line>)
    requires forall k | 0 <= k < |lines| :: OneLine(lines[k])
    ensures forall k | 0 <= k < |lines| :: OneLine(Map(Unstuff, lines)[k])
    ensures |Map(Unstuff, lines)| == |lines|
  {
    forall k | 0 <= k < |lines|
      ensures OneLine(Map(Unstuff, lines)[k])
    {
      assert OneLine(lines[k]) && Map(Unstuff, lines)[k] == Unstuff(lines[k]);
    }
  }

  lemma KeptHasNoLf(o: Opts, lines: seq<Line>)
    requires OneLine(o.date) && forall k | 0 <= k < |lines| :: OneLine(lines[k])
    ensures forall k | 0 <= k < |Kept(o, lines)| :: OneLine(Kept(o, lines)[k])
  {
    var h := HeadLength(lines);
    WantedAreLines(lines[..h]);
    assert forall k | 0 <= k < |Header(o, lines[..h])| :: OneLine(Header(o, lines[..h])[k]);
    assert OneLine(PATH);
    UnstuffedAreLines(lines);
    UnstuffedAreLines(lines[h..]);
    hide Header, Map, HeadLength, OneLine;
  }

  /** Download, cache, re-upload: what was read from any server is what the cache gives back,
      and what is then sent arrives as the same body. */
  lemma CachedReupload(s: seq<byte>, o: Opts, rest: seq<byte>)
    requires OneLine(o.date) && Received(s).Some? && Kept(o, Received(s).value.0) != []
    ensures var article := Kept(o, Received(s).value.0);
            && CacheReader(Some(CacheFile(article))) == Some(article)
            && Received(Wire(article) + rest) == Some((Map(Stuff, article), rest))
            && Map(Unstuff, Map(Stuff, article)) == article
  {
    ReceivedHasNoLf(s);
    KeptHasNoLf(o, Received(s).value.0);
    var article := Kept(o, Received(s).value.0);
    CacheRoundTrip(article);
    WireIsUnambiguous(article, rest);
    Unstuffed(article);
  }
}
