/** The streaming decoder of rapidyenc/decoder.go on its line path. */
module StreamDecoder {
  // Format detection, UU text, the article end, and the buffered Read loop around them. The
  // decoder of yEnc bodies (DecodeIncremental) is not part of this model: a "=ybegin " line ends
  // the run with the verdict YencBody.

  import opened Bytes
  import opened Wrappers
  import UuCodec

  datatype Format = Unknown | YencFormat | UuFormat

  datatype Verdict =
    | EndOfFile       // io.EOF: the normal end
    | DataMissing
    | DataCorruption
    | ShortSrc        // transform.ErrShortSrc
    | YencBody

  /** The fields that lines change. */
  datatype Fields = Fields(format: Format, begin: bool, body: bool, end: bool)

  const Fresh := Fields(Unknown, false, false, false)

  const YBEGIN: seq<byte> := [61, 121, 98, 101, 103, 105, 110, 32]   // "=ybegin "
  const FINAL: seq<byte> := [DOT, CR, LF]

  /** The stream starts with the final dot. */
  predicate IsFinal(s: seq<byte>) { |s| >= 3 && s[0] == DOT && s[1] == CR && s[2] == LF }

  function DetectFormat(line: seq<byte>): Format {
    if YBEGIN <= line then YencFormat
    else if |line| >= 1 && line[0] == 77 &&
            ((|line| == 63 && (line[62] == LF || line[62] == CR)) ||
             (|line| == 62 && (line[61] == LF || line[61] == CR))) then UuFormat
    else if UuCodec.BEGIN <= line && |line| >= 9 && (forall i | 6 <= i < 9 :: 48 <= line[i] <= 55)
            && |line| > 9 && line[9] == SPACE then UuFormat
    else Unknown
  }

  /** One line of a stream whose format is not yEnc. */
  function ProcessLine(d: Fields, line: seq<byte>): (Fields, seq<byte>) {
    var f := if d.format.Unknown? then d.(format := DetectFormat(line)) else d;
    if !f.format.UuFormat? then (f, [])
    else
      var g := if UuCodec.BEGIN <= line then f.(begin := true, body := true)
               else if line == UuCodec.END_LINE then f.(end := true, body := false)
               else f;
      (g, if g.body && !(UuCodec.BEGIN <= line) && !(UuCodec.END <= line) then UuCodec.DecodeLine(line) else [])
  }

  function EndVerdict(d: Fields): Verdict {
    if !d.begin then DataMissing
    else if !d.end then (if d.format.UuFormat? then DataCorruption else DataMissing)
    else EndOfFile
  }

  /** Index of the first CRLF. */
  function IndexCrlf(s: seq<byte>): Option<nat> {
    if |s| < 2 then None
    else if s[0] == CR && s[1] == LF then Some(0)
    else match IndexCrlf(s[1..]) case None => None case Some(i) => Some(i + 1)
  }

  predicate CrlfAt(s: seq<byte>, k: nat) { k + 1 < |s| && s[k] == CR && s[k + 1] == LF }

  lemma {:induction false} IndexCrlfIs(s: seq<byte>)
    ensures match IndexCrlf(s)
            case None => forall k: nat :: !CrlfAt(s, k)
            case Some(i) => CrlfAt(s, i) && forall k: nat | k < i :: !CrlfAt(s, k)
  {
    if |s| >= 2 {
      IndexCrlfIs(s[1..]);
      assert forall k: nat | k > 0 :: CrlfAt(s, k) <==> CrlfAt(s[1..], k - 1);
    }
  }

  // --- the reference: the whole stream at once --------------------------------------------

  datatype Outcome = Outcome(out: seq<byte>, verdict: Verdict)

  /** What a stream decodes to with buffers of `cap` bytes: line by line up to the final dot,
      the end of the stream or a line that does not fit. A `prompt` reader reports the end
      together with its last bytes; it matters just if those leave the buffer full (see Edge). */
  function Whole(d: Fields, s: seq<byte>, cap: nat, prompt: bool): Outcome
    decreases |s|
  {
    if IsFinal(s) then Outcome([], if cap >= 3 then EndVerdict(d) else ShortSrc)
    else
      match IndexCrlf(s)
      case None => Outcome([], if |s| > cap || (|s| == cap && !prompt) then ShortSrc else EndVerdict(d))
      case Some(i) =>
        IndexCrlfIs(s);
        if i + 2 > cap then Outcome([], ShortSrc)
        else
          var (e, o) := ProcessLine(d, s[..i + 2]);
          if e.format.YencFormat? then Outcome([], YencBody)
          else var r := Whole(e, s[i + 2..], cap, prompt); r.(out := o + r.out)
  }

  /** What Transform does with one buffer. */
  datatype Scanned = Scanned(d: Fields, out: seq<byte>, used: nat, stop: Option<Verdict>)

  function Scan(d: Fields, s: seq<byte>): (r: Scanned)
    ensures r.used <= |s|
    decreases |s|
  {
    if IsFinal(s) then Scanned(d, [], 3, Some(EndVerdict(d)))
    else
      match IndexCrlf(s)
      case None => Scanned(d, [], 0, None)
      case Some(i) =>
        IndexCrlfIs(s);
        var (e, o) := ProcessLine(d, s[..i + 2]);
        if e.format.YencFormat? then Scanned(e, o, i + 2, Some(YencBody))
        else var r := Scan(e, s[i + 2..]); Scanned(r.d, o + r.out, i + 2 + r.used, r.stop)
  }

  lemma IndexPrefix(s: seq<byte>, t: seq<byte>)
    ensures IndexCrlf(s).Some? ==> IndexCrlf(s + t) == IndexCrlf(s)
    ensures IndexCrlf(s).None? && IndexCrlf(s + t).Some? ==> IndexCrlf(s + t).value + 2 > |s|
  {
    IndexCrlfIs(s);
    IndexCrlfIs(s + t);
    assert forall k: nat | k + 1 < |s| :: CrlfAt(s, k) <==> CrlfAt(s + t, k);
  }

  /** A buffer and what follows it: scanning the buffer first changes nothing. */
  lemma {:induction false} ScanThenRest(d: Fields, buf: seq<byte>, rest: seq<byte>, cap: nat, prompt: bool)
    requires |buf| <= cap && cap >= 1
    ensures var r := Scan(d, buf);
            Agree(r, Whole(d, buf + rest, cap, prompt), Whole(r.d, buf[r.used..] + rest, cap, prompt))
    decreases |buf|
  {
    hide Whole, Scan, ProcessLine;
    if IsFinal(buf) || IndexCrlf(buf).None? {
      NoLine(d, buf, rest, cap, prompt);
    } else {
      hide IsFinal, IndexCrlf;
      var i := IndexCrlf(buf).value;
      OneLine(d, buf, rest, cap, i, prompt);
      var (e, o) := ProcessLine(d, buf[..i + 2]);
      if !e.format.YencFormat? {
        ScanThenRest(e, buf[i + 2..], rest, cap, prompt);
        var r := Scan(e, buf[i + 2..]);
        assert buf[i + 2..][r.used..] == buf[i + 2 + r.used..];
        AgreePrepend(o, i + 2, r, Whole(e, buf[i + 2..] + rest, cap, prompt),
            Whole(r.d, buf[i + 2 + r.used..] + rest, cap, prompt));
      }
    }
  }

  lemma NoLine(d: Fields, buf: seq<byte>, rest: seq<byte>, cap: nat, prompt: bool)
    requires |buf| <= cap && (IsFinal(buf) || IndexCrlf(buf).None?)
    ensures var r := Scan(d, buf);
            Agree(r, Whole(d, buf + rest, cap, prompt), Whole(r.d, buf[r.used..] + rest, cap, prompt))
  {
    if IsFinal(buf) {
      assert IsFinal(buf + rest);
    } else {
      assert buf[0..] == buf;
      assert [] + Whole(d, buf + rest, cap, prompt).out == Whole(d, buf + rest, cap, prompt).out;
    }
  }

  lemma NoYencOutput(d: Fields, line: seq<byte>)
    ensures var (e, o) := ProcessLine(d, line); e.format.YencFormat? ==> o == []
  {}

  lemma OneLine(d: Fields, buf: seq<byte>, rest: seq<byte>, cap: nat, i: nat, prompt: bool)
    requires |buf| <= cap && !IsFinal(buf) && IndexCrlf(buf) == Some(i)
    ensures i + 2 <= |buf|
    ensures var (e, o) := ProcessLine(d, buf[..i + 2]);
            if e.format.YencFormat?
            then Whole(d, buf + rest, cap, prompt) == Outcome([], YencBody)
                 && Scan(d, buf) == Scanned(e, [], i + 2, Some(YencBody)) && o == []
            else var (w, r) := (Whole(e, buf[i + 2..] + rest, cap, prompt), Scan(e, buf[i + 2..]));
                 && Whole(d, buf + rest, cap, prompt) == w.(out := o + w.out)
                 && Scan(d, buf) == Scanned(r.d, o + r.out, i + 2 + r.used, r.stop)
  {
    hide ProcessLine, IndexCrlf, IsFinal, CrlfAt;
    LineInBuffer(buf, rest, i);
    NoYencOutput(d, buf[..i + 2]);
    var all := buf + rest;
    assert all[..i + 2] == buf[..i + 2] && all[i + 2..] == buf[i + 2..] + rest;
  }

  lemma LineInBuffer(buf: seq<byte>, rest: seq<byte>, i: nat)
    requires !IsFinal(buf) && IndexCrlf(buf) == Some(i)
    ensures i + 2 <= |buf| && !IsFinal(buf + rest) && IndexCrlf(buf + rest) == Some(i)
  {
    IndexPrefix(buf, rest);
    IndexCrlfIs(buf);
    hide IndexCrlf;
    assert CrlfAt(buf, i) && forall k | 0 <= k < |buf| :: (buf + rest)[k] == buf[k];
  }

  /** `w` is the whole, `v` what follows the scanned part. */
  predicate Agree(r: Scanned, w: Outcome, v: Outcome) {
    w == if r.stop.Some? then Outcome(r.out, r.stop.value) else v.(out := r.out + v.out)
  }

  lemma AgreePrepend(o: seq<byte>, n: nat, r: Scanned, w: Outcome, v: Outcome)
    requires Agree(r, w, v)
    ensures Agree(Scanned(r.d, o + r.out, n + r.used, r.stop), w.(out := o + w.out), v)
  {
    assert o + (r.out + v.out) == o + r.out + v.out;
  }

  /** A full buffer without a complete line: the stream has a line that does not fit. */
  lemma LineTooLong(d: Fields, buf: seq<byte>, rest: seq<byte>, cap: nat, prompt: bool)
    requires |buf| == cap >= 1 && Scan(d, buf).stop.None? && Scan(d, buf).used == 0
    ensures rest != [] || !prompt ==> Whole(d, buf + rest, cap, prompt) == Outcome([], ShortSrc)
  {
    IndexPrefix(buf, rest);
    RestIsOpen(d, buf);
    assert buf[0..] == buf;
    assert rest == [] ==> buf + rest == buf;
  }

  lemma {:induction false} RestIsOpen(d: Fields, s: seq<byte>)
    requires Scan(d, s).stop.None?
    ensures var r := Scan(d, s); !IsFinal(s[r.used..]) && IndexCrlf(s[r.used..]).None?
    decreases |s|
  {
    if !IsFinal(s) && IndexCrlf(s).Some? {
      var i := IndexCrlf(s).value;
      OneLine(d, s, [], |s|, i, false);
      var e := ProcessLine(d, s[..i + 2]).0;
      RestIsOpen(e, s[i + 2..]);
      assert s[i + 2..][Scan(e, s[i + 2..]).used..] == s[Scan(d, s).used..];
    } else {
      assert s[0..] == s;
    }
  }

  /** At the end of the stream nothing more comes. */
  lemma AtEnd(d: Fields, s: seq<byte>, cap: nat, prompt: bool)
    requires |s| <= cap && cap >= 1 && (prompt || |s| < cap)
    ensures var r := Scan(d, s);
            Whole(d, s, cap, prompt) == Outcome(r.out, if r.stop.Some? then r.stop.value else EndVerdict(r.d))
  {
    ScanThenRest(d, s, [], cap, prompt);
    assert s + [] == s;
    var r := Scan(d, s);
    if r.stop.None? {
      assert s[r.used..] + [] == s[r.used..];
      RestIsOpen(d, s);
      assert r.out + [] == r.out;
    }
  }

  lemma {:induction false} StopNotShort(d: Fields, s: seq<byte>)
    ensures Scan(d, s).stop != Some(ShortSrc)
    decreases |s|
  {
    if !IsFinal(s) && IndexCrlf(s).Some? {
      var i := IndexCrlf(s).value;
      OneLine(d, s, [], |s|, i, false);
      StopNotShort(ProcessLine(d, s[..i + 2]).0, s[i + 2..]);
    }
  }

  lemma AssocOut(a: seq<byte>, b: seq<byte>, c: seq<byte>)
    ensures a + (b + c) == a + b + c
  {}

  lemma SplitOut(a: seq<byte>, b: seq<byte>, n: nat)
    requires n <= |b|
    ensures a + b == a + b[..n] + b[n..]
    ensures n == |b| ==> a + b == a + b[..n]
  {}

  /** The reader reports the end together with the last bytes: `eager` readers do so with their
      last chunk, if it is not empty. */
  predicate Prompt(chunks: seq<seq<byte>>, eager: bool) { eager && chunks != [] && chunks[|chunks| - 1] != [] }

  lemma FlatOfNone(input: seq<seq<byte>>, eager: bool)
    ensures input == [] ==> Flat(input) == []
    ensures Flat(input) == [] ==> !Prompt(input, eager)
  {
    if input != [] {
      var front, last := input[..|input| - 1], input[|input| - 1];
      assert input == front + [last];
      FlatAppend(front, [last]);
      assert [last][1..] == [] && Flat([last]) == last + [];
    }
  }

  /** The verdict of one Transform. */
  function Judge(r: Scanned, atEOF: bool): Verdict {
    if r.stop.Some? then r.stop.value else if atEOF then EndVerdict(r.d) else ShortSrc
  }

  /** Read goes on: the whole is this part and the rest. */
  lemma Continues(d: Fields, buf: seq<byte>, rest: seq<byte>, cap: nat, atEOF: bool, e: Verdict, prompt: bool)
    requires |buf| <= cap && cap >= 1 && !atEOF
    requires e == Judge(Scan(d, buf), atEOF) == ShortSrc
    ensures var r := Scan(d, buf);
            var v := Whole(r.d, buf[r.used..] + rest, cap, prompt);
            Whole(d, buf + rest, cap, prompt) == v.(out := r.out + v.out)
  {
    StopNotShort(d, buf);
    ScanThenRest(d, buf, rest, cap, prompt);
  }

  /** Read is done: the whole is this part with this verdict. */
  lemma Settles(d: Fields, buf: seq<byte>, rest: seq<byte>, cap: nat, atEOF: bool, e: Verdict, prompt: bool)
    requires |buf| <= cap && cap >= 1
    requires if atEOF then rest == [] && (prompt || |buf| < cap) else rest == [] ==> !prompt
    requires e == Judge(Scan(d, buf), atEOF)
    requires e == ShortSrc && !atEOF ==> |buf| - Scan(d, buf).used == cap
    ensures Whole(d, buf + rest, cap, prompt) == Outcome(Scan(d, buf).out, e)
  {
    StopNotShort(d, buf);
    if atEOF {
      assert buf + rest == buf;
      AtEnd(d, buf, cap, prompt);
    } else if Scan(d, buf).stop.Some? {
      ScanThenRest(d, buf, rest, cap, prompt);
    } else {
      LineTooLong(d, buf, rest, cap, prompt);
    }
  }

  // --- the decoder object -------------------------------------------------------------------

  /** What is left of a reader's chunks, and how many reads it can still take. */
  function Size(input: seq<seq<byte>>): nat {
    if input == [] then 0 else 1 + |input[0]| + Size(input[1..])
  }

  /** Copies data into buf from `at` on; there is room, so nothing is cut off. */
  method CopyTo(buf: array<byte>, at: nat, data: seq<byte>)
    requires at + |data| <= buf.Length
    modifies buf
    ensures buf[..at + |data|] == old(buf[..at]) + data
  {
    for k := 0 to |data|
      invariant buf[..at + k] == old(buf[..at]) + data[..k]
    {
      buf[at + k] := data[k];
      assert buf[..at + k + 1] == buf[..at + k] + [data[k]];
    }
    assert data[..|data|] == data;
  }

  /** bytes.Index(s, CRLF), or -1. */
  method FindCrlf(s: seq<byte>) returns (at: int)
    ensures IndexCrlf(s) == if at < 0 then None else Some(at)
  {
    at := 0;
    IndexCrlfIs(s);
    while at + 1 < |s|
      invariant 0 <= at && (at > 0 ==> at < |s|)
      invariant forall k: nat | k < at :: !CrlfAt(s, k)
    {
      if s[at] == CR && s[at + 1] == LF {
        assert CrlfAt(s, at);
        return;
      }
      assert !CrlfAt(s, at);
      at := at + 1;
    }
    at := -1;
  }

  /** A line decodes to fewer bytes than it has, so `copy` into dst never truncates. */
  lemma LineShrinks(d: Fields, line: seq<byte>)
    requires |line| >= 2 && line[|line| - 2..] == CRLF
    ensures |ProcessLine(d, line).1| <= |line|
  {
    if UuCodec.Strip(line) != [] { UuCodec.DecodedLength(line); }
  }

  const CONST_BUF_SIZE: nat := 4096

  /** The size of both buffers that NewDecoder makes. */
  function BufSize(bufSize: int): nat { if bufSize <= 0 then CONST_BUF_SIZE else bufSize }

  class Decoder {
    // the reader: chunks to come; `eager` readers report the end together with the last bytes
    var input: seq<seq<byte>>
    const eager: bool

    var format: Format
    var begin: bool
    var body: bool
    var end: bool
    var err: Option<Verdict>
    const dst: array<byte>
    const src: array<byte>
    var dst0: nat
    var dst1: nat
    var src0: nat
    var src1: nat
    var transformComplete: bool

    ghost var delivered: seq<byte>   // everything Read has handed out
    ghost const goal: Outcome        // what the stream decodes to
    ghost const prompt: bool         // the end comes with the last bytes

    function D(): Fields
      reads this`format, this`begin, this`body, this`end
    {
      Fields(format, begin, body, end)
    }

    ghost predicate Buffers()
      reads this, src, dst
    {
      && src != dst && src.Length == dst.Length >= 1
      && dst0 <= dst1 <= dst.Length && src0 <= src1 <= src.Length
      && (err.None? ==> prompt == Prompt(input, eager))
      && (err.Some? && !transformComplete ==>
         err.value.EndOfFile? && input == [] && (prompt || src1 - src0 < src.Length))
    }

    /** What the unread part decodes to. */
    ghost function Left(): Outcome
      requires src0 <= src1 <= src.Length
      reads this`format, this`begin, this`body, this`end, this`input, this`src0, this`src1, src
    {
      Whole(D(), src[src0..src1] + Flat(input), src.Length, prompt)
    }

    ghost function Waiting(): seq<byte>
      requires dst0 <= dst1 <= dst.Length
      reads this`dst0, this`dst1, dst
    {
      dst[dst0..dst1]
    }

    /** What is delivered, what waits in dst and what the unread part decodes to make up the goal. */
    ghost predicate OnTrack()
      requires Buffers()
      reads this, src, dst
    {
      if transformComplete
      then err == Some(goal.verdict) && delivered + Waiting() == goal.out
      else Left().verdict == goal.verdict && delivered + Waiting() + Left().out == goal.out
    }

    ghost predicate Valid()
      reads this, src, dst
    {
      Buffers() && OnTrack()
    }

    constructor (chunks: seq<seq<byte>>, eager: bool, bufSize: int)
      ensures Valid() && delivered == []
      ensures goal == Whole(Fresh, Flat(chunks), BufSize(bufSize), Prompt(chunks, eager))
      ensures fresh(src) && fresh(dst)
    {
      input, this.eager := chunks, eager;
      format, begin, body, end, err := Unknown, false, false, false, None;
      var size := BufSize(bufSize);
      dst, src := new byte[size], new byte[size];
      dst0, dst1, src0, src1, transformComplete := 0, 0, 0, 0, false;
      prompt := Prompt(chunks, eager);
      delivered, goal := [], Whole(Fresh, Flat(chunks), BufSize(bufSize), Prompt(chunks, eager));
      new;
      assert src[0..0] + Flat(chunks) == Flat(chunks);
    }

    /** The clamps; on indices in range they change nothing. */
    method ClampDst()
      modifies this`dst0, this`dst1
      ensures old(dst0) <= old(dst1) <= dst.Length ==> dst0 == old(dst0) && dst1 == old(dst1)
      ensures dst0 <= dst1 <= dst.Length
    {
      if dst1 > dst.Length { dst1 := dst.Length; }
      if dst0 > dst1 { dst0 := dst1; }
    }

    method ClampSrc()
      modifies this`src0
      ensures old(src0) <= src1 ==> src0 == old(src0)
      ensures src0 <= src1
    {
      if src0 > src1 { src0 := src1; }
    }

    /** One line; the decoded bytes go to dst[nDst..]. */
    method HandleLine(line: seq<byte>, nDst: nat) returns (n: nat, stop: bool)
      requires |line| >= 2 && line[|line| - 2..] == CRLF && nDst + |line| <= dst.Length
      modifies this`format, this`begin, this`body, this`end, dst
      ensures var (e, o) := ProcessLine(old(D()), line);
              && D() == e && stop == e.format.YencFormat? && n == nDst + |o|
              && n <= dst.Length && dst[..n] == old(dst[..nDst]) + o
    {
      n, stop := nDst, false;
      LineShrinks(D(), line);
      if format.Unknown? { format := DetectFormat(line); }
      if format.YencFormat? { return nDst, true; }
      if format.UuFormat? {
        if HasPrefix(line, UuCodec.BEGIN) {
          begin, body := true, true;
        } else if line == UuCodec.END_LINE {
          end, body := true, false;
        }
        if body && !HasPrefix(line, UuCodec.BEGIN) && !HasPrefix(line, UuCodec.END) {
          var decoded := UuCodec.UUdecode(line);
          CopyTo(dst, nDst, decoded);
          n := nDst + |decoded|;
        }
      }
    }

    /** Transforms src[src0..src1] into dst[..nDst]; ShortSrc asks for more input. */
    method Transform(atEOF: bool) returns (nDst: nat, nSrc: nat, e: Verdict)
      requires Buffers()
      modifies this`format, this`begin, this`body, this`end, dst
      ensures var r := Scan(old(D()), old(src[src0..src1]));
              && D() == r.d && nDst <= dst.Length && dst[..nDst] == r.out && nSrc == r.used
              && e == Judge(r, atEOF)
    {
      nDst, nSrc := 0, 0;
      var s := src[src0..src1];
      ghost var d0 := D();
      assert s[0..] == s && [] + Scan(d0, s).out == Scan(d0, s).out;
      var next := Line;
      while next.Line?
        invariant nDst <= nSrc <= |s| <= dst.Length
        invariant match next
                  case Line => Behind(dst[..nDst], nSrc, Scan(D(), s[nSrc..])) == Scan(d0, s)
                  case Short => Scanned(D(), dst[..nDst], nSrc, None) == Scan(d0, s)
                  case Stop(v) => Scanned(D(), dst[..nDst], nSrc, Some(v)) == Scan(d0, s)
        decreases next.Line?, |s| - nSrc
      {
        nDst, nSrc, next := NextLine(s, nDst, nSrc);
      }
      e := match next case Stop(v) => v case _ => if atEOF then EndVerdict(D()) else ShortSrc;
    }

    /** One round of Transform's loop. */
    method NextLine(s: seq<byte>, nDst: nat, nSrc: nat) returns (n: nat, m: nat, next: Next)
      requires nDst <= nSrc <= |s| <= dst.Length
      modifies this`format, this`begin, this`body, this`end, dst
      ensures n <= m <= |s|
      ensures var r := Behind(old(dst[..nDst]), nSrc, Scan(old(D()), s[nSrc..]));
              match next
              case Line => m > nSrc && Behind(dst[..n], m, Scan(D(), s[m..])) == r
              case Short => Scanned(D(), dst[..n], m, None) == r
              case Stop(v) => Scanned(D(), dst[..n], m, Some(v)) == r
    {
      ghost var front := dst[..nDst];
      var look := Peek(s[nSrc..]);
      if look == -2 {
        StopBehind(front, nSrc, D(), s);
        return nDst, nSrc + 3, Stop(EndVerdict(D()));
      }
      if look == -1 {
        StopBehind(front, nSrc, D(), s);
        return nDst, nSrc, Short;
      }
      n, m, next := TakeLine(s, nDst, nSrc, look);
    }

    method TakeLine(s: seq<byte>, nDst: nat, nSrc: nat, at: nat) returns (n: nat, m: nat, next: Next)
      requires nDst <= nSrc && nSrc + at + 2 <= |s| <= dst.Length && CrlfAt(s[nSrc..], at)
      requires !IsFinal(s[nSrc..]) && IndexCrlf(s[nSrc..]) == Some(at)
      modifies this`format, this`begin, this`body, this`end, dst
      ensures n <= m == nSrc + at + 2
      ensures !next.Short?
      ensures var r := Behind(old(dst[..nDst]), nSrc, Scan(old(D()), s[nSrc..]));
              r == if next.Line? then Behind(dst[..n], m, Scan(D(), s[m..]))
                   else Scanned(D(), dst[..n], m, Some(next.v))
    {
      hide ProcessLine, Scan, IndexCrlf, IsFinal, Behind;
      var line := s[nSrc..][..at + 2];
      assert line[|line| - 2..] == CRLF;
      ghost var d, front := D(), dst[..nDst];
      LineShrinks(d, line);
      var stop;
      n, stop := HandleLine(line, nDst);
      m := nSrc + at + 2;
      StepBehind(front, nSrc, d, s, at);
      next := if stop then Stop(YencBody) else Line;
    }

    /** Moves the unread source bytes to the front of the buffer. */
    method Compact()
      requires Buffers()
      modifies this`src0, this`src1, src
      ensures Buffers() && src0 == 0 && src[..src1] == old(src[src0..src1])
    {
      var lo, n := src0, src1 - src0;
      ghost var was := src[..];
      for k := 0 to n
        invariant src[..k] == was[lo..lo + k] && src[lo + k..] == was[lo + k..]
      {
        assert src[lo + k] == src[lo + k..][0] == was[lo + k];
        assert src[lo + k + 1..] == src[lo + k..][1..] == was[lo + k + 1..];
        Put(src, k, lo + k, src[lo + k]);
        assert was[lo..lo + k + 1] == was[lo..lo + k] + [was[lo + k]];
      }
      src0, src1 := 0, n;
    }

    /** What of a chunk fits goes behind the unread bytes. */
    method Fill(chunk: seq<byte>) returns (n: nat)
      requires src0 <= src1 < src.Length
      modifies this`src1, src
      ensures n == UuCodec.Min(|chunk|, src.Length - old(src1)) && src1 == old(src1) + n
      ensures src[src0..src1] == old(src[src0..src1]) + chunk[..n]
    {
      var room := src.Length - src1;
      n := if |chunk| <= room then |chunk| else room;
      ghost var before := src[..src1];
      CopyTo(src, src1, chunk[..n]);
      assert src[src0..src1 + n] == src[..src1 + n][src0..];
      assert (before + chunk[..n])[src0..] == before[src0..] + chunk[..n];
      src1 := src1 + n;
    }

    /** d.r.Read(d.src[d.src1:]) */
    method ReadSource()
      requires Buffers() && err.None? && src1 < src.Length && !transformComplete
      modifies this`input, this`err, this`src1, src
      ensures Buffers() && src[src0..src1] + Flat(input) == old(src[src0..src1] + Flat(input))
      ensures Size(input) < old(Size(input)) || err == Some(EndOfFile)
    {
      if input == [] {
        err := Some(EndOfFile);
        return;
      }
      var chunk := input[0];
      ghost var was := src[src0..src1];
      var n := Fill(chunk);
      hide Flat, Size;
      SplitChunk(was, chunk, n, input[1..]);
      input := if n == |chunk| then input[1..] else [chunk[n..]] + input[1..];
      if eager && input == [] { err := Some(EndOfFile); }
    }

    /** Moves what is unread to the front and reads more. */
    method Refill()
      requires Valid() && !transformComplete && err.None? && src1 - src0 < src.Length
      modifies this`src0, this`src1, this`input, this`err, src
      ensures Valid()
      ensures Size(input) < old(Size(input)) || err.Some?
    {
      hide Whole, Scan, Flat, Size;
      ghost var buf, w := src[src0..src1], Left();
      if src0 != 0 {
        ClampSrc();
        Compact();
        assert src[src0..src1] == buf;
      }
      ReadSource();
      assert Left() == w;
    }

    /** Transform with the bookkeeping of its results. */
    method TransformBuffer(atEOF: bool) returns (e: Verdict)
      requires Buffers()
      modifies this`format, this`begin, this`body, this`end, this`dst0, this`dst1, this`src0, dst
      ensures Buffers()
      ensures var r := Scan(old(D()), old(src[src0..src1]));
              && D() == r.d && Waiting() == r.out && e == Judge(r, atEOF)
              && src[src0..src1] == old(src[src0..src1])[r.used..]
    {
      hide Scan, Judge, Left;
      ghost var buf := src[src0..src1];
      dst0 := 0;
      var nDst, nSrc;
      nDst, nSrc, e := Transform(atEOF);
      assert |Scan(old(D()), buf).out| == nDst && nSrc <= |buf|;
      dst1 := nDst;
      src0 := src0 + nSrc;
      ClampSrc();
    }

    /** ... and the switch after it; `more` asks to read more source bytes. */
    method TransformAndJudge(atEOF: bool) returns (e: Verdict, more: bool)
      requires Buffers() && !transformComplete && atEOF == err.Some?
      modifies this`format, this`begin, this`body, this`end, this`dst0, this`dst1, this`src0, dst
      ensures Buffers()
      ensures more ==> !atEOF && src1 - src0 < src.Length && old(Left()) == Left().(out := Waiting() + Left().out)
      ensures !more ==> old(Left()) == Outcome(Waiting(), e)
    {
      hide Whole, Scan, Flat, Judge;
      FlatOfNone(input, eager);
      ghost var d, buf, rest := D(), src[src0..src1], Flat(input);
      e := TransformBuffer(atEOF);
      more := e == ShortSrc && src1 - src0 != src.Length && err.None?;
      if more {
        Continues(d, buf, rest, src.Length, atEOF, e, prompt);
      } else {
        Settles(d, buf, rest, src.Length, atEOF, e, prompt);
      }
    }

    method Advance() returns (more: bool)
      requires Valid() && !transformComplete && dst0 == dst1
      modifies this`format, this`begin, this`body, this`end, this`err,
               this`dst0, this`dst1, this`src0, this`transformComplete, dst
      ensures Valid()
      ensures more ==> !transformComplete && err == old(err) == None && src1 - src0 < src.Length
      ensures !more ==> transformComplete
    {
      hide Left;
      assert delivered + Waiting() == delivered;
      var e;
      e, more := TransformAndJudge(err == Some(EndOfFile));
      if more {
        AssocOut(delivered, Waiting(), Left().out);
      } else {
        transformComplete := true;
        err := Some(e);
      }
    }

    /** Copies out what is waiting in dst. */
    method HandOver(p: array<byte>) returns (n: nat, e: Option<Verdict>)
      requires Valid() && p != src && p != dst && dst0 < dst1
      modifies this`dst0, this`delivered, p
      ensures Valid() && n <= p.Length && delivered == old(delivered) + p[..n]
      ensures e.Some? ==> e.value == goal.verdict && delivered == goal.out
      ensures e.None? && p.Length > 0 ==> n > 0
    {
      hide Left;
      n := if p.Length < dst1 - dst0 then p.Length else dst1 - dst0;
      var waiting := dst[dst0..dst1];
      CopyTo(p, 0, waiting[..n]);
      assert p[..0] == [] && [] + waiting[..n] == waiting[..n];
      delivered := delivered + waiting[..n];
      dst0 := dst0 + n;
      SplitOut(old(delivered), waiting, n);
      assert Waiting() == waiting[n..];
      hide Whole;
      e := if dst0 == dst1 && transformComplete then err else None;
    }

    /** Read: hands out the next bytes. Whatever the chunks and the sizes asked for, what was
        handed out is a prefix of the goal, and a verdict comes with all of it. */
    method Read(p: array<byte>) returns (n: nat, e: Option<Verdict>)
      requires Valid() && p != src && p != dst
      modifies this, src, dst, p
      ensures Valid() && n <= p.Length && delivered == old(delivered) + p[..n]
      ensures e.Some? ==> e.value == goal.verdict && delivered == goal.out
      ensures e.None? && p.Length > 0 ==> n > 0
    {
      hide Left, Size;
      while true
        invariant Valid() && delivered == old(delivered)
        decreases !transformComplete, err.None?, Size(input)
      {
        ClampDst();
        if dst0 != dst1 {
          n, e := HandOver(p);
          return;
        } else if transformComplete {
          assert delivered + Waiting() == delivered;
          return 0, err;
        }
        if src0 != src1 || err.Some? {
          var more := Advance();
          if !more { continue; }
        }
        Refill();
      }
    }

    /** -2: the final dot; -1: no complete line; else the index of the line's CRLF. */
    method Peek(rest: seq<byte>) returns (look: int)
      ensures look >= -2 && (look == -2 <==> IsFinal(rest))
      ensures look == -1 ==> IndexCrlf(rest).None?
      ensures look >= 0 ==> IndexCrlf(rest) == Some(look) && CrlfAt(rest, look)
    {
      if |rest| >= 3 && rest[0] == DOT && rest[1] == CR && rest[2] == LF { return -2; }
      IndexCrlfIs(rest);
      look := FindCrlf(rest);
      if look < 0 { look := -1; }
    }
  }

  lemma StopBehind(front: seq<byte>, n: nat, d: Fields, s: seq<byte>)
    requires n <= |s|
    ensures IsFinal(s[n..]) ==> Behind(front, n, Scan(d, s[n..])) == Scanned(d, front, n + 3, Some(EndVerdict(d)))
    ensures !IsFinal(s[n..]) && IndexCrlf(s[n..]).None? ==>
            Behind(front, n, Scan(d, s[n..])) == Scanned(d, front, n, None)
  {
    assert front + [] == front;
  }

  datatype Next = Line | Short | Stop(v: Verdict)

  method Put(a: array<byte>, i: nat, keep: nat, b: byte)
    requires i <= keep < a.Length
    modifies a
    ensures a[..i + 1] == old(a[..i]) + [b]
    ensures a[keep + 1..] == old(a[keep + 1..])
  {
    a[i] := b;
  }

  lemma SplitChunk(was: seq<byte>, chunk: seq<byte>, n: nat, more: seq<seq<byte>>)
    requires n <= |chunk|
    ensures was + chunk[..n] + Flat(if n == |chunk| then more else [chunk[n..]] + more) == was + Flat([chunk] + more)
    ensures n < |chunk| || n == 0 < |chunk| ==> Size([chunk[n..]] + more) + n == Size([chunk] + more)
  {
    assert chunk[..n] + chunk[n..] == chunk;
    assert ([chunk] + more)[1..] == more && ([chunk[n..]] + more)[1..] == more;
    assert was + chunk[..n] + (chunk[n..] + Flat(more)) == was + (chunk[..n] + chunk[n..] + Flat(more));
  }

  function Behind(front: seq<byte>, n: nat, r: Scanned): Scanned {
    Scanned(r.d, front + r.out, n + r.used, r.stop)
  }

  lemma StepBehind(front: seq<byte>, n: nat, d: Fields, s: seq<byte>, at: nat)
    requires n <= |s| && !IsFinal(s[n..]) && IndexCrlf(s[n..]) == Some(at)
    ensures n + at + 2 <= |s|
    ensures var (e, o) := ProcessLine(d, s[n..][..at + 2]);
            if e.format.YencFormat?
            then Behind(front, n, Scan(d, s[n..])) == Scanned(e, front + o, n + at + 2, Some(YencBody))
            else Behind(front, n, Scan(d, s[n..])) == Behind(front + o, n + at + 2, Scan(e, s[n + at + 2..]))
  {
    hide Whole, Scan, ProcessLine, IndexCrlf, IsFinal;
    OneLine(d, s[n..], [], |s|, at, false);
    assert front + [] == front;
    assert s[n..][at + 2..] == s[n + at + 2..];
    var (e, o) := ProcessLine(d, s[n..][..at + 2]);
    var r := Scan(e, s[n + at + 2..]);
    assert front + (o + r.out) == front + o + r.out;
  }

  // --- the main results ---------------------------------------------------------------------

  /** readAllDecoded of yencbuf.go. However the reader cuts the stream into chunks, and whatever
      room each Read is given, the bytes and the verdict are those of the whole stream. The one
      thing that can matter is whether the end is reported with the last bytes, and only for the
      streams of Edge. */
  method ReadAllDecoded(chunks: seq<seq<byte>>, eager: bool, bufSize: int)
      returns (out: seq<byte>, verdict: Verdict)
    ensures Outcome(out, verdict) == Whole(Fresh, Flat(chunks), BufSize(bufSize), Prompt(chunks, eager))
  {
    hide Whole, Flat;
    var d := new Decoder(chunks, eager, bufSize);
    ghost var goal := d.goal;
    out := [];
    while true
      invariant d.Valid() && d.delivered == out && d.goal == goal
      invariant fresh(d) && fresh(d.src) && fresh(d.dst)
      decreases |goal.out| - |out|
    {
      var room: nat :| room >= 1;
      var p := new byte[room];
      var n, e := d.Read(p);
      out := out + p[..n];
      if e.Some? { return out, e.value; }
      PrefixOfGoal(d);
    }
  }

  /** What follows the last complete line. */
  function Tail(s: seq<byte>): seq<byte>
    decreases |s|
  {
    match IndexCrlf(s)
    case None => s
    case Some(i) => IndexCrlfIs(s); Tail(s[i + 2..])
  }

  /** Nothing before the tail stops the decoder: no final dot, no line that does not fit, and no
      "=ybegin " line while the format is open. */
  predicate Open(f: Format, s: seq<byte>, cap: nat)
    decreases |s|
  {
    !IsFinal(s) &&
    match IndexCrlf(s)
    case None => true
    case Some(i) =>
      IndexCrlfIs(s);
      var line := s[..i + 2];
      i + 2 <= cap && !(f.Unknown? && YBEGIN <= line)
      && Open(if f.Unknown? then DetectFormat(line) else f, s[i + 2..], cap)
  }

  /** The stream ends in an unfinished line that fills the buffer. */
  predicate Edge(s: seq<byte>, cap: nat) { Open(Unknown, s, cap) && |Tail(s)| == cap }

  lemma {:induction false} FullTail(d: Fields, s: seq<byte>, cap: nat)
    requires !d.format.YencFormat?
    ensures var (w, v) := (Whole(d, s, cap, true), Whole(d, s, cap, false));
            && w.out == v.out
            && if Open(d.format, s, cap) && |Tail(s)| == cap
               then !w.verdict.ShortSrc? && v.verdict.ShortSrc? else w == v
    decreases |s|
  {
    if !IsFinal(s) && IndexCrlf(s).Some? {
      var i := IndexCrlf(s).value;
      IndexCrlfIs(s);
      var e := ProcessLine(d, s[..i + 2]).0;
      assert e.format == if d.format.Unknown? then DetectFormat(s[..i + 2]) else d.format;
      hide ProcessLine, IndexCrlf;
      if !e.format.YencFormat? { FullTail(e, s[i + 2..], cap); }
    }
  }

  /** MAIN: all readers of a stream get the same bytes; they get the same verdict just if the
      stream is not one of Edge. There the prompt reader gets the verdict of an end, any other
      one ErrShortSrc. */
  lemma ReadersAgree(s: seq<byte>, cap: nat)
    ensures var (w, v) := (Whole(Fresh, s, cap, true), Whole(Fresh, s, cap, false));
            && w.out == v.out && (w.verdict == v.verdict <==> !Edge(s, cap))
            && (Edge(s, cap) ==> v.verdict.ShortSrc?)
  {
    FullTail(Fresh, s, cap);
    hide Whole, Open, Tail;
  }

  /** Three bytes for a buffer of three, as one chunk: the two kinds of reader. */
  lemma ReadersDiffer()
    ensures var chunks := [[97, 97, 97]];
            && Edge(Flat(chunks), 3)
            && Whole(Fresh, Flat(chunks), 3, Prompt(chunks, true)) == Outcome([], DataMissing)
            && Whole(Fresh, Flat(chunks), 3, Prompt(chunks, false)) == Outcome([], ShortSrc)
  {
    var chunk: seq<byte> := [97, 97, 97];
    assert Flat([chunk]) == chunk + [] == chunk;
    IndexCrlfIs(chunk);
  }

  lemma PrefixOfGoal(d: Decoder)
    requires d.Valid()
    ensures |d.delivered| <= |d.goal.out|
  {}

  /** What the decoder looks at in a line to tell what it is. */
  predicate LooksLikeData(line: seq<byte>) {
    |line| >= 7 && line[|line| - 2..] == CRLF && 32 <= line[0] <= 77
    && forall k | 0 <= k < |line| - 2 :: 32 <= line[k] <= 95
  }

  lemma DataShape(chunk: seq<byte>)
    requires 0 < |chunk| <= UuCodec.CHUNK
    ensures LooksLikeData(UuCodec.EncodeLine(chunk)) && |UuCodec.EncodeLine(chunk)| <= 63
  {
    UuCodec.LineIsOneLine(chunk);
    UuCodec.GroupsRoundTrip(chunk);
    UuCodec.LengthChar(|chunk|);
    hide UuCodec.EncodeGroups, UuCodec.Bits;
  }

  /** A line that looks like data is one line and not the final dot ... */
  lemma DataIsOneLine(line: seq<byte>, rest: seq<byte>)
    requires LooksLikeData(line)
    ensures IndexCrlf(line + rest) == Some(|line| - 2) && !IsFinal(line + rest)
  {
    assert (line + rest)[1] == line[1];
    OnlyCrlf(line, rest);
  }

  lemma NoKeyword(line: seq<byte>)
    requires LooksLikeData(line)
    ensures !(YBEGIN <= line) && !(UuCodec.BEGIN <= line) && !(UuCodec.END <= line)
  {
    assert line[0] != 98 && line[0] != 101 && line[1] != 121;
    assert YBEGIN[1] == 121 && UuCodec.BEGIN[0] == 98 && UuCodec.END[0] == 101;
  }

  /** ... and is never taken for a begin, end or "=ybegin " line. */
  lemma DataIsPlain(d: Fields, line: seq<byte>)
    requires LooksLikeData(line) && !d.format.YencFormat?
    ensures var (e, o) := ProcessLine(d, line);
            && !e.format.YencFormat? && e == d.(format := e.format) && (d.format.UuFormat? ==> e == d)
            && o == if e.format.UuFormat? && d.body then UuCodec.DecodeLine(line) else []
  {
    NoKeyword(line);
    hide UuCodec.DecodeLine;
    assert UuCodec.END <= UuCodec.END_LINE;
  }

  lemma OnlyCrlf(line: seq<byte>, rest: seq<byte>)
    requires |line| >= 2 && line[|line| - 2..] == CRLF && forall k: nat :: CrlfAt(line, k) ==> k == |line| - 2
    ensures IndexCrlf(line + rest) == Some(|line| - 2)
  {
    var all := line + rest;
    IndexCrlfIs(all);
    assert line[|line| - 2] == line[|line| - 2..][0] && line[|line| - 1] == line[|line| - 2..][1];
    assert CrlfAt(all, |line| - 2);
    assert forall k: nat | k < |line| - 2 :: CrlfAt(all, k) ==> CrlfAt(line, k);
  }

  /** One complete line at the front of the stream. */
  lemma LineThenRest(d: Fields, line: seq<byte>, rest: seq<byte>, cap: nat, prompt: bool)
    requires 2 <= |line| <= cap && IndexCrlf(line + rest) == Some(|line| - 2) && !IsFinal(line + rest)
    requires !ProcessLine(d, line).0.format.YencFormat?
    ensures var (e, o) := ProcessLine(d, line);
            var r := Whole(e, rest, cap, prompt);
            Whole(d, line + rest, cap, prompt) == r.(out := o + r.out)
  {
    assert (line + rest)[..|line|] == line && (line + rest)[|line|..] == rest;
    hide ProcessLine, IndexCrlf;
  }

  /** One data line at the front of the stream. */
  lemma DataFirst(d: Fields, chunk: seq<byte>, rest: seq<byte>, cap: nat, prompt: bool) returns (e: Fields)
    requires cap >= 63 && !d.format.YencFormat? && 0 < |chunk| <= UuCodec.CHUNK
    ensures e == d.(format := e.format) && !e.format.YencFormat? && (d.format.UuFormat? ==> e == d)
    ensures var (w, r) := (Whole(d, UuCodec.EncodeLine(chunk) + rest, cap, prompt), Whole(e, rest, cap, prompt));
            && (d.format.UuFormat? && d.body ==> w == r.(out := chunk + r.out))
            && (!d.body ==> w == r)
  {
    hide Whole, ProcessLine, UuCodec.EncodeLine, UuCodec.DecodeLine;
    var line := UuCodec.EncodeLine(chunk);
    DataShape(chunk);
    DataIsOneLine(line, rest);
    DataIsPlain(d, line);
    UuCodec.LineRoundTrip(chunk);
    LineThenRest(d, line, rest, cap, prompt);
    e := ProcessLine(d, line).0;
    var r := Whole(e, rest, cap, prompt);
    assert [] + r.out == r.out;
  }

  lemma {:induction false} BodyWhole(d: Fields, src: seq<byte>, rest: seq<byte>, cap: nat, prompt: bool)
    requires cap >= 63 && d.format.UuFormat? && d.body
    ensures var r := Whole(d, rest, cap, prompt);
            Whole(d, UuCodec.Body(src) + rest, cap, prompt) == r.(out := src + r.out)
    decreases |src|
  {
    hide Whole, UuCodec.EncodeLine;
    if src == [] {
      assert [] + rest == rest && [] + Whole(d, rest, cap, prompt).out == Whole(d, rest, cap, prompt).out;
    } else {
      hide UuCodec.Body;
      var chunk, more := FirstChunk(src);
      var line, tail := UuCodec.EncodeLine(chunk), UuCodec.Body(more) + rest;
      var e := DataFirst(d, chunk, tail, cap, prompt);
      BodyWhole(d, more, rest, cap, prompt);
      assert UuCodec.Body(src) + rest == line + tail;
      AssocOut(chunk, more, Whole(d, rest, cap, prompt).out);
    }
  }

  lemma FirstChunk(src: seq<byte>) returns (chunk: seq<byte>, more: seq<byte>)
    requires src != []
    ensures 0 < |chunk| <= UuCodec.CHUNK && src == chunk + more
    ensures UuCodec.Body(src) == UuCodec.EncodeLine(chunk) + UuCodec.Body(more)
  {
    if |src| > UuCodec.CHUNK {
      chunk, more := src[..UuCodec.CHUNK], src[UuCodec.CHUNK..];
    } else {
      chunk, more := src, [];
      assert UuCodec.EncodeLine(src) + [] == UuCodec.EncodeLine(src);
    }
  }

  /** Without a header the body yields nothing, whatever it is taken for. */
  lemma {:induction false} HeadlessBody(d: Fields, src: seq<byte>, rest: seq<byte>, cap: nat, prompt: bool)
      returns (e: Fields)
    requires cap >= 63 && !d.format.YencFormat? && !d.begin && !d.body && !d.end
    ensures !e.format.YencFormat? && !e.begin && !e.body && !e.end
    ensures Whole(d, UuCodec.Body(src) + rest, cap, prompt) == Whole(e, rest, cap, prompt)
    decreases |src|
  {
    hide Whole, UuCodec.EncodeLine;
    if src == [] {
      e := d;
      assert [] + rest == rest;
    } else {
      hide UuCodec.Body;
      var chunk, more := FirstChunk(src);
      var line, tail := UuCodec.EncodeLine(chunk), UuCodec.Body(more) + rest;
      e := DataFirst(d, chunk, tail, cap, prompt);
      e := HeadlessBody(e, more, rest, cap, prompt);
      assert UuCodec.Body(src) + rest == line + tail;
    }
  }

  /** The trailer and the final dot. */
  lemma Trailer(d: Fields, cap: nat, prompt: bool)
    requires cap >= 5 && !d.format.YencFormat?
    ensures d == Fields(UuFormat, true, true, false) ==>
              Whole(d, UuCodec.END_LINE + FINAL, cap, prompt) == Outcome([], EndOfFile)
    ensures !d.begin ==> Whole(d, UuCodec.END_LINE + FINAL, cap, prompt) == Outcome([], DataMissing)
  {
    var line := UuCodec.END_LINE;
    assert line == [101, 110, 100, CR, LF];
    OnlyCrlf(line, FINAL);
    LineThenRest(d, line, FINAL, cap, prompt);
    assert !(UuCodec.BEGIN <= line) && !(YBEGIN <= line) && UuCodec.END <= line;
  }

  lemma OctalDigit(n: nat)
    requires n < 8
    ensures 48 <= (n + 48) as byte <= 55
  {}

  lemma {:induction false} OctalLength(n: nat)
    ensures var t := UuCodec.OctalDigits(n);
            && |t| >= 1 && (n < 8 <==> |t| == 1) && (n < 64 <==> |t| <= 2) && (n < 512 <==> |t| <= 3)
            && forall k | 0 <= k < |t| :: 48 <= t[k] <= 55
  {
    hide UuCodec.OctalDigits;
    var last := OctalStep(n);
    if n >= 8 {
      OctalLength(n / 8);
      Eighths(n);
    }
  }

  lemma OctalStep(n: nat) returns (last: byte)
    ensures 48 <= last <= 55
    ensures UuCodec.OctalDigits(n) == if n < 8 then [last] else UuCodec.OctalDigits(n / 8) + [last]
  {
    OctalDigit(n % 8);
    last := (n % 8 + 48) as byte;
  }

  lemma Eighths(n: nat)
    ensures (n / 8 < 8 <==> n < 64) && (n / 8 < 64 <==> n < 512)
  {}

  /** "%03o" gives exactly three digits just for modes below 0o1000. */
  lemma OctalMode(mode: nat)
    ensures var t := UuCodec.Octal3(mode);
            |t| >= 3 && (mode < 512 <==> |t| == 3) && forall k | 0 <= k < |t| :: 48 <= t[k] <= 55
  {
    OctalLength(mode);
  }

  /** A line as long as those of 45 bytes, with or without the CR. */
  predicate FullLine(line: seq<byte>) {
    62 <= |line| <= 63 && line[0] == 77 && (line[|line| - 1] == LF || line[|line| - 1] == CR)
  }

  /** ... and one that begins as the encoder's header does for some mode below 0o1000. */
  ghost predicate BeginsText(line: seq<byte>) {
    exists mode: nat, rest: seq<byte> :: mode < 512 && line == UuCodec.BEGIN + UuCodec.Octal3(mode) + [SPACE] + rest
  }

  lemma HeaderBegins(line: seq<byte>, mode: nat, rest: seq<byte>)
    requires mode < 512 && line == UuCodec.BEGIN + UuCodec.Octal3(mode) + [SPACE] + rest
    ensures DetectFormat(line).UuFormat?
  {
    OctalMode(mode);
    hide UuCodec.Octal3;
    assert line[..6] == UuCodec.BEGIN && line[0] == 98;
  }

  lemma BeginsHeader(line: seq<byte>)
    requires UuCodec.BEGIN <= line && |line| > 9 && line[9] == SPACE && forall i | 6 <= i < 9 :: 48 <= line[i] <= 55
    ensures BeginsText(line)
  {
    var mode := UuCodec.ThreeDigits(line[6], line[7], line[8]);
    hide UuCodec.Octal3;
    var rest := line[10..];
    assert line == UuCodec.BEGIN + [line[6], line[7], line[8]] + [SPACE] + rest;
    assert line == UuCodec.BEGIN + UuCodec.Octal3(mode) + [SPACE] + rest;
  }

  /** MAIN: just the full data lines and the headers of modes below 0o1000 tell that a stream is UU,
      and just "=ybegin " that it is yEnc. */
  lemma DetectedJustIf(line: seq<byte>)
    ensures DetectFormat(line).UuFormat? <==> FullLine(line) || BeginsText(line)
    ensures DetectFormat(line).YencFormat? <==> YBEGIN <= line
  {
    hide UuCodec.Octal3;
    if BeginsText(line) {
      var mode: nat, rest: seq<byte> :| mode < 512 && line == UuCodec.BEGIN + UuCodec.Octal3(mode) + [SPACE] + rest;
      HeaderBegins(line, mode, rest);
    }
    if DetectFormat(line).UuFormat? && !FullLine(line) { BeginsHeader(line); }
    hide BeginsText;
  }

  /** The header is detected just for modes below 0o1000; it is one line if the name has no CRLF. */
  lemma HeaderDetected(name: seq<byte>, mode: nat)
    ensures var line := UuCodec.Header(name, mode);
            var (e, o) := ProcessLine(Fresh, line);
            o == [] && (e == if mode < 512 then Fields(UuFormat, true, true, false) else Fresh) && |line| >= 2
  {
    OctalMode(mode);
    var digits := UuCodec.Octal3(mode);
    var line := UuCodec.Header(name, mode);
    assert line[..6] == UuCodec.BEGIN;
    assert UuCodec.BEGIN <= line && line[0] == 98;
    assert line[6..6 + |digits|] == digits;
    assert forall k | 6 <= k < 6 + |digits| :: line[k] == digits[k - 6];
    assert line[6 + |digits|] == SPACE;
    hide UuCodec.Header, UuCodec.Octal3;
  }

  lemma HeaderIsOneLine(name: seq<byte>, mode: nat, rest: seq<byte>)
    requires forall k: nat :: !CrlfAt(name, k)
    ensures var line := UuCodec.Header(name, mode);
            IndexCrlf(line + rest) == Some(|line| - 2) && !IsFinal(line + rest)
  {
    OctalMode(mode);
    var head := UuCodec.BEGIN + UuCodec.Octal3(mode) + [SPACE];
    var line := head + name + CRLF;
    assert forall k | 0 <= k < |head| :: line[k] == head[k] && head[k] != CR;
    assert forall k | 0 <= k < |name| :: line[|head| + k] == name[k];
    forall k: nat | CrlfAt(line, k)
      ensures k == |line| - 2
    {
      ghost var j := k - |head|;
      assert j >= 0 ==> !CrlfAt(name, j);
    }
    OnlyCrlf(line, rest);
    assert line[0] == 98;
  }

  /** The encoder's text and the final dot give the data and the normal end, just for modes
      below 0o1000; above, the header is not detected and nothing is decoded. */
  lemma UuRoundTrip(src: seq<byte>, name: seq<byte>, mode: nat, cap: nat, prompt: bool)
    requires forall k: nat :: !CrlfAt(name, k)
    requires cap >= 63 && |UuCodec.Header(name, mode)| <= cap
    ensures Whole(Fresh, UuCodec.Encode(src, name, mode) + FINAL, cap, prompt) ==
            if mode < 512 then Outcome(src, EndOfFile) else Outcome([], DataMissing)
  {
    hide Whole, ProcessLine, UuCodec.Header, UuCodec.Body;
    var head, tail := UuCodec.Header(name, mode), UuCodec.Body(src) + (UuCodec.END_LINE + FINAL);
    assert UuCodec.Encode(src, name, mode) + FINAL == head + tail;
    HeaderIsOneLine(name, mode, tail);
    HeaderDetected(name, mode);
    LineThenRest(Fresh, head, tail, cap, prompt);
    if mode < 512 {
      var d := Fields(UuFormat, true, true, false);
      BodyWhole(d, src, UuCodec.END_LINE + FINAL, cap, prompt);
      Trailer(d, cap, prompt);
      assert [] + (src + []) == src;
    } else {
      var e := HeadlessBody(Fresh, src, UuCodec.END_LINE + FINAL, cap, prompt);
      Trailer(e, cap, prompt);
    }
  }

  // --- text that lost its end ---------------------------------------------------------------------

  /** What can follow a complete line when the stream ends: the final dot or an unfinished line. */
  predicate LastPiece(t: seq<byte>, cap: nat) { t == FINAL || (IndexCrlf(t).None? && |t| < cap) }

  lemma EndsHere(d: Fields, t: seq<byte>, cap: nat, prompt: bool)
    requires cap >= 3 && LastPiece(t, cap)
    ensures Whole(d, t, cap, prompt) == Outcome([], EndVerdict(d))
  {
    if IsFinal(t) { assert t[..3] == FINAL; IndexCrlfIs(t); assert CrlfAt(t, 1); }
  }

  /** MAIN: the encoder's text cut anywhere before its end line, with or without the final dot: the
      bytes of the whole lines come out, and the verdict is never the normal end. */
  lemma CutText(src: seq<byte>, name: seq<byte>, mode: nat, t: seq<byte>, cap: nat, prompt: bool)
    requires forall k: nat :: !CrlfAt(name, k)
    requires cap >= 63 && |UuCodec.Header(name, mode)| <= cap && LastPiece(t, cap)
    ensures Whole(Fresh, UuCodec.Header(name, mode) + UuCodec.Body(src) + t, cap, prompt) ==
            if mode < 512 then Outcome(src, DataCorruption) else Outcome([], DataMissing)
  {
    hide Whole, ProcessLine, UuCodec.Header, UuCodec.Body, LastPiece;
    var head, tail := UuCodec.Header(name, mode), UuCodec.Body(src) + t;
    assert head + UuCodec.Body(src) + t == head + tail;
    HeaderIsOneLine(name, mode, tail);
    HeaderDetected(name, mode);
    LineThenRest(Fresh, head, tail, cap, prompt);
    if mode < 512 {
      var d := Fields(UuFormat, true, true, false);
      BodyWhole(d, src, t, cap, prompt);
      EndsHere(d, t, cap, prompt);
      assert [] + (src + []) == src;
    } else {
      var e := HeadlessBody(Fresh, src, t, cap, prompt);
      EndsHere(e, t, cap, prompt);
    }
  }

  // --- what the normal end means ------------------------------------------------------------------

  /** The complete lines before the final dot and before any line that does not fit. */
  function Seen(s: seq<byte>, cap: nat): seq<seq<byte>>
    decreases |s|
  {
    if IsFinal(s) then []
    else
      match IndexCrlf(s)
      case None => []
      case Some(i) =>
        IndexCrlfIs(s);
        if i + 2 > cap then [] else [s[..i + 2]] + Seen(s[i + 2..], cap)
  }

  /** The lines from the first one on that tells the format. */
  function UuPart(lines: seq<seq<byte>>): seq<seq<byte>> {
    if lines != [] && DetectFormat(lines[0]).Unknown? then UuPart(lines[1..]) else lines
  }

  /** The decoder gets to the end of the stream. */
  predicate Reaches(f: Format, s: seq<byte>, cap: nat, prompt: bool)
    decreases |s|
  {
    if IsFinal(s) then cap >= 3
    else
      match IndexCrlf(s)
      case None => |s| < cap || (|s| == cap && prompt)
      case Some(i) =>
        IndexCrlfIs(s);
        var line := s[..i + 2];
        i + 2 <= cap && !(f.Unknown? && YBEGIN <= line)
        && Reaches(if f.Unknown? then DetectFormat(line) else f, s[i + 2..], cap, prompt)
  }

  predicate HasBegin(lines: seq<seq<byte>>) { exists k | 0 <= k < |lines| :: UuCodec.BEGIN <= lines[k] }

  predicate HasEnd(lines: seq<seq<byte>>) { UuCodec.END_LINE in lines }

  lemma BeginCons(line: seq<byte>, rest: seq<seq<byte>>)
    ensures HasBegin([line] + rest) <==> UuCodec.BEGIN <= line || HasBegin(rest)
    ensures HasEnd([line] + rest) <==> line == UuCodec.END_LINE || HasEnd(rest)
    ensures !HasBegin([]) && !HasEnd([])
  {
    var all := [line] + rest;
    assert all[0] == line && forall k | 1 <= k < |all| :: all[k] == rest[k - 1];
    if HasBegin(rest) {
      var k :| 0 <= k < |rest| && UuCodec.BEGIN <= rest[k];
      assert all[k + 1] == rest[k];
    }
  }

  function Told(begun: bool, ended: bool): Verdict {
    if !begun then DataMissing else if !ended then DataCorruption else EndOfFile
  }

  lemma LineTells(d: Fields, line: seq<byte>)
    requires !d.format.YencFormat? && (d.format.Unknown? ==> !d.begin && !d.end)
    ensures var e := ProcessLine(d, line).0;
            && e.format == (if d.format.Unknown? then DetectFormat(line) else d.format)
            && (e.format.Unknown? ==> e == d)
            && (e.format.UuFormat? ==> (e.begin <==> d.begin || UuCodec.BEGIN <= line))
            && (e.format.UuFormat? ==> (e.end <==> d.end || line == UuCodec.END_LINE))
            && (e.format.YencFormat? ==> d.format.Unknown? && YBEGIN <= line)
  {
    assert UuCodec.BEGIN[0] != UuCodec.END_LINE[0];
    hide UuCodec.DecodeLine;
  }

  lemma {:induction false} WholeTells(d: Fields, s: seq<byte>, cap: nat, prompt: bool)
    requires !d.format.YencFormat? && (d.format.Unknown? ==> !d.begin && !d.end)
    ensures var u := if d.format.Unknown? then UuPart(Seen(s, cap)) else Seen(s, cap);
            var v := Whole(d, s, cap, prompt).verdict;
            if Reaches(d.format, s, cap, prompt) then v == Told(d.begin || HasBegin(u), d.end || HasEnd(u))
            else v.ShortSrc? || v.YencBody?
    decreases |s|
  {
    BeginCons([], []);
    if !IsFinal(s) && IndexCrlf(s).Some? {
      var i := IndexCrlf(s).value;
      IndexCrlfIs(s);
      var line, rest := s[..i + 2], s[i + 2..];
      LineTells(d, line);
      var e := ProcessLine(d, line).0;
      hide ProcessLine, IndexCrlf, DetectFormat, IsFinal, HasBegin, HasEnd;
      BeginCons(line, Seen(rest, cap));
      assert ([line] + Seen(rest, cap))[1..] == Seen(rest, cap);
      if !e.format.YencFormat? { WholeTells(e, rest, cap, prompt); }
    }
  }

  /** MAIN: what the verdict says of a stream read to its end. Of the lines from the first one on that
      tells the format, none is a begin line: data missing; one is, and none is the end line: data
      corruption; both are there: the normal end. A stream not read to its end never has one of these. */
  lemma VerdictTells(s: seq<byte>, cap: nat, prompt: bool)
    ensures var (v, u) := (Whole(Fresh, s, cap, prompt).verdict, UuPart(Seen(s, cap)));
            && (v.EndOfFile? <==> Reaches(Unknown, s, cap, prompt) && HasBegin(u) && HasEnd(u))
            && (v.DataCorruption? <==> Reaches(Unknown, s, cap, prompt) && HasBegin(u) && !HasEnd(u))
            && (v.DataMissing? <==> Reaches(Unknown, s, cap, prompt) && !HasBegin(u))
  {
    WholeTells(Fresh, s, cap, prompt);
    hide Whole, Reaches, HasBegin, HasEnd, UuPart, Seen;
  }

  /** Line k stands behind a begin line with no end line in between; or behind no end line, if the
      body was open before. */
  predicate InBody(open: bool, lines: seq<seq<byte>>, k: nat)
    requires k <= |lines|
  {
    || (open && UuCodec.END_LINE !in lines[..k])
    || exists m | 0 <= m < k :: UuCodec.BEGIN <= lines[m] && UuCodec.END_LINE !in lines[m..k]
  }

  /** What line k gives: in a body what it decodes to, if it does not begin with "begin " or "end". */
  function PartAt(open: bool, lines: seq<seq<byte>>, k: nat): seq<byte>
    requires k < |lines|
  {
    if InBody(open, lines, k) && !(UuCodec.BEGIN <= lines[k]) && !(UuCodec.END <= lines[k])
    then UuCodec.DecodeLine(lines[k]) else []
  }

  function Parts(open: bool, lines: seq<seq<byte>>): seq<seq<byte>> {
    seq(|lines|, k requires 0 <= k < |lines| => PartAt(open, lines, k))
  }

  function OpenAfter(open: bool, line: seq<byte>): bool {
    UuCodec.BEGIN <= line || (open && line != UuCodec.END_LINE)
  }

  lemma InBodyCons(open: bool, line: seq<byte>, rest: seq<seq<byte>>, k: nat)
    requires k <= |rest|
    ensures InBody(open, [line] + rest, k + 1) <==> InBody(OpenAfter(open, line), rest, k)
  {
    var all := [line] + rest;
    assert all[..k + 1] == [line] + rest[..k] && all[0..k + 1] == all[..k + 1];
    assert forall m | 1 <= m <= k :: all[m] == rest[m - 1] && all[m..k + 1] == rest[m - 1..k];
    assert UuCodec.BEGIN[0] != UuCodec.END_LINE[0];
    forall m | 0 <= m < k && UuCodec.BEGIN <= rest[m] && UuCodec.END_LINE !in rest[m..k]
      ensures InBody(open, all, k + 1)
    {
      assert all[m + 1] == rest[m] && all[m + 1..k + 1] == rest[m..k];
    }
  }

  lemma PartsCons(open: bool, line: seq<byte>, rest: seq<seq<byte>>)
    ensures Flat(Parts(open, [line] + rest)) ==
            (if open && !(UuCodec.BEGIN <= line) && !(UuCodec.END <= line) then UuCodec.DecodeLine(line) else [])
            + Flat(Parts(OpenAfter(open, line), rest))
  {
    PartsTail(open, line, rest);
    PartsHead(open, line, rest);
    hide Parts, OpenAfter, UuCodec.DecodeLine;
    var parts := Parts(open, [line] + rest);
    assert parts == [parts[0]] + parts[1..];
  }

  lemma PartsHead(open: bool, line: seq<byte>, rest: seq<seq<byte>>)
    ensures Parts(open, [line] + rest) != []
    ensures Parts(open, [line] + rest)[0] ==
            if open && !(UuCodec.BEGIN <= line) && !(UuCodec.END <= line) then UuCodec.DecodeLine(line) else []
  {
    hide UuCodec.DecodeLine;
    assert InBody(open, [line] + rest, 0) <==> open;
  }

  lemma PartsTail(open: bool, line: seq<byte>, rest: seq<seq<byte>>)
    ensures Parts(open, [line] + rest) != []
    ensures Parts(open, [line] + rest)[1..] == Parts(OpenAfter(open, line), rest)
  {
    hide InBody, UuCodec.DecodeLine, OpenAfter;
    var all := [line] + rest;
    forall k | 0 <= k < |rest|
      ensures PartAt(open, all, k + 1) == PartAt(OpenAfter(open, line), rest, k)
    {
      InBodyCons(open, line, rest, k);
    }
    hide PartAt;
  }

  /** The lines that count for a decoder that has, or has not, found the format. */
  function Counting(f: Format, s: seq<byte>, cap: nat): seq<seq<byte>> {
    if f.Unknown? then UuPart(Seen(s, cap)) else Seen(s, cap)
  }

  lemma CountingStep(f: Format, s: seq<byte>, cap: nat, i: nat)
    requires !IsFinal(s) && IndexCrlf(s) == Some(i) && i + 2 <= |s| && i + 2 <= cap
    ensures var (line, rest) := (s[..i + 2], s[i + 2..]);
            Counting(f, s, cap) == if f.Unknown? && DetectFormat(line).Unknown? then Counting(f, rest, cap)
                                   else [line] + Seen(rest, cap)
  {
    hide IsFinal, IndexCrlf, DetectFormat;
    var line, rest := s[..i + 2], s[i + 2..];
    assert Seen(s, cap) == [line] + Seen(rest, cap);
    assert ([line] + Seen(rest, cap))[1..] == Seen(rest, cap);
  }

  lemma WholeStep(d: Fields, s: seq<byte>, cap: nat, prompt: bool, i: nat)
    requires !IsFinal(s) && IndexCrlf(s) == Some(i) && i + 2 <= |s| && i + 2 <= cap
    ensures var (e, o) := ProcessLine(d, s[..i + 2]);
            var r := Whole(e, s[i + 2..], cap, prompt);
            Whole(d, s, cap, prompt) == if e.format.YencFormat? then Outcome([], YencBody) else r.(out := o + r.out)
  {
    hide IsFinal, IndexCrlf, ProcessLine;
  }

  lemma NothingRead(d: Fields, s: seq<byte>, cap: nat, prompt: bool)
    requires IsFinal(s) || IndexCrlf(s).None? || IndexCrlf(s).value + 2 > cap
    ensures Counting(d.format, s, cap) == [] && Whole(d, s, cap, prompt).out == [] && Flat(Parts(d.body, [])) == []
    ensures !Whole(d, s, cap, prompt).verdict.YencBody?
  {
    assert Seen(s, cap) == [];
  }

  lemma {:induction false} WholeBytes(d: Fields, s: seq<byte>, cap: nat, prompt: bool)
    requires !d.format.YencFormat? && (d.format.Unknown? ==> !d.begin && !d.end && !d.body)
    ensures var w := Whole(d, s, cap, prompt);
            && w.out == (if w.verdict.YencBody? then [] else Flat(Parts(d.body, Counting(d.format, s, cap))))
            && (d.format.UuFormat? ==> !w.verdict.YencBody?)
    decreases |s|
  {
    if IsFinal(s) || IndexCrlf(s).None? || IndexCrlf(s).value + 2 > cap {
      NothingRead(d, s, cap, prompt);
    } else {
      var i := IndexCrlf(s).value;
      IndexCrlfIs(s);
      var line, rest := s[..i + 2], s[i + 2..];
      LineTells(d, line);
      LineGives(d, line);
      CountingStep(d.format, s, cap, i);
      WholeStep(d, s, cap, prompt, i);
      hide ProcessLine, IndexCrlf, DetectFormat, IsFinal, Parts, OpenAfter, Whole, Seen, UuPart, UuCodec.DecodeLine;
      var e := ProcessLine(d, line).0;
      if !e.format.YencFormat? { WholeBytes(e, rest, cap, prompt); }
      if e.format.UuFormat? { PartsCons(d.body, line, Seen(rest, cap)); }
    }
  }

  lemma LineGives(d: Fields, line: seq<byte>)
    requires !d.format.YencFormat? && (d.format.Unknown? ==> !d.body)
    ensures var (e, o) := ProcessLine(d, line);
            && (e.format.UuFormat? ==> e.body == OpenAfter(d.body, line))
            && o == (if e.format.UuFormat? && d.body && !(UuCodec.BEGIN <= line) && !(UuCodec.END <= line)
                     then UuCodec.DecodeLine(line) else [])
  {
    hide UuCodec.DecodeLine, DetectFormat;
  }

  /** MAIN: the bytes of any stream: what the lines between a begin line and the next end line decode to,
      of the lines from the first one on that tells the format. */
  lemma BytesTell(s: seq<byte>, cap: nat, prompt: bool)
    ensures var w := Whole(Fresh, s, cap, prompt);
            w.out == if w.verdict.YencBody? then [] else Flat(Parts(false, UuPart(Seen(s, cap))))
  {
    WholeBytes(Fresh, s, cap, prompt);
    hide Whole, UuPart, Seen, Parts;
  }

  /** A full data line tells the format without a header. */
  lemma FullLineDetected(chunk: seq<byte>)
    requires |chunk| == UuCodec.CHUNK
    ensures DetectFormat(UuCodec.EncodeLine(chunk)) == UuFormat
  {
    var line := UuCodec.EncodeLine(chunk);
    UuCodec.GroupsRoundTrip(chunk);
    assert line[0] == 77 && |line| == 63;
    assert line[|line| - 2..] == CRLF && line[62] == CRLF[1];
    DataShape(chunk);
    NoKeyword(line);
    hide UuCodec.EncodeLine;
  }

  /** A finding: the end line may come first. A full data line, "end", a header and nothing else is
      taken for a complete text, and nothing is decoded. */
  lemma EndMayComeFirst(chunk: seq<byte>, cap: nat, prompt: bool)
    requires |chunk| == UuCodec.CHUNK && cap >= 63
    ensures var s := UuCodec.EncodeLine(chunk) + (UuCodec.END_LINE + (UuCodec.Header([], 420) + FINAL));
            Whole(Fresh, s, cap, prompt) == Outcome([], EndOfFile)
  {
    var line, head, end := UuCodec.EncodeLine(chunk), UuCodec.Header([], 420), UuCodec.END_LINE;
    OctalMode(420);
    assert |head| == 12 && UuCodec.BEGIN <= head by { assert head[..6] == UuCodec.BEGIN; }
    DataShape(chunk);
    FullLineDetected(chunk);
    hide Whole, UuCodec.Header, UuCodec.EncodeLine, UuCodec.DecodeLine;
    var d := Fields(UuFormat, false, false, false);
    DataIsOneLine(line, end + (head + FINAL));
    NoKeyword(line);
    assert UuCodec.END <= end && !(UuCodec.BEGIN <= end) && end == [101, 110, 100, CR, LF];
    LineThenRest(Fresh, line, end + (head + FINAL), cap, prompt);
    OnlyCrlf(end, head + FINAL);
    LineThenRest(d, end, head + FINAL, cap, prompt);
    HeaderIsOneLine([], 420, FINAL);
    LineThenRest(Fields(UuFormat, false, false, true), head, FINAL, cap, prompt);
    EndsHere(Fields(UuFormat, true, true, true), FINAL, cap, prompt);
  }
}
