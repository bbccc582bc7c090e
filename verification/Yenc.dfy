/** The yEnc line encoder of tools/nntpseed and the line decoders of yenc/yenc.go. */
module Yenc {
  import opened Bytes
  import opened Wrappers

  const LINE_LEN := 128

  // --- the encoder ---------------------------------------------------------------

  predicate Escaped(e: byte, pos: nat, last: bool) {
    e == NUL || e == LF || e == CR || e == EQ
    || (pos == 0 && (e == TAB || e == SPACE || e == DOT))
    || ((pos >= LINE_LEN - 1 || last) && (e == TAB || e == SPACE))
  }

  /** The output for data byte `c` at column `pos`; `last` marks the last byte of the data. */
  function EncodeByte(c: byte, pos: nat, last: bool): seq<byte> {
    var e := c + 42;
    if Escaped(e, pos, last) then [EQ, e + 64] else [e]
  }

  /** The lines still to come when `line` is the unfinished one and `data` is left. */
  function EncodeFrom(data: seq<byte>, line: seq<byte>): seq<seq<byte>> {
    if data == [] then (if line == [] then [] else [line])
    else
      var longer := line + EncodeByte(data[0], |line|, |data| == 1);
      if |longer| >= LINE_LEN then [longer] + EncodeFrom(data[1..], []) else EncodeFrom(data[1..], longer)
  }

  function Encode(data: seq<byte>): seq<seq<byte>> { EncodeFrom(data, []) }

  lemma EncodeFromStep(data: seq<byte>, i: nat, line: seq<byte>)
    requires i < |data|
    ensures var longer := line + EncodeByte(data[i], |line|, i == |data| - 1);
            EncodeFrom(data[i..], line) ==
            if |longer| >= LINE_LEN then [longer] + EncodeFrom(data[i + 1..], []) else EncodeFrom(data[i + 1..], longer)
  {
    assert data[i..][1..] == data[i + 1..];
  }

  method YencLines(data: seq<byte>) returns (out: seq<seq<byte>>)
    ensures out == Encode(data)
  {
    out := [];
    var line := [];
    for i := 0 to |data|
      invariant out + EncodeFrom(data[i..], line) == Encode(data)
    {
      EncodeFromStep(data, i, line);
      line := AddByte(line, data[i], i == |data| - 1);
      if |line| >= LINE_LEN {
        out, line := out + [line], [];
      }
    }
    if |line| > 0 { out := out + [line]; }
  }

  /** One round of the loop. */
  method AddByte(line: seq<byte>, c: byte, last: bool) returns (longer: seq<byte>)
    ensures longer == line + EncodeByte(c, |line|, last)
  {
    var e := c + 42;
    var esc := e == 0 || e == LF || e == CR || e == EQ;
    if |line| == 0 && (e == TAB || e == SPACE || e == DOT) { esc := true; }
    if (|line| >= LINE_LEN - 1 || last) && (e == TAB || e == SPACE) { esc := true; }
    if esc {
      longer := line + [EQ, e + 64];
    } else {
      longer := line + [e];
    }
  }

  // --- what decoding means ---------------------------------------------------------

  /** The decoded bytes, or None if the text ends in an unfinished escape. */
  function Decode(s: seq<byte>): Option<seq<byte>> {
    if s == [] then Some([])
    else if s[0] != EQ then Cons(s[0] - 42, Decode(s[1..]))
    else if |s| == 1 then None
    else Cons(s[1] - 42 - 64, Decode(s[2..]))
  }

  function Cons(b: byte, rest: Option<seq<byte>>): Option<seq<byte>> {
    if rest.Some? then Some([b] + rest.value) else None
  }

  /** Decoding with an escape carried in and out. */
  function DecodeCarry(awaiting: bool, s: seq<byte>): (seq<byte>, bool)
    decreases |s|
  {
    if s == [] then ([], awaiting)
    else if awaiting then var (d, w) := DecodeCarry(false, s[1..]); ([s[0] - 42 - 64] + d, w)
    else if s[0] == EQ then DecodeCarry(true, s[1..])
    else var (d, w) := DecodeCarry(false, s[1..]); ([s[0] - 42] + d, w)
  }

  /** Without a carried escape the two agree, and a dangling escape is what stays awaited. */
  lemma {:induction false} CarryIsDecode(s: seq<byte>)
    ensures Decode(s).Some? <==> !DecodeCarry(false, s).1
    ensures Decode(s).Some? ==> Decode(s).value == DecodeCarry(false, s).0
  {
    if s == [] {
    } else if s[0] != EQ {
      CarryIsDecode(s[1..]);
    } else if |s| > 1 {
      CarryIsDecode(s[2..]);
      assert s[1..][1..] == s[2..];
    }
  }

  /** Decoding line by line with the escape carried over equals decoding the joined text. */
  lemma {:induction false} CarrySplit(awaiting: bool, a: seq<byte>, b: seq<byte>)
    ensures var (x, w) := DecodeCarry(awaiting, a);
            var (y, v) := DecodeCarry(w, b);
            DecodeCarry(awaiting, a + b) == (x + y, v)
    decreases |a|
  {
    if a == [] {
      assert a + b == b;
      assert [] + DecodeCarry(awaiting, b).0 == DecodeCarry(awaiting, b).0;
    } else {
      assert (a + b)[1..] == a[1..] + b;
      var w0 := !awaiting && a[0] == EQ;
      CarrySplit(w0, a[1..], b);
      var (x, w) := DecodeCarry(w0, a[1..]);
      var y := DecodeCarry(w, b).0;
      assert forall h: seq<byte> :: h + (x + y) == (h + x) + y;
    }
  }

  /** ... for any split into lines. */
  function DecodeLines(awaiting: bool, lines: seq<seq<byte>>): (seq<byte>, bool)
    decreases |lines|
  {
    if lines == [] then ([], awaiting)
    else
      var (x, w) := DecodeCarry(awaiting, lines[0]);
      var (y, v) := DecodeLines(w, lines[1..]);
      (x + y, v)
  }

  lemma {:induction false} LinesAreJoined(awaiting: bool, lines: seq<seq<byte>>)
    ensures DecodeLines(awaiting, lines) == DecodeCarry(awaiting, Flat(lines))
    decreases |lines|
  {
    if lines != [] {
      LinesAreJoined(DecodeCarry(awaiting, lines[0]).1, lines[1..]);
      CarrySplit(awaiting, lines[0], Flat(lines[1..]));
    }
  }

  lemma {:induction false} DecodeAppend(a: seq<byte>, b: seq<byte>)
    requires Decode(a).Some?
    ensures Decode(a + b) == if Decode(b).Some? then Some(Decode(a).value + Decode(b).value) else None
  {
    if a == [] {
      assert a + b == b && [] + Decode(b).GetOr([]) == Decode(b).GetOr([]);
    } else {
      var n := if a[0] != EQ then 1 else 2;
      assert (a + b)[n..] == a[n..] + b;
      DecodeAppend(a[n..], b);
      var x, y := Decode(a[n..]).value, Decode(b).GetOr([]);
      assert forall h: seq<byte> :: h + (x + y) == (h + x) + y;
    }
  }

  // --- the encoder is right ----------------------------------------------------------

  predicate Clean(s: seq<byte>) { forall i | 0 <= i < |s| :: s[i] != NUL && s[i] != LF && s[i] != CR }

  predicate Blank(b: byte) { b == TAB || b == SPACE }

  /** Starts with "=y". */
  predicate StartsControl(s: seq<byte>) { |s| >= 2 && s[0] == EQ && s[1] == 121 }

  /** An unfinished line of the encoder. */
  predicate GoodStart(s: seq<byte>) {
    && Clean(s) && Decode(s).Some?
    && (s != [] ==> s[0] != DOT && !Blank(s[0]))
    && !StartsControl(s)
  }

  /** A finished one: not empty, short, nothing a transport would change, no unfinished
      escape, and never the start of a "=y..." control line. */
  predicate GoodLine(s: seq<byte>) {
    && GoodStart(s) && 0 < |s| <= LINE_LEN + 1
    && !Blank(s[|s| - 1]) && s[|s| - 1] != EQ
  }

  lemma EncodeByteDecodes(c: byte, pos: nat, last: bool)
    ensures Decode(EncodeByte(c, pos, last)) == Some([c])
  {
    var e, x := c + 42, EncodeByte(c, pos, last);
    assert e - 42 == c && e + 64 - 42 - 64 == c && [c] + [] == [c];
    if Escaped(e, pos, last) {
      assert x == [EQ, e + 64] && x[2..] == [] && Decode(x[2..]) == Some([]);
    } else {
      assert x == [e] && x[1..] == [] && Decode(x[1..]) == Some([]);
    }
  }

  /** What the encoder adds for one byte at column `pos`. */
  predicate GoodPiece(x: seq<byte>, pos: nat, last: bool) {
    && 1 <= |x| <= 2 && Clean(x) && x[|x| - 1] != EQ
    && (pos == 0 ==> x[0] != DOT && !Blank(x[0]))
    && (x[0] == EQ ==> |x| == 2 && x[1] != 121)
    && (last || pos + |x| >= LINE_LEN ==> !Blank(x[|x| - 1]))
  }

  lemma EncodeByteGood(c: byte, pos: nat, last: bool)
    requires pos < LINE_LEN
    ensures GoodPiece(EncodeByte(c, pos, last), pos, last)
  {
    EscapeCodes(c + 42, pos, last);
  }

  lemma ExtendGood(line: seq<byte>, x: seq<byte>, c: byte, last: bool)
    requires GoodStart(line) && GoodPiece(x, |line|, last) && Decode(x) == Some([c])
    ensures GoodStart(line + x) && Decode(line + x) == Some(Decode(line).value + [c])
  {
    DecodeAppend(line, x);
    NoControl(line, x);
  }

  /** Nothing the encoder adds turns a line into one that starts with "=y". */
  lemma NoControl(line: seq<byte>, x: seq<byte>)
    requires GoodStart(line) && 0 < |x| && (x[0] == EQ ==> |x| == 2 && x[1] != 121)
    ensures !StartsControl(line + x)
  {
    if |line| == 1 { assert line[1..] == []; }
  }

  /** The second byte of an escape is never special, and never 'y'. */
  lemma EscapeCodes(e: byte, pos: nat, last: bool)
    ensures Escaped(e, pos, last) ==>
              var x := e + 64; x != NUL && x != LF && x != CR && x != EQ && x != 121 && !Blank(x)
  {}

  lemma {:induction false} EncodeFromGood(data: seq<byte>, line: seq<byte>)
    requires GoodStart(line) && |line| < LINE_LEN
    requires data == [] ==> line == [] || (!Blank(line[|line| - 1]) && line[|line| - 1] != EQ)
    ensures forall k | 0 <= k < |EncodeFrom(data, line)| :: GoodLine(EncodeFrom(data, line)[k])
    ensures Decode(Flat(EncodeFrom(data, line))) == Some(Decode(line).value + data)
  {
    if data == [] {
      if line != [] { assert Flat([line]) == line + Flat([]) == line; }
      assert Decode(line).value + [] == Decode(line).value;
    } else {
      var x := EncodeByte(data[0], |line|, |data| == 1);
      EncodeByteGood(data[0], |line|, |data| == 1);
      EncodeByteDecodes(data[0], |line|, |data| == 1);
      ExtendGood(line, x, data[0], |data| == 1);
      var longer := line + x;
      assert Decode(line).value + [data[0]] + data[1..] == Decode(line).value + data;
      if |longer| >= LINE_LEN {
        EncodeFromGood(data[1..], []);
        var rest := EncodeFrom(data[1..], []);
        assert ([longer] + rest)[1..] == rest;
        DecodeAppend(longer, Flat(rest));
        assert Flat([longer] + rest) == longer + Flat(rest);
        assert Decode(Flat(rest)) == Some([] + data[1..]) && [] + data[1..] == data[1..];
      } else {
        EncodeFromGood(data[1..], longer);
      }
    }
  }

  /** MAIN: for every byte sequence, decoding the joined lines gives the data back, and every
      line is safe to send. */
  lemma RoundTrip(data: seq<byte>)
    ensures Decode(Flat(Encode(data))) == Some(data)
    ensures forall k | 0 <= k < |Encode(data)| :: GoodLine(Encode(data)[k])
  {
    EncodeFromGood(data, []);
    assert [] + data == data;
  }

  /** Each line decodes on its own as well, so it does not matter how a decoder joins them. */
  lemma {:induction false} EachLine(lines: seq<seq<byte>>)
    requires forall k | 0 <= k < |lines| :: Decode(lines[k]).Some?
    ensures DecodeLines(false, lines) == (DecodeEach(lines), false)
    ensures Decode(Flat(lines)) == Some(DecodeEach(lines))
  {
    if lines != [] {
      EachLine(lines[1..]);
      CarryIsDecode(lines[0]);
      DecodeAppend(lines[0], Flat(lines[1..]));
    }
  }

  function DecodeEach(lines: seq<seq<byte>>): seq<byte> {
    if lines == [] then [] else Decode(lines[0]).GetOr([]) + DecodeEach(lines[1..])
  }

  // --- the decoders refine Decode ------------------------------------------------------

  /** `front` is written, `rest` still to be read: together they are the decoding of `was`. */
  predicate Decoding(front: seq<byte>, awaiting: bool, rest: seq<byte>, w0: bool, was: seq<byte>) {
    (front + DecodeCarry(awaiting, rest).0, DecodeCarry(awaiting, rest).1) == DecodeCarry(w0, was)
  }

  lemma DecodingStep(front: seq<byte>, awaiting: bool, s: seq<byte>, i: nat, w0: bool, was: seq<byte>)
    requires i < |s| && Decoding(front, awaiting, s[i..], w0, was)
    ensures if !awaiting && s[i] == EQ then Decoding(front, true, s[i + 1..], w0, was)
            else Decoding(front + [if awaiting then s[i] - 42 - 64 else s[i] - 42], false, s[i + 1..], w0, was)
  {
    assert s[i..][1..] == s[i + 1..];
    var b, y := if awaiting then s[i] - 42 - 64 else s[i] - 42, DecodeCarry(false, s[i + 1..]).0;
    assert front + ([b] + y) == front + [b] + y;
  }

  /** line[j] = v, for a write index at or before the read index. */
  method Put(line: array<byte>, j: nat, i: nat, v: byte)
    requires j <= i < line.Length
    modifies line
    ensures line[..j + 1] == old(line[..j]) + [v]
    ensures line[i + 1..] == old(line[i + 1..])
  {
    line[j] := v;
  }

  /** The decoder object of yenc.go, as far as single lines go. */
  class Decoder {
    var awaitingSpecial: bool

    constructor ()
      ensures !awaitingSpecial
    {
      awaitingSpecial := false;
    }

    /** Rewrites the line in place; the decoded bytes are its first n. */
    method DecodeLine(line: array<byte>) returns (n: nat)
      modifies this, line
      ensures n <= line.Length
      ensures (line[..n], awaitingSpecial) == DecodeCarry(old(awaitingSpecial), old(line[..]))
    {
      var i, j := 0, 0;
      ghost var was, w0 := line[..], awaitingSpecial;
      assert was[0..] == was && [] + DecodeCarry(w0, was).0 == DecodeCarry(w0, was).0;
      while i < line.Length
        invariant 0 <= j <= i <= line.Length == |was|
        invariant line[i..] == was[i..]
        invariant Decoding(line[..j], awaitingSpecial, was[i..], w0, was)
      {
        j := DecodeByte(line, i, j, w0, was);
        i := i + 1;
      }
      n := line.Length - (i - j);
      assert was[i..] == [] && line[..j] + [] == line[..j];
    }

    /** The body of the loop: reads line[i], may write line[j], returns the next j. */
    method DecodeByte(line: array<byte>, i: nat, j: nat, ghost w0: bool, ghost was: seq<byte>) returns (j': nat)
      requires j <= i < line.Length && |was| == line.Length
      requires line[i..] == was[i..] && Decoding(line[..j], awaitingSpecial, was[i..], w0, was)
      modifies this, line
      ensures j' <= i + 1
      ensures line[i + 1..] == was[i + 1..] && Decoding(line[..j'], awaitingSpecial, was[i + 1..], w0, was)
    {
      DecodingStep(line[..j], awaitingSpecial, was, i, w0, was);
      assert line[i] == line[i..][0] == was[i];
      assert was[i + 1..] == was[i..][1..] == line[i + 1..];
      if awaitingSpecial {
        Put(line, j, i, line[i] - 42 - 64);
        awaitingSpecial := false;
      } else if line[i] == EQ {
        awaitingSpecial := true;
        return j;
      } else {
        Put(line, j, i, line[i] - 42);
      }
      j' := j + 1;
    }

    /** Builds a new slice; an unfinished escape yields no bytes at all. */
    method DecodeLineNew(line: seq<byte>) returns (decoded: seq<byte>)
      ensures decoded == Decode(line).GetOr([])
    {
      decoded := [];
      var i := 0;
      assert line[0..] == line && [] + Decode(line).GetOr([]) == Decode(line).GetOr([]);
      while i < |line|
        invariant i <= |line|
        invariant Prepend(decoded, Decode(line[i..])) == Decode(line)
      {
        DecodeStep(line, i, decoded);
        if line[i] == EQ {
          if i + 1 < |line| {
            decoded := decoded + [line[i + 1] - 42 - 64];
            i := i + 1;
          } else {
            return [];
          }
        } else {
          decoded := decoded + [line[i] - 42];
        }
        i := i + 1;
      }
      assert line[i..] == [] && decoded + [] == decoded;
    }
  }

  function Prepend(a: seq<byte>, r: Option<seq<byte>>): Option<seq<byte>> {
    if r.Some? then Some(a + r.value) else None
  }

  lemma DecodeStep(s: seq<byte>, i: nat, a: seq<byte>)
    requires i < |s|
    ensures s[i] != EQ ==> Prepend(a, Decode(s[i..])) == Prepend(a + [s[i] - 42], Decode(s[i + 1..]))
    ensures s[i] == EQ && i + 1 < |s| ==>
              Prepend(a, Decode(s[i..])) == Prepend(a + [s[i + 1] - 42 - 64], Decode(s[i + 2..]))
    ensures s[i] == EQ && i + 1 == |s| ==> Decode(s[i..]).None?
  {
    if s[i] != EQ {
      assert s[i..][1..] == s[i + 1..];
      PrependCons(a, s[i] - 42, Decode(s[i + 1..]));
    } else if i + 1 < |s| {
      assert s[i..][2..] == s[i + 2..];
      PrependCons(a, s[i + 1] - 42 - 64, Decode(s[i + 2..]));
    }
  }

  lemma PrependCons(a: seq<byte>, b: byte, r: Option<seq<byte>>)
    ensures Prepend(a, Cons(b, r)) == Prepend(a + [b], r)
  {
    assert a + ([b] + r.GetOr([])) == a + [b] + r.GetOr([]);
  }

  /** DecodeLineSIMD1: whole runs without an escape, then the escape. */
  method DecodeLineSimd1(line: seq<byte>) returns (decoded: seq<byte>, ok: bool)
    ensures ok == Decode(line).Some?
    ensures ok ==> decoded == Decode(line).value
  {
    decoded := [];
    var i := 0;
    assert line[0..] == line && [] + Decode(line).GetOr([]) == Decode(line).GetOr([]);
    while i < |line|
      invariant i <= |line|
      invariant Prepend(decoded, Decode(line[i..])) == Decode(line)
    {
      var start := i;
      while i < |line| && line[i] != EQ
        invariant start <= i <= |line|
        invariant forall k | start <= k < i :: line[k] != EQ
      {
        i := i + 1;
      }
      for k := start to i
        invariant Prepend(decoded, Decode(line[k..])) == Decode(line)
      {
        DecodeStep(line, k, decoded);
        decoded := decoded + [line[k] - 42];
      }
      if i < |line| && line[i] == EQ {
        DecodeStep(line, i, decoded);
        if i + 1 < |line| {
          decoded := decoded + [line[i + 1] - 42 - 64];
          i := i + 2;
        } else {
          return [], false;
        }
      }
    }
    assert line[i..] == [] && decoded + [] == decoded;
    ok := true;
  }

  /** The loop of DecodeYenc over its line buffer: looks at the byte behind an escape and skips it. */
  method DecodeBuffer(decoded: seq<byte>, buffer: seq<byte>) returns (all: seq<byte>, ok: bool)
    ensures ok == Decode(buffer).Some?
    ensures ok ==> all == decoded + Decode(buffer).value
  {
    all := decoded;
    ghost var goal := Prepend(decoded, Decode(buffer));
    assert buffer[0..] == buffer;
    var i := 0;
    while i < |buffer|
      invariant i <= |buffer| && Prepend(all, Decode(buffer[i..])) == goal
    {
      DecodeStep(buffer, i, all);
      if buffer[i] == EQ {
        if i + 1 < |buffer| {
          all := all + [buffer[i + 1] - 42 - 64];
          i := i + 1;
        } else {
          return [], false;
        }
      } else {
        all := all + [buffer[i] - 42];
      }
      i := i + 1;
    }
    assert buffer[i..] == [] && all + [] == all;
    ok := true;
  }

  function Sub42(s: seq<byte>): seq<byte> { seq(|s|, k requires 0 <= k < |s| => s[k] - 42) }

  /** Sub42Bulk on overlapping parts of one line: right because it runs forward and the
      destination does not lie behind the source. */
  method Sub42Bulk(line: array<byte>, dst: nat, src: nat, n: nat)
    requires dst <= src && src + n <= line.Length
    modifies line
    ensures line[..dst + n] == old(line[..dst]) + Sub42(old(line[src..src + n]))
    ensures line[src + n..] == old(line[src + n..])
  {
    ghost var was := line[..];
    for k := 0 to n
      invariant line[..dst + k] == was[..dst] + Sub42(was[src..src + k])
      invariant line[src + k..] == was[src + k..]
    {
      assert line[src + k] == line[src + k..][0] == was[src + k];
      assert was[src + k + 1..] == was[src + k..][1..] == line[src + k + 1..];
      Sub42Next(was, src, k);
      Put(line, dst + k, src + k, line[src + k] - 42);
      assert was[..dst] + Sub42(was[src..src + k + 1]) == was[..dst] + Sub42(was[src..src + k]) + [was[src + k] - 42];
    }
  }

  lemma Sub42Next(s: seq<byte>, src: nat, k: nat)
    requires src + k < |s|
    ensures Sub42(s[src..src + k + 1]) == Sub42(s[src..src + k]) + [s[src + k] - 42]
  {}

  method FindEscape(line: array<byte>, start: nat) returns (r: nat)
    requires start <= line.Length
    ensures start <= r <= line.Length && (r < line.Length ==> line[r] == EQ)
    ensures forall k | 0 <= k < r - start :: line[start..][k] != EQ
  {
    r := start;
    while r < line.Length && line[r] != EQ
      invariant start <= r <= line.Length
      invariant forall k | 0 <= k < r - start :: line[start..][k] != EQ
    {
      r := r + 1;
    }
  }

  lemma {:induction false} RunDecodes(s: seq<byte>, n: nat)
    requires n <= |s| && forall k | 0 <= k < n :: s[k] != EQ
    ensures Decode(s) == Prepend(Sub42(s[..n]), Decode(s[n..]))
  {
    if n == 0 {
      assert s[0..] == s && [] + Decode(s).GetOr([]) == Decode(s).GetOr([]);
    } else {
      RunDecodes(s[1..], n - 1);
      assert s[1..][n - 1..] == s[n..] && s[1..][..n - 1] == s[1..n];
      assert Sub42(s[..n]) == [s[0] - 42] + Sub42(s[1..n]);
      Assoc([s[0] - 42], Sub42(s[1..n]), Decode(s[n..]));
    }
  }

  lemma Assoc(a: seq<byte>, b: seq<byte>, r: Option<seq<byte>>)
    ensures Prepend(a, Prepend(b, r)) == Prepend(a + b, r)
  {
    assert a + (b + r.GetOr([])) == a + b + r.GetOr([]);
  }

  /** DecodeLineSIMD2: in place; the write index never passes the read index. */
  method DecodeLineSimd2(line: array<byte>) returns (n: nat, ok: bool)
    modifies line
    ensures ok == Decode(old(line[..])).Some?
    ensures ok ==> n <= line.Length && line[..n] == Decode(old(line[..])).value
  {
    var read, write := 0, 0;
    ghost var was := line[..];
    assert was[0..] == was && [] + Decode(was).GetOr([]) == Decode(was).GetOr([]);
    while read < line.Length
      invariant 0 <= write <= read <= line.Length
      invariant line[read..] == was[read..]
      invariant Prepend(line[..write], Decode(was[read..])) == Decode(was)
    {
      read, write := MoveRun(line, read, write, was);
      if read < line.Length && line[read] == EQ {
        assert line[read] == line[read..][0] == was[read];
        DecodeStep(was, read, line[..write]);
        if read + 1 >= line.Length {
          return 0, false;
        }
        assert line[read + 1] == line[read..][1] == was[read + 1];
        assert was[read + 2..] == was[read..][2..] == line[read + 2..];
        Put(line, write, read + 1, line[read + 1] - 42 - 64);
        write := write + 1;
        read := read + 2;
      }
    }
    assert was[read..] == [] && line[..write] + [] == line[..write];
    n, ok := write, true;
  }

  /** Finds the next escape and moves the run before it to the front. */
  method MoveRun(line: array<byte>, start: nat, write: nat, ghost was: seq<byte>) returns (read: nat, write': nat)
    requires write <= start < line.Length == |was|
    requires line[start..] == was[start..] && Prepend(line[..write], Decode(was[start..])) == Decode(was)
    modifies line
    ensures write' <= read <= line.Length && start <= read && (read < line.Length ==> line[read] == EQ)
    ensures read == start ==> line[start] == EQ
    ensures line[read..] == was[read..] && Prepend(line[..write'], Decode(was[read..])) == Decode(was)
  {
    read := FindEscape(line, start);
    var len := read - start;
    assert forall k | 0 <= k < len :: was[start..][k] == line[start..][k] != EQ;
    RunDecodes(was[start..], len);
    Assoc(line[..write], Sub42(was[start..][..len]), Decode(was[start..][len..]));
    assert was[start..][len..] == was[read..] && was[start..][..len] == line[start..][..len] == line[start..read];
    assert line[read..] == line[start..][len..];
    if read < line.Length { assert line[read] == line[read..][0]; }
    Sub42Bulk(line, write, start, len);
    if read < line.Length { assert line[read] == line[read..][0]; }
    write' := write + len;
  }
}
