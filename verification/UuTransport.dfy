/** UU text over NNTP. */
module UuTransport {
  // The sender dot-stuffs lines, mode 4 hands the wire bytes to the streaming decoder (NetConn.go),
  // and the decoder does not un-stuff on its UU path (rapidyenc/decoder.go). The one data line that
  // begins with a dot is a last line of 14 bytes.
  //
  // The first part says when the text is the same on the wire, the others what becomes of it when
  // it is not: the decoder sees all groups of six bits moved on by one, and there is one chunk that
  // this leaves as it is.

  import opened Bytes
  import opened StreamDecoder
  import Framing
  import UuCodec

  type Line = seq<byte>

  /** The characters of one data line, without its line end. */
  function DataText(chunk: seq<byte>): Line
    requires |chunk| <= UuCodec.CHUNK
  {
    [(|chunk| + 32) as byte] + UuCodec.EncodeGroups(chunk)
  }

  function DataLines(src: seq<byte>): seq<Line> {
    if src == [] then []
    else if |src| > UuCodec.CHUNK then [DataText(src[..UuCodec.CHUNK])] + DataLines(src[UuCodec.CHUNK..])
    else [DataText(src)]
  }

  function HeadText(name: seq<byte>, mode: nat): Line { UuCodec.BEGIN + UuCodec.Octal3(mode) + [SPACE] + name }

  /** UUEncode's text as lines. */
  function Lines(src: seq<byte>, name: seq<byte>, mode: nat): seq<Line> {
    [HeadText(name, mode)] + (DataLines(src) + [UuCodec.END])
  }

  lemma RawCons(line: Line, rest: seq<Line>)
    ensures Framing.Raw([line] + rest) == line + CRLF + Framing.Raw(rest)
    ensures Framing.Raw([]) == []
  {
    assert ([line] + rest)[1..] == rest;
  }

  lemma {:induction false} DataIsBody(src: seq<byte>)
    ensures Framing.Raw(DataLines(src)) == UuCodec.Body(src)
  {
    hide Framing.Raw, UuCodec.EncodeGroups;
    RawCons([], []);
    if |src| > UuCodec.CHUNK {
      DataIsBody(src[UuCodec.CHUNK..]);
      RawCons(DataText(src[..UuCodec.CHUNK]), DataLines(src[UuCodec.CHUNK..]));
    } else if src != [] {
      RawCons(DataText(src), []);
      assert [DataText(src)] + [] == [DataText(src)] && DataText(src) + CRLF + [] == UuCodec.EncodeLine(src);
    }
  }

  /** The lines are the encoder's text. */
  lemma LinesAreText(src: seq<byte>, name: seq<byte>, mode: nat)
    ensures Framing.Raw(Lines(src, name, mode)) == UuCodec.Encode(src, name, mode)
  {
    hide Framing.Raw, DataLines, UuCodec.Body, UuCodec.Octal3;
    DataIsBody(src);
    RawCons([], []);
    RawCons(UuCodec.END, []);
    assert [UuCodec.END] + [] == [UuCodec.END] && UuCodec.END + CRLF + [] == UuCodec.END_LINE;
    Framing.RawAppend(DataLines(src), [UuCodec.END]);
    RawCons(HeadText(name, mode), DataLines(src) + [UuCodec.END]);
    assert HeadText(name, mode) + CRLF == UuCodec.Header(name, mode);
    assert UuCodec.Header(name, mode) + (UuCodec.Body(src) + UuCodec.END_LINE) == UuCodec.Encode(src, name, mode);
  }

  predicate Dotted(line: Line) { line != [] && line[0] == DOT }

  lemma LengthByte(n: nat)
    requires n <= UuCodec.CHUNK
    ensures (n + 32) as byte == DOT <==> n == 14
    ensures UuCodec.Bits(DOT) as nat == 14
  {
    assert ((n + 32) as byte) as nat == n + 32;
    assert DOT as nat == 46;
    assert UuCodec.Bits(DOT) == 14;
  }

  predicate AnyDotted(lines: seq<Line>) { exists k | 0 <= k < |lines| :: Dotted(lines[k]) }

  lemma AnyDottedCons(line: Line, rest: seq<Line>)
    ensures AnyDotted([line] + rest) <==> Dotted(line) || AnyDotted(rest)
    ensures !AnyDotted([])
  {
    var all := [line] + rest;
    assert all[0] == line && forall k | 0 <= k < |rest| :: rest[k] == all[k + 1];
    assert forall k | 1 <= k < |all| :: all[k] == rest[k - 1];
    hide Dotted;
    if AnyDotted(rest) {
      var k :| 0 <= k < |rest| && Dotted(rest[k]);
      assert Dotted(all[k + 1]);
    }
  }

  lemma DataDotted(chunk: seq<byte>)
    requires |chunk| <= UuCodec.CHUNK
    ensures Dotted(DataText(chunk)) <==> |chunk| == 14
  {
    LengthByte(|chunk|);
    hide UuCodec.EncodeGroups;
  }

  lemma {:induction false} OnlyLastIsDotted(src: seq<byte>)
    ensures AnyDotted(DataLines(src)) <==> |src| % UuCodec.CHUNK == 14
  {
    hide DataText, Dotted, AnyDotted;
    if |src| > UuCodec.CHUNK {
      OnlyLastIsDotted(src[UuCodec.CHUNK..]);
      DataDotted(src[..UuCodec.CHUNK]);
      AnyDottedCons(DataText(src[..UuCodec.CHUNK]), DataLines(src[UuCodec.CHUNK..]));
    } else {
      AnyDottedCons([], []);
      if src != [] {
        DataDotted(src);
        AnyDottedCons(DataText(src), []);
        assert [DataText(src)] + [] == [DataText(src)];
      }
    }
  }

  lemma {:induction false} StuffingAdds(lines: seq<Line>)
    ensures |Framing.Raw(Framing.Map(Framing.Stuff, lines))| >= |Framing.Raw(lines)|
    ensures Framing.Raw(Framing.Map(Framing.Stuff, lines)) == Framing.Raw(lines) <==>
            !AnyDotted(lines)
  {
    hide Framing.Raw, AnyDotted;
    if lines == [] {
      RawCons([], []);
      AnyDottedCons([], []);
      assert Framing.Map(Framing.Stuff, lines) == [];
    } else {
      var more := lines[1..];
      StuffingAdds(more);
      var s := Framing.Stuff(lines[0]);
      RawCons(lines[0], more);
      RawCons(s, Framing.Map(Framing.Stuff, more));
      assert lines == [lines[0]] + more;
      assert Framing.Map(Framing.Stuff, lines) == [s] + Framing.Map(Framing.Stuff, more);
      assert s == lines[0] <==> !Dotted(lines[0]) by { assert |s| > |lines[0]| || s == lines[0]; }
      AnyDottedCons(lines[0], more);
      var x, y := Framing.Raw(Framing.Map(Framing.Stuff, more)), Framing.Raw(more);
      Framing.SameFront(s + CRLF, x, y);
    }
  }

  /** MAIN: on the wire the text is unchanged, and so decodes as UuRoundTrip says, just if its last
      line does not have 14 bytes. */
  lemma SentAsEncoded(src: seq<byte>, name: seq<byte>, mode: nat)
    ensures Framing.Wire(Lines(src, name, mode)) == UuCodec.Encode(src, name, mode) + FINAL <==>
            |src| % UuCodec.CHUNK != 14
  {
    hide Framing.Raw, DataLines, UuCodec.Encode, Framing.Stuff;
    var lines := Lines(src, name, mode);
    LinesAreText(src, name, mode);
    StuffingAdds(lines);
    OnlyLastIsDotted(src);
    NotDotted(name, mode);
    AnyDottedCons([], []);
    hide HeadText, Dotted, AnyDotted;
    DottedAppend(DataLines(src), UuCodec.END);
    AnyDottedCons(HeadText(name, mode), DataLines(src) + [UuCodec.END]);
    SameBack(Framing.Raw(Framing.Map(Framing.Stuff, lines)), Framing.Raw(lines), FINAL);
  }

  lemma {:induction false} DottedAppend(lines: seq<Line>, last: Line)
    requires !Dotted(last)
    ensures AnyDotted(lines + [last]) <==> AnyDotted(lines)
  {
    hide AnyDotted, Dotted;
    AnyDottedCons([], []);
    if lines == [] {
      AnyDottedCons(last, []);
      assert [] + [last] == [last] + [];
    } else {
      DottedAppend(lines[1..], last);
      AnyDottedCons(lines[0], lines[1..]);
      AnyDottedCons(lines[0], lines[1..] + [last]);
      assert [lines[0]] + lines[1..] == lines && [lines[0]] + (lines[1..] + [last]) == lines + [last];
    }
  }

  lemma NotDotted(name: seq<byte>, mode: nat)
    ensures !Dotted(HeadText(name, mode)) && Framing.Stuff(HeadText(name, mode)) == HeadText(name, mode)
    ensures !Dotted(UuCodec.END) && Framing.Stuff(UuCodec.END) == UuCodec.END
    ensures HeadText(name, mode) + CRLF == UuCodec.Header(name, mode)
  {
    assert HeadText(name, mode)[0] == 98 && UuCodec.END[0] == 101;
  }

  lemma SameBack(x: seq<byte>, y: seq<byte>, end: seq<byte>)
    ensures x + end == y + end <==> x == y
  {
    if x + end == y + end { assert (x + end)[..|x|] == x && (y + end)[..|y|] == y; }
  }

  // --- what the decoder makes of a stuffed last line ------------------------------------------------------

  /** The last line of 14 bytes, stuffed. */
  function StuffedLine(chunk: seq<byte>): Line
    requires |chunk| == 14
  {
    [DOT] + UuCodec.EncodeLine(chunk)
  }

  lemma StuffedLooksLikeData(chunk: seq<byte>)
    requires |chunk| == 14
    ensures LooksLikeData(StuffedLine(chunk)) && |StuffedLine(chunk)| <= 64
    ensures UuCodec.Strip(StuffedLine(chunk)) == [DOT] + DataText(chunk)
  {
    DataShape(chunk);
    LengthByte(14);
    hide UuCodec.EncodeGroups;
    var line := UuCodec.EncodeLine(chunk);
    assert StuffedLine(chunk)[|line| + 1 - 2..] == line[|line| - 2..];
    assert forall k | 1 <= k < |line| - 1 :: StuffedLine(chunk)[k] == line[k - 1];
    UuCodec.StripCrlf([DOT] + DataText(chunk));
    assert [DOT] + DataText(chunk) + CRLF == StuffedLine(chunk);
  }

  /** The byte `x` moved on by six bits, behind the low six bits of `prev`. */
  function Moved(prev: byte, x: byte): byte { (prev << 2) | (x >> 6) }

  /** All of `s` moved on. */
  function Shift(prev: byte, s: seq<byte>): (r: seq<byte>)
    ensures |r| == |s|
    decreases |s|
  {
    if s == [] then [] else [Moved(prev, s[0])] + Shift(s[0], s[1..])
  }

  // The four characters of a group.

  function First(x: byte): byte { ((x >> 2) & 0x3F) + 32 }
  function Second(x: byte, y: byte): byte { (((x << 4) | ((y >> 4) & 0x0F)) & 0x3F) + 32 }
  function Third(y: byte, z: byte): byte { (((y << 2) | ((z >> 6) & 0x03)) & 0x3F) + 32 }
  function Fourth(z: byte): byte { (z & 0x3F) + 32 }

  lemma Characters(x: byte, y: byte, z: byte)
    ensures UuCodec.EncodeGroup(x, y, z) == [First(x), Second(x, y), Third(y, z), Fourth(z)]
  {}

  lemma FirstByte(c: byte, prev: byte, x: byte)
    requires UuCodec.Bits(c) << 2 == prev << 2
    ensures (UuCodec.Bits(c) << 2) | (UuCodec.Bits(First(x)) >> 4) == Moved(prev, x)
  {
    assert ((((x >> 2) & 0x3F) + 32 - 0x20) & 0x3F) >> 4 == x >> 6;
  }

  lemma SecondByte(x: byte, y: byte)
    ensures (UuCodec.Bits(First(x)) << 4) | (UuCodec.Bits(Second(x, y)) >> 2) == Moved(x, y)
  {}

  lemma ThirdByte(x: byte, y: byte, z: byte)
    ensures (UuCodec.Bits(Second(x, y)) << 6) | UuCodec.Bits(Third(y, z)) == Moved(y, z)
  {}

  lemma LastCharacter(z: byte)
    ensures UuCodec.Bits(Fourth(z)) << 2 == z << 2
  {}

  /** Three bytes behind the character `c`: its last character is left for what follows. */
  lemma ShiftGroup(c: byte, prev: byte, x: byte, y: byte, z: byte)
    requires UuCodec.Bits(c) << 2 == prev << 2
    ensures var g := UuCodec.EncodeGroup(x, y, z);
            && |g| == 4 && UuCodec.Bits(g[3]) << 2 == z << 2
            && UuCodec.DecodeGroup(c, g[0], g[1], g[2]) == [Moved(prev, x), Moved(x, y), Moved(y, z)]
  {
    hide UuCodec.Bits, UuCodec.EncodeGroup, First, Second, Third, Fourth, Moved;
    Characters(x, y, z);
    FirstByte(c, prev, x);
    SecondByte(x, y);
    ThirdByte(x, y, z);
    LastCharacter(z);
  }

  lemma ShiftOne(prev: byte, s: seq<byte>, k: nat)
    requires k < |s|
    ensures Shift(prev, s[k..]) == [Moved(prev, s[k])] + Shift(s[k], s[k + 1..])
  {
    hide Moved;
    assert s[k..][1..] == s[k + 1..];
  }

  lemma ShiftThree(prev: byte, s: seq<byte>)
    requires |s| >= 3
    ensures Shift(prev, s) == [Moved(prev, s[0]), Moved(s[0], s[1]), Moved(s[1], s[2])] + Shift(s[2], s[3..])
  {
    hide Moved, Shift;
    ShiftOne(prev, s, 0);
    ShiftOne(s[0], s, 1);
    ShiftOne(s[1], s, 2);
    assert s[0..] == s;
    ThreeInFront(Moved(prev, s[0]), Moved(s[0], s[1]), Moved(s[1], s[2]), Shift(s[2], s[3..]));
  }

  lemma ThreeInFront(a: byte, b: byte, c: byte, s: seq<byte>)
    ensures [a] + ([b] + ([c] + s)) == [a, b, c] + s
  {}

  /** A character in front of the groups moves all of them on. */
  lemma {:induction false} ShiftedGroups(c: byte, prev: byte, s: seq<byte>)
    requires UuCodec.Bits(c) << 2 == prev << 2
    ensures Shift(prev, s) <= UuCodec.DecodeGroups([c] + UuCodec.EncodeGroups(s))
    decreases |s|
  {
    hide UuCodec.EncodeGroups, UuCodec.DecodeGroups, UuCodec.EncodeGroup,
         UuCodec.DecodeGroup, UuCodec.Bits, Shift, Moved;
    if s != [] {
      var full := s + (if |s| == 1 then [0, 0] else if |s| == 2 then [0] else []);
      var x, y, z, rest := full[0], full[1], full[2], full[3..];
      var g, chars := UuCodec.EncodeGroup(x, y, z), UuCodec.EncodeGroups(rest);
      EncodesFull(s, full);
      ShiftThree(prev, full);
      ShiftPrefix(prev, s, full);
      ShiftGroup(c, prev, x, y, z);
      ShiftedGroups(g[3], z, rest);
      GroupOn(c, g, chars);
    }
  }

  lemma EncodesFull(s: seq<byte>, full: seq<byte>)
    requires s != [] && full == s + (if |s| == 1 then [0, 0] else if |s| == 2 then [0] else [])
    ensures UuCodec.EncodeGroups(s) == UuCodec.EncodeGroup(full[0], full[1], full[2]) + UuCodec.EncodeGroups(full[3..])
  {
    hide UuCodec.EncodeGroup;
    assert |s| >= 3 ==> full == s;
    assert |s| <= 3 ==> full[3..] == [];
  }

  lemma GroupOn(c: byte, g: seq<byte>, chars: seq<byte>)
    requires |g| == 4
    ensures UuCodec.DecodeGroups([c] + (g + chars)) ==
            UuCodec.DecodeGroup(c, g[0], g[1], g[2]) + UuCodec.DecodeGroups([g[3]] + chars)
  {
    hide UuCodec.DecodeGroups, UuCodec.DecodeGroup;
    assert [c] + (g + chars) == [c, g[0], g[1], g[2]] + ([g[3]] + chars);
    UuCodec.ConsGroup([c, g[0], g[1], g[2]], [g[3]] + chars, UuCodec.DecodeGroup(c, g[0], g[1], g[2]));
  }

  lemma {:induction false} ShiftPrefix(prev: byte, s: seq<byte>, t: seq<byte>)
    requires s <= t
    ensures Shift(prev, s) <= Shift(prev, t)
    decreases |s|
  {
    hide Moved;
    if s != [] { ShiftPrefix(s[0], s[1..], t[1..]); }
  }

  /** The stuffed line decodes to its chunk moved on behind the six bits of the dot. */
  lemma StuffedDecodes(chunk: seq<byte>)
    requires |chunk| == 14
    ensures UuCodec.DecodeLine(StuffedLine(chunk)) == Shift(14, chunk)
  {
    StuffedLooksLikeData(chunk);
    UuCodec.GroupsRoundTrip(chunk);
    LengthByte(14);
    assert UuCodec.Bits(DOT) << 2 == (14 as byte) << 2;
    ShiftedGroups(DOT, 14, chunk);
    var text := [DOT] + DataText(chunk);
    assert text[1..] == [DOT] + UuCodec.EncodeGroups(chunk);
    hide UuCodec.EncodeGroups, UuCodec.DecodeGroups, Shift;
  }

  // --- the one chunk that survives ------------------------------------------------------------------------

  /** All its groups of six bits are those of the dot. */
  const SAME: seq<byte> := [56, 227, 142, 56, 227, 142, 56, 227, 142, 56, 227, 142, 56, 227]

  /** The byte that moving on by six bits leaves as it is, behind `prev`. */
  function Next(prev: byte): byte { (prev << 2) | ((prev >> 4) & 3) }

  lemma FixedByte(prev: byte, x: byte)
    ensures Moved(prev, x) == x <==> x == Next(prev)
  {}

  function Fixed(prev: byte, n: nat): seq<byte>
    decreases n
  {
    if n == 0 then [] else [Next(prev)] + Fixed(Next(prev), n - 1)
  }

  lemma {:induction false} FixedJust(prev: byte, s: seq<byte>)
    ensures Shift(prev, s) == s <==> s == Fixed(prev, |s|)
    decreases |s|
  {
    hide Moved, Next;
    if s != [] {
      FixedByte(prev, s[0]);
      FixedJust(s[0], s[1..]);
      var x, t, r := s[0], s[1..], Shift(s[0], s[1..]);
      assert s == [x] + t;
      ConsSame(Moved(prev, x), r, x, t);
      ConsSame(x, t, Next(prev), Fixed(Next(prev), |s| - 1));
    }
  }

  lemma ConsSame(a: byte, s: seq<byte>, b: byte, t: seq<byte>)
    ensures [a] + s == [b] + t <==> a == b && s == t
  {
    assert ([a] + s)[1..] == s && ([b] + t)[1..] == t;
    assert ([a] + s)[0] == a && ([b] + t)[0] == b;
  }

  lemma FixedRound(prev: byte, n: nat)
    requires Next(prev) == 56
    ensures Fixed(prev, n + 3) == [56, 227, 142] + Fixed(142, n) && Next(142) == 56
  {
    assert Next(56) == 227 && Next(227) == 142 && Next(142) == 56;
    hide Next;
    assert Fixed(227, n + 1) == [142] + Fixed(142, n);
    assert Fixed(56, n + 2) == [227] + Fixed(227, n + 1);
    assert Fixed(prev, n + 3) == [56] + Fixed(56, n + 2);
  }

  lemma SameIsFixed()
    ensures Fixed(14, 14) == SAME
  {
    assert Next(14) == 56 && Next(56) == 227;
    FixedRound(14, 11);
    FixedRound(142, 8);
    FixedRound(142, 5);
    FixedRound(142, 2);
    assert Fixed(142, 2) == [56, 227];
  }

  /** Of all chunks of 14 bytes just this one is read back from its stuffed line. */
  lemma StuffedReadsBack(chunk: seq<byte>)
    requires |chunk| == 14
    ensures UuCodec.DecodeLine(StuffedLine(chunk)) == chunk <==> chunk == SAME
  {
    StuffedDecodes(chunk);
    FixedJust(14, chunk);
    SameIsFixed();
  }

  // --- the whole article ----------------------------------------------------------------------------------------

  lemma {:induction false} StuffedBody(front: seq<byte>, last: seq<byte>)
    requires |front| % UuCodec.CHUNK == 0 && |last| == 14
    ensures Framing.Raw(Framing.Map(Framing.Stuff, DataLines(front + last))) == UuCodec.Body(front) + StuffedLine(last)
    decreases |front|
  {
    hide Framing.Raw, DataText, UuCodec.EncodeLine;
    RawCons([], []);
    if front == [] {
      assert front + last == last && [] + StuffedLine(last) == StuffedLine(last);
      StuffText(last);
      RawCons(Framing.Stuff(DataText(last)), []);
      assert Framing.Map(Framing.Stuff, [DataText(last)]) == [Framing.Stuff(DataText(last))] + [];
      assert [DOT] + DataText(last) + CRLF + [] == StuffedLine(last) by { LineOfText(last); }
    } else {
      var chunk, more := front[..UuCodec.CHUNK], front[UuCodec.CHUNK..];
      StuffedBody(more, last);
      assert (front + last)[..UuCodec.CHUNK] == chunk && (front + last)[UuCodec.CHUNK..] == more + last;
      StuffText(chunk);
      var rest := DataLines(more + last);
      RawCons(DataText(chunk), Framing.Map(Framing.Stuff, rest));
      assert Framing.Map(Framing.Stuff, [DataText(chunk)] + rest) ==
          [DataText(chunk)] + Framing.Map(Framing.Stuff, rest);
      LineOfText(chunk);
      BodyOfFront(front);
      hide UuCodec.Body;
      assert UuCodec.EncodeLine(chunk) + (UuCodec.Body(more) + StuffedLine(last)) ==
          UuCodec.EncodeLine(chunk) + UuCodec.Body(more) + StuffedLine(last);
    }
  }

  lemma StuffText(chunk: seq<byte>)
    requires |chunk| <= UuCodec.CHUNK
    ensures Framing.Stuff(DataText(chunk)) == if |chunk| == 14 then [DOT] + DataText(chunk) else DataText(chunk)
  {
    DataDotted(chunk);
    hide UuCodec.EncodeGroups;
  }

  lemma LineOfText(chunk: seq<byte>)
    requires |chunk| <= UuCodec.CHUNK
    ensures DataText(chunk) + CRLF == UuCodec.EncodeLine(chunk)
  {
    hide UuCodec.EncodeGroups;
  }

  lemma BodyOfFront(front: seq<byte>)
    requires |front| >= UuCodec.CHUNK
    ensures UuCodec.Body(front) == UuCodec.EncodeLine(front[..UuCodec.CHUNK]) + UuCodec.Body(front[UuCodec.CHUNK..])
  {
    hide UuCodec.EncodeGroups;
    if |front| == UuCodec.CHUNK {
      assert front[..UuCodec.CHUNK] == front && UuCodec.EncodeLine(front) + [] == UuCodec.EncodeLine(front);
    }
  }

  lemma StuffedWire(front: seq<byte>, last: seq<byte>, name: seq<byte>, mode: nat)
    requires |front| % UuCodec.CHUNK == 0 && |last| == 14
    ensures Framing.Wire(Lines(front + last, name, mode)) ==
            UuCodec.Header(name, mode) + (UuCodec.Body(front) + (StuffedLine(last) + (UuCodec.END_LINE + FINAL)))
  {
    hide Framing.Raw, DataLines, UuCodec.Body, UuCodec.Octal3,
         StuffedLine, Framing.Map, Framing.Stuff, HeadText, Dotted;
    StuffedBody(front, last);
    RawCons([], []);
    NotDotted(name, mode);
    var data := DataLines(front + last);
    var stuffed := Framing.Map(Framing.Stuff, data);
    MapLines(HeadText(name, mode), data, UuCodec.END);
    RawCons(UuCodec.END, []);
    assert [UuCodec.END] + [] == [UuCodec.END] && UuCodec.END + CRLF + [] == UuCodec.END_LINE;
    Framing.RawAppend(stuffed, [UuCodec.END]);
    RawCons(HeadText(name, mode), stuffed + [UuCodec.END]);
    WirePieces(UuCodec.Header(name, mode), UuCodec.Body(front), StuffedLine(last));
  }

  lemma MapLines(head: Line, data: seq<Line>, end: Line)
    ensures Framing.Map(Framing.Stuff, [head] + (data + [end])) ==
            [Framing.Stuff(head)] + (Framing.Map(Framing.Stuff, data) + [Framing.Stuff(end)])
  {
    hide Framing.Stuff;
  }

  lemma WirePieces(h: seq<byte>, b: seq<byte>, l: seq<byte>)
    ensures h + (b + l + UuCodec.END_LINE) + FINAL == h + (b + (l + (UuCodec.END_LINE + FINAL)))
  {}

  lemma StuffedOutcome(front: seq<byte>, last: seq<byte>, name: seq<byte>, mode: nat, cap: nat, prompt: bool)
    requires |front| % UuCodec.CHUNK == 0 && |last| == 14
    requires forall k: nat :: !CrlfAt(name, k)
    requires cap >= 64 && |UuCodec.Header(name, mode)| <= cap
    ensures Whole(Fresh, Framing.Wire(Lines(front + last, name, mode)), cap, prompt) ==
            if mode < 512 then Outcome(front + UuCodec.DecodeLine(StuffedLine(last)), EndOfFile)
            else Outcome([], DataMissing)
  {
    hide Whole, ProcessLine, UuCodec.Header, UuCodec.Body, UuCodec.EncodeLine, UuCodec.DecodeLine;
    var end := UuCodec.END_LINE + FINAL;
    var line := StuffedLine(last);
    var head, tail := UuCodec.Header(name, mode), UuCodec.Body(front) + (line + end);
    StuffedWire(front, last, name, mode);
    HeaderIsOneLine(name, mode, tail);
    HeaderDetected(name, mode);
    LineThenRest(Fresh, head, tail, cap, prompt);
    StuffedLooksLikeData(last);
    DataIsOneLine(line, end);
    if mode < 512 {
      var d := Fields(UuFormat, true, true, false);
      BodyWhole(d, front, line + end, cap, prompt);
      DataIsPlain(d, line);
      LineThenRest(d, line, end, cap, prompt);
      Trailer(d, cap, prompt);
      var got := UuCodec.DecodeLine(line);
      assert [] + (front + (got + [])) == front + got;
    } else {
      var d := HeadlessBody(Fresh, front, line + end, cap, prompt);
      DataIsPlain(d, line);
      LineThenRest(d, line, end, cap, prompt);
      Trailer(ProcessLine(d, line).0, cap, prompt);
    }
  }

  /** MAIN, a finding: what mode 4 makes of UU text sent over NNTP. It is the data, with the normal
      end, just for modes below 0o1000 and data whose last line does not have 14 bytes or is SAME.
      Any other last line of 14 bytes is misread without an error. */
  lemma SentAndRead(src: seq<byte>, name: seq<byte>, mode: nat, cap: nat, prompt: bool)
    requires forall k: nat :: !CrlfAt(name, k)
    requires cap >= 64 && |UuCodec.Header(name, mode)| <= cap
    ensures var o := Whole(Fresh, Framing.Wire(Lines(src, name, mode)), cap, prompt);
            && (o == Outcome(src, EndOfFile) <==>
               mode < 512 && (|src| % UuCodec.CHUNK != 14 || src[|src| - 14..] == SAME))
            && o == if mode >= 512 then Outcome([], DataMissing)
                    else if |src| % UuCodec.CHUNK != 14 then Outcome(src, EndOfFile)
                    else Outcome(src[..|src| - 14] + Shift(14, src[|src| - 14..]), EndOfFile)
  {
    hide Whole, Framing.Wire, Lines, UuCodec.Header, UuCodec.Encode, UuCodec.DecodeLine, Shift;
    SentAsEncoded(src, name, mode);
    if |src| % UuCodec.CHUNK != 14 {
      UuRoundTrip(src, name, mode, cap, prompt);
    } else {
      var front, last := src[..|src| - 14], src[|src| - 14..];
      assert src == front + last;
      StuffedOutcome(front, last, name, mode, cap, prompt);
      StuffedDecodes(last);
      StuffedReadsBack(last);
      var got := Shift(14, last);
      Framing.SameFront(front, got, last);
    }
  }

  const ZEROS: seq<byte> := [0, 0, 0, 0, 0, 0, 0, 0, 0, 0, 0, 0, 0, 0]

  /** 14 zero bytes come out with a first byte of 56. */
  lemma ZerosAreMisread(prompt: bool)
    ensures Whole(Fresh, Framing.Wire(Lines(ZEROS, [], 420)), 1024, prompt) == Outcome([56] + ZEROS[1..], EndOfFile)
    ensures [56] + ZEROS[1..] != ZEROS
  {
    hide Whole, Framing.Wire, Lines, Shift, UuCodec.Header;
    HeaderLength(420);
    SentAndRead(ZEROS, [], 420, 1024, prompt);
    ZerosMoved();
    assert ZEROS[..0] == [] && ZEROS[0..] == ZEROS && [] + Shift(14, ZEROS) == Shift(14, ZEROS);
  }

  lemma ZerosMoved()
    ensures |ZEROS| == 14 && Shift(14, ZEROS) == [56] + ZEROS[1..] && ([56] + ZEROS[1..])[0] != ZEROS[0]
  {
    assert Moved(14, 0) == 56;
    hide Moved;
    assert ZEROS[1..] == [0, 0, 0, 0, 0, 0, 0, 0, 0, 0, 0, 0, 0];
    ZerosShift(0, ZEROS[1..]);
  }

  lemma HeaderLength(mode: nat)
    requires mode < 512
    ensures |UuCodec.Header([], mode)| == 12
  {
    OctalMode(mode);
  }

  lemma {:induction false} ZerosShift(prev: byte, s: seq<byte>)
    requires prev == 0 && forall k | 0 <= k < |s| :: s[k] == 0
    ensures Shift(prev, s) == s
    decreases |s|
  {
    if s != [] {
      assert Moved(prev, s[0]) == 0;
      hide Moved;
      ZerosShift(0, s[1..]);
      assert s == [0] + s[1..];
    }
  }
}
