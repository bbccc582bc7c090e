/** UU encoding (rapidyenc/uuencode.go) and the decoding of one UU line (rapidyenc/decoder.go).

    Groups of three bytes become four printable characters; a line starts with a character for its
    number of bytes.

    The text is a header line, data lines of up to 45 bytes and an end line. */
module UuCodec {
  import opened Bytes

  const CHUNK := 45

  const BEGIN: seq<byte> := [98, 101, 103, 105, 110, 32]   // "begin "
  const END: seq<byte> := [101, 110, 100]                  // "end"
  const END_LINE: seq<byte> := END + CRLF

  // --- groups of three bytes, four characters ------------------------------------------

  function EncodeGroup(a: byte, b: byte, c: byte): seq<byte> {
    [((a >> 2) & 0x3F) + 32,
     (((a << 4) | ((b >> 4) & 0x0F)) & 0x3F) + 32,
     (((b << 2) | ((c >> 6) & 0x03)) & 0x3F) + 32,
     (c & 0x3F) + 32]
  }

  function Bits(x: byte): byte { (x - 0x20) & 0x3F }

  function DecodeGroup(w: byte, x: byte, y: byte, z: byte): seq<byte> {
    [(Bits(w) << 2) | (Bits(x) >> 4), (Bits(x) << 4) | (Bits(y) >> 2), (Bits(y) << 6) | Bits(z)]
  }

  function EncodeGroups(s: seq<byte>): seq<byte>
    decreases |s|
  {
    if s == [] then []
    else
      var b, c := if |s| > 1 then s[1] else 0, if |s| > 2 then s[2] else 0;
      EncodeGroup(s[0], b, c) + EncodeGroups(if |s| > 3 then s[3..] else [])
  }

  /** Whole groups only; what is left over is not decoded. */
  function DecodeGroups(t: seq<byte>): (r: seq<byte>)
    ensures |r| == |t| / 4 * 3
  {
    if |t| < 4 then [] else DecodeGroup(t[0], t[1], t[2], t[3]) + DecodeGroups(t[4..])
  }

  lemma GroupRoundTrip(a: byte, b: byte, c: byte)
    ensures var g := EncodeGroup(a, b, c); DecodeGroup(g[0], g[1], g[2], g[3]) == [a, b, c]
    ensures forall k | 0 <= k < 4 :: 32 <= EncodeGroup(a, b, c)[k] <= 95
  {
    assert (((((a >> 2) & 0x3F) + 32 - 0x20) & 0x3F) << 2)
           | ((((((a << 4) | ((b >> 4) & 0x0F)) & 0x3F) + 32 - 0x20) & 0x3F) >> 4) == a;
    assert ((((((a << 4) | ((b >> 4) & 0x0F)) & 0x3F) + 32 - 0x20) & 0x3F) << 4)
           | ((((((b << 2) | ((c >> 6) & 0x03)) & 0x3F) + 32 - 0x20) & 0x3F) >> 2) == b;
    assert ((((((b << 2) | ((c >> 6) & 0x03)) & 0x3F) + 32 - 0x20) & 0x3F) << 6)
           | ((((c & 0x3F) + 32) - 0x20) & 0x3F) == c;
  }

  lemma ConsGroup(g: seq<byte>, chars: seq<byte>, d: seq<byte>)
    requires |g| == 4 && DecodeGroup(g[0], g[1], g[2], g[3]) == d
    ensures DecodeGroups(g + chars) == d + DecodeGroups(chars)
  {
    assert (g + chars)[4..] == chars;
  }

  /** One group: `s` is its first bytes and the rest, `t` the text of the rest. */
  lemma GroupsStep(s: seq<byte>, rest: seq<byte>, g: seq<byte>)
    requires s != [] && rest == (if |s| > 3 then s[3..] else [])
    requires g == EncodeGroup(s[0], if |s| > 1 then s[1] else 0, if |s| > 2 then s[2] else 0)
    ensures EncodeGroups(s) == g + EncodeGroups(rest) && |g| == 4
    ensures forall k | 0 <= k < 4 :: 32 <= g[k] <= 95
    ensures DecodeGroups(EncodeGroups(s)) ==
            [s[0], if |s| > 1 then s[1] else 0, if |s| > 2 then s[2] else 0] + DecodeGroups(EncodeGroups(rest))
  {
    var b, c := if |s| > 1 then s[1] else 0, if |s| > 2 then s[2] else 0;
    GroupRoundTrip(s[0], b, c);
    ConsGroup(g, EncodeGroups(rest), [s[0], b, c]);
  }

  predicate Printable(t: seq<byte>) { forall k | 0 <= k < |t| :: 32 <= t[k] <= 95 }

  lemma {:induction false} GroupsRoundTrip(s: seq<byte>)
    ensures |EncodeGroups(s)| == (|s| + 2) / 3 * 4
    ensures s <= DecodeGroups(EncodeGroups(s))
    ensures Printable(EncodeGroups(s))
    decreases |s|
  {
    if s != [] {
      var rest := if |s| > 3 then s[3..] else [];
      GroupsStep(s, rest, EncodeGroup(s[0], if |s| > 1 then s[1] else 0, if |s| > 2 then s[2] else 0));
      GroupsRoundTrip(rest);
    }
  }

  // --- one line ------------------------------------------------------------------------

  function EncodeLine(chunk: seq<byte>): seq<byte>
    requires |chunk| <= CHUNK
  {
    [(|chunk| + 32) as byte] + EncodeGroups(chunk) + CRLF
  }

  /** The line without its CRLF. */
  function Strip(line: seq<byte>): seq<byte> {
    if |line| >= 2 && line[|line| - 2..] == CRLF then line[..|line| - 2] else line
  }

  function Declared(line: seq<byte>): nat
    requires line != []
  {
    Bits(line[0]) as nat
  }

  function Min(a: nat, b: nat): nat { if a < b then a else b }

  /** What a line decodes to: its whole groups, cut to the declared length. */
  function DecodeLine(line: seq<byte>): seq<byte> {
    var t := Strip(line);
    if t == [] then [] else var g := DecodeGroups(t[1..]); g[..Min(Declared(t), |g|)]
  }

  /** Exactly min(declared length, 3 * floor((n - 1) / 4)) bytes for a line of n characters. */
  lemma DecodedLength(line: seq<byte>)
    requires Strip(line) != []
    ensures |DecodeLine(line)| == Min(Declared(Strip(line)), (|Strip(line)| - 1) / 4 * 3)
    ensures |DecodeLine(line)| < |Strip(line)|
  {}

  lemma LengthChar(n: nat)
    requires n <= CHUNK
    ensures var c := (n + 32) as byte; Bits(c) as nat == n && 32 <= c <= 77
  {
    var c := (n + 32) as byte;
    assert c as nat == n + 32;
    assert 32 <= c <= 77;
    assert Bits(c) == c - 32;
    assert (c - 32) as nat == c as nat - 32;
  }

  lemma StripCrlf(t: seq<byte>)
    ensures Strip(t + CRLF) == t
  {
    assert (t + CRLF)[|t|..] == CRLF && (t + CRLF)[..|t|] == t;
  }

  lemma TextDecodes(t: seq<byte>, chunk: seq<byte>)
    requires t != [] && Declared(t) == |chunk| && chunk <= DecodeGroups(t[1..])
    ensures DecodeLine(t + CRLF) == chunk
  {
    StripCrlf(t);
  }

  /** A line of the encoder decodes to its chunk. */
  lemma LineRoundTrip(chunk: seq<byte>)
    requires |chunk| <= CHUNK
    ensures DecodeLine(EncodeLine(chunk)) == chunk
  {
    var t := [(|chunk| + 32) as byte] + EncodeGroups(chunk);
    LengthChar(|chunk|);
    GroupsRoundTrip(chunk);
    assert t[1..] == EncodeGroups(chunk);
    TextDecodes(t, chunk);
  }

  /** ... and has no CR or LF but its last two bytes. */
  lemma LineIsOneLine(chunk: seq<byte>)
    requires |chunk| <= CHUNK
    ensures forall k | 0 <= k < |EncodeLine(chunk)| - 2 :: 32 <= EncodeLine(chunk)[k] <= 95
  {
    LengthChar(|chunk|);
    GroupsRoundTrip(chunk);
  }

  method UUdecode(line: seq<byte>) returns (decoded: seq<byte>)
    ensures decoded == DecodeLine(line)
  {
    var t := line;
    if |line| >= 2 && line[|line| - 2] == CR && line[|line| - 1] == LF {
      t := line[..|line| - 2];
      assert line[|line| - 2..] == CRLF;
    }
    if |t| == 0 { return []; }
    var encLen: int := Bits(t[0]) as int;
    if encLen == 0 { return []; }
    decoded := TakeGroups(t, encLen);
  }

  /** The loop of UUdecode over the characters after the first. */
  method TakeGroups(t: seq<byte>, declared: nat) returns (decoded: seq<byte>)
    requires t != []
    ensures var all := DecodeGroups(t[1..]); decoded == all[..Min(declared, |all|)]
  {
    decoded := [];
    var i, encLen: int := 1, declared;
    ghost var all := DecodeGroups(t[1..]);
    assert [] + all == all;
    while encLen > 0 && i + 4 <= |t|
      invariant 1 <= i <= |t| && encLen + |decoded| == declared
      invariant decoded + DecodeGroups(t[i..]) == all
    {
      ghost var rest := DecodeGroups(t[i + 4..]);
      DecodeStep(t, i, decoded);
      var g := DecodeGroup(t[i], t[i + 1], t[i + 2], t[i + 3]);
      decoded := decoded + g;
      i := i + 4;
      encLen := encLen - 3;
      assert decoded + rest == all;
    }
    CutGroups(decoded, t[i..], all, declared);
    if encLen < 0 { decoded := decoded[..|decoded| + encLen]; }
  }

  lemma CutGroups(front: seq<byte>, chars: seq<byte>, all: seq<byte>, declared: nat)
    requires front + DecodeGroups(chars) == all
    ensures |front| >= declared ==> front[..declared] == all[..Min(declared, |all|)]
    ensures |chars| < 4 && |front| <= declared ==> front == all[..Min(declared, |all|)]
  {
    var rest := DecodeGroups(chars);
    assert |chars| < 4 ==> rest == [];
    CutRest(front, rest, declared);
    hide DecodeGroups;
  }

  lemma CutRest(front: seq<byte>, rest: seq<byte>, declared: nat)
    ensures var all := front + rest;
            && (|front| >= declared ==> front[..declared] == all[..Min(declared, |all|)])
            && (rest == [] && |front| <= declared ==> front == all[..Min(declared, |all|)])
  {}

  lemma DecodeStep(t: seq<byte>, i: nat, front: seq<byte>)
    requires i + 4 <= |t|
    ensures front + DecodeGroups(t[i..]) ==
            front + DecodeGroup(t[i], t[i + 1], t[i + 2], t[i + 3]) + DecodeGroups(t[i + 4..])
  {
    assert t[i..][4..] == t[i + 4..];
  }

  // --- the whole text ------------------------------------------------------------------

  function OctalDigits(n: nat): seq<byte> {
    if n < 8 then [(n + 48) as byte] else OctalDigits(n / 8) + [(n % 8 + 48) as byte]
  }

  /** "%03o" */
  function Octal3(n: nat): seq<byte> {
    var d := OctalDigits(n);
    if |d| == 1 then [48, 48] + d else if |d| == 2 then [48] + d else d
  }

  /** The number with these digits in base 8. */
  function Base8(s: seq<byte>): int {
    if s == [] then 0 else Base8(s[..|s| - 1]) * 8 + (s[|s| - 1] as int - 48)
  }

  lemma {:induction false} DigitsReadBack(n: nat)
    ensures Base8(OctalDigits(n)) == n
    decreases n
  {
    hide Base8;
    OctalByte(n % 8);
    var d := (n % 8 + 48) as byte;
    if n >= 8 {
      DigitsReadBack(n / 8);
      OctalDigits8(OctalDigits(n / 8), d);
    } else {
      OctalDigits8([], d);
      assert [] + [d] == [d];
    }
  }

  lemma OctalByte(d: nat)
    requires d < 8
    ensures ((d + 48) as byte) as int - 48 == d && Base8([]) == 0
  {}

  /** The octal digits give the mode back. */
  lemma OctalReadsBack(n: nat)
    ensures Base8(Octal3(n)) == n
  {
    DigitsReadBack(n);
    hide OctalDigits, Base8;
    ZeroInFront(OctalDigits(n));
    ZeroInFront([48] + OctalDigits(n));
    assert [48] + ([48] + OctalDigits(n)) == [48, 48] + OctalDigits(n);
  }

  lemma NextDigit(m: nat, c: byte) returns (n: nat)
    requires 48 <= c <= 55
    ensures 8 * m <= n < 8 * m + 8 && OctalDigits(n) == if m == 0 then [c] else OctalDigits(m) + [c]
  {
    var z := ValueOf(c);
    n := 8 * m + z;
    DivMod(m, z);
  }

  lemma ValueOf(c: byte) returns (z: nat)
    requires 48 <= c <= 55
    ensures z < 8 && (z + 48) as byte == c
  {
    z := c as nat - 48;
  }

  lemma DivMod(m: nat, z: nat)
    requires z < 8
    ensures (8 * m + z) / 8 == m && (8 * m + z) % 8 == z
  {}

  /** Any three octal digits are those of a mode. */
  lemma ThreeDigits(a: byte, b: byte, c: byte) returns (n: nat)
    requires 48 <= a <= 55 && 48 <= b <= 55 && 48 <= c <= 55
    ensures n < 512 && Octal3(n) == [a, b, c]
  {
    var x := NextDigit(0, a);
    var m := NextDigit(x, b);
    n := NextDigit(m, c);
    assert OctalDigits(0) == [48];
    hide OctalDigits;
  }

  lemma OctalDigits8(s: seq<byte>, d: byte)
    ensures Base8(s + [d]) == Base8(s) * 8 + (d as int - 48)
  {
    assert (s + [d])[..|s|] == s;
  }

  lemma {:induction false} ZeroInFront(s: seq<byte>)
    ensures Base8([48] + s) == Base8(s)
    decreases |s|
  {
    if s == [] {
      assert [48] + s == [48] && [48][..0] == [];
      assert Base8([]) == 0;
    } else {
      ZeroInFront(s[..|s| - 1]);
      assert [48] + s == [48] + s[..|s| - 1] + [s[|s| - 1]];
      OctalDigits8([48] + s[..|s| - 1], s[|s| - 1]);
    }
  }

  function Header(name: seq<byte>, mode: nat): seq<byte> { BEGIN + Octal3(mode) + [SPACE] + name + CRLF }

  function Body(src: seq<byte>): seq<byte> {
    if src == [] then []
    else if |src| > CHUNK then EncodeLine(src[..CHUNK]) + Body(src[CHUNK..])
    else EncodeLine(src)
  }

  function Encode(src: seq<byte>, name: seq<byte>, mode: nat): seq<byte> { Header(name, mode) + Body(src) + END_LINE }

  function From(s: seq<byte>, i: nat): seq<byte> { if i < |s| then s[i..] else [] }

  lemma BodyStep(src: seq<byte>, i: nat)
    requires i < |src|
    ensures var chunk := if |src| - i > CHUNK then src[i..][..CHUNK] else src[i..];
            Body(src[i..]) == EncodeLine(chunk) + Body(From(src, i + CHUNK))
  {
    if |src| - i > CHUNK {
      assert src[i..][CHUNK..] == src[i + CHUNK..];
    } else {
      assert EncodeLine(src[i..]) + [] == EncodeLine(src[i..]);
    }
  }

  method UUEncode(src: seq<byte>, name: seq<byte>, mode: nat) returns (buf: seq<byte>)
    ensures buf == Encode(src, name, mode)
  {
    buf := Header(name, mode);
    ghost var head := buf;
    var i := 0;
    assert src[0..] == src;
    while i < |src|
      invariant 0 <= i <= |src| + CHUNK
      invariant buf + Body(From(src, i)) == head + Body(src)
    {
      var chunk := src[i..];
      if |chunk| > CHUNK { chunk := chunk[..CHUNK]; }
      var line := EncodeChunk(chunk);
      BodyStep(src, i);
      assert buf + (line + Body(From(src, i + CHUNK))) == buf + line + Body(From(src, i + CHUNK));
      buf := buf + line;
      i := i + CHUNK;
    }
    assert buf + [] == buf && head + Body(src) + END_LINE == Encode(src, name, mode);
    buf := buf + END_LINE;
  }

  lemma GroupStep(s: seq<byte>, j: nat)
    requires j < |s|
    ensures EncodeGroups(s[j..]) ==
            EncodeGroup(s[j], if j + 1 < |s| then s[j + 1] else 0, if j + 2 < |s| then s[j + 2] else 0)
            + EncodeGroups(From(s, j + 3))
  {
    assert |s| - j > 3 ==> s[j..][3..] == s[j + 3..];
  }

  method EncodeChunk(chunk: seq<byte>) returns (line: seq<byte>)
    requires |chunk| <= CHUNK
    ensures line == EncodeLine(chunk)
  {
    line := [(|chunk| + 32) as byte];
    ghost var head := line;
    var j := 0;
    assert chunk[0..] == chunk;
    while j < |chunk|
      invariant 0 <= j <= |chunk| + 2
      invariant line + EncodeGroups(From(chunk, j)) == head + EncodeGroups(chunk)
    {
      var a, b, c: byte := chunk[j], 0, 0;
      if j + 1 < |chunk| { b := chunk[j + 1]; }
      if j + 2 < |chunk| { c := chunk[j + 2]; }
      GroupStep(chunk, j);
      assert line + (EncodeGroup(a, b, c) + EncodeGroups(From(chunk, j + 3))) ==
          line + EncodeGroup(a, b, c) + EncodeGroups(From(chunk, j + 3));
      line := line + EncodeGroup(a, b, c);
      j := j + 3;
    }
    assert line + [] == line;
    line := line + CRLF;
  }
}
