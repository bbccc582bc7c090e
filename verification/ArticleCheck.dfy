/** The yEnc check of a received article, and the encoder of such articles. */
module ArticleCheck {
  // Modes 1, 2 and 3 (yenc/yenc.go and the end of readDotLines in NetConn.go), and encodeArticle of
  // tools/nntpseed.

  import opened Bytes
  import opened Text
  import opened Wrappers
  import Framing
  import Yenc

  type Line = seq<byte>

  // --- CRC32 -----------------------------------------------------------------------------------

  function CrcBits(c: bv32, k: nat): bv32
    decreases k
  {
    if k == 0 then c else CrcBits(if c & 1 == 1 then (c >> 1) ^ 0xEDB8_8320 else c >> 1, k - 1)
  }

  function CrcByte(c: bv32, b: byte): bv32 { CrcBits(c ^ (b as bv32), 8) }

  /** The state of the hash after more data; `Sum32` is its complement. */
  function CrcUpdate(c: bv32, data: seq<byte>): bv32
    decreases |data|
  {
    if data == [] then c else CrcUpdate(CrcByte(c, data[0]), data[1..])
  }

  const CRC_START: bv32 := 0xFFFF_FFFF

  function Sum32(c: bv32): bv32 { c ^ 0xFFFF_FFFF }

  /** A uint32 as a number. */
  function Number(c: bv32): nat { c as nat }

  function Checksum(data: seq<byte>): bv32 { Sum32(CrcUpdate(CRC_START, data)) }

  /** Hashing piece by piece is hashing the whole. */
  lemma {:induction false} CrcAppend(c: bv32, a: seq<byte>, b: seq<byte>)
    ensures CrcUpdate(c, a + b) == CrcUpdate(CrcUpdate(c, a), b)
    decreases |a|
  {
    hide CrcByte;
    if a == [] {
      assert a + b == b;
    } else {
      CrcAppend(CrcByte(c, a[0]), a[1..], b);
      assert (a + b)[1..] == a[1..] + b && (a + b)[0] == a[0];
    }
  }

  function CrcBit(c: bv32): bv32 { if c & 1 == 1 then (c >> 1) ^ 0xEDB8_8320 else c >> 1 }

  lemma EightBits(c: bv32, b: byte)
    ensures CrcByte(c, b) ==
            CrcBit(CrcBit(CrcBit(CrcBit(CrcBit(CrcBit(CrcBit(CrcBit(c ^ (b as bv32)))))))))
  {
    var d := c ^ (b as bv32);
    BitStep(d, 7);
    BitStep(CrcBit(d), 6);
    BitStep(CrcBit(CrcBit(d)), 5);
    BitStep(CrcBit(CrcBit(CrcBit(d))), 4);
    BitStep(CrcBit(CrcBit(CrcBit(CrcBit(d)))), 3);
    BitStep(CrcBit(CrcBit(CrcBit(CrcBit(CrcBit(d))))), 2);
    BitStep(CrcBit(CrcBit(CrcBit(CrcBit(CrcBit(CrcBit(d)))))), 1);
    BitStep(CrcBit(CrcBit(CrcBit(CrcBit(CrcBit(CrcBit(CrcBit(d))))))), 0);
    hide CrcBits, CrcBit;
  }

  lemma BitStep(c: bv32, k: nat)
    ensures CrcBits(c, k + 1) == CrcBits(CrcBit(c), k) && CrcBits(c, 0) == c
  {}

  lemma CrcAt(c: bv32, data: seq<byte>, k: nat)
    requires k < |data|
    ensures CrcUpdate(c, data[k..]) == CrcUpdate(CrcByte(c, data[k]), data[k + 1..])
  {
    hide CrcByte;
    assert data[k..][1..] == data[k + 1..];
  }

  /** The states of the hash along "123456789". */
  lemma CheckBytes()
    ensures CrcByte(0xFFFF_FFFF, 49) == 0x7C23_1048
    ensures CrcByte(0x7C23_1048, 50) == 0xB0AC_BB32
    ensures CrcByte(0xB0AC_BB32, 51) == 0x77B7_9C2D
    ensures CrcByte(0x77B7_9C2D, 52) == 0x641C_1F5C
    ensures CrcByte(0x641C_1F5C, 53) == 0x340A_C5E3
    ensures CrcByte(0x340A_C5E3, 54) == 0xF68D_2C9E
    ensures CrcByte(0xF68D_2C9E, 55) == 0xAFFC_9660
    ensures CrcByte(0xAFFC_9660, 56) == 0x651F_2550
    ensures CrcByte(0x651F_2550, 57) == 0x340B_C6D9
  {
    EightBits(0xFFFF_FFFF, 49);
    EightBits(0x7C23_1048, 50);
    EightBits(0xB0AC_BB32, 51);
    EightBits(0x77B7_9C2D, 52);
    EightBits(0x641C_1F5C, 53);
    EightBits(0x340A_C5E3, 54);
    EightBits(0xF68D_2C9E, 55);
    EightBits(0xAFFC_9660, 56);
    EightBits(0x651F_2550, 57);
    hide CrcByte;
  }

  lemma CrcAlong(data: seq<byte>)
    requires |data| == 9 && data[0] == 49 && data[1] == 50 && data[2] == 51 && data[3] == 52 && data[4] == 53
    requires data[5] == 54 && data[6] == 55 && data[7] == 56 && data[8] == 57
    ensures CrcUpdate(0xFFFF_FFFF, data) == 0x340B_C6D9
  {
    CheckBytes();
    hide CrcByte;
    CrcAt(0xFFFF_FFFF, data, 0);
    CrcAt(0x7C23_1048, data, 1);
    CrcAt(0xB0AC_BB32, data, 2);
    CrcAt(0x77B7_9C2D, data, 3);
    CrcAt(0x641C_1F5C, data, 4);
    CrcAt(0x340A_C5E3, data, 5);
    CrcAt(0xF68D_2C9E, data, 6);
    CrcAt(0xAFFC_9660, data, 7);
    CrcAt(0x651F_2550, data, 8);
    hide CrcUpdate;
    assert data[0..] == data && data[9..] == [];
    CrcNothing(0x340B_C6D9);
  }

  lemma CrcNothing(c: bv32)
    ensures CrcUpdate(c, []) == c
  {}

  /** It is the CRC with the standard check value: of "123456789" it is CBF43926. */
  lemma CrcCheckValue()
    ensures Checksum([49, 50, 51, 52, 53, 54, 55, 56, 57]) == 0xCBF4_3926
  {
    CrcAlong([49, 50, 51, 52, 53, 54, 55, 56, 57]);
    hide CrcUpdate;
  }

  // --- control lines -----------------------------------------------------------------------------

  const YBEGIN: seq<byte> := [61, 121, 98, 101, 103, 105, 110]   // =ybegin
  const YPART: seq<byte> := [61, 121, 112, 97, 114, 116]         // =ypart
  const YEND: seq<byte> := [61, 121, 101, 110, 100]              // =yend

  const SIZE: seq<byte> := [115, 105, 122, 101]
  const LINE: seq<byte> := [108, 105, 110, 101]
  const PART: seq<byte> := [112, 97, 114, 116]
  const TOTAL: seq<byte> := [116, 111, 116, 97, 108]
  const BEGIN: seq<byte> := [98, 101, 103, 105, 110]
  const END: seq<byte> := [101, 110, 100]
  const PCRC32: seq<byte> := [112, 99, 114, 99, 51, 50]
  const CRC32: seq<byte> := [99, 114, 99, 51, 50]
  const NAME: seq<byte> := [110, 97, 109, 101, 61]               // name=

  /** What the control lines say about a part. */
  datatype Part = Part(number: int, headerSize: int, begin: int, end: int, name: seq<byte>, size: int, crc: int)

  const Unset := Part(0, 0, 0, 0, [], 0, 0)

  /** "key=value" as the parsers take a word apart. */
  function KeyValue(word: seq<byte>): Option<(seq<byte>, seq<byte>)> {
    var kv := Split(EQ, Trim(word));
    if |kv| < 2 then None else Some((kv[0], kv[1]))
  }

  function HeaderWord(p: Part, multi: bool, word: seq<byte>): (Part, bool) {
    match KeyValue(word)
    case None => (p, multi)
    case Some((key, value)) =>
      if key == SIZE then (p.(headerSize := ParseInt(value).value), multi)
      else if key == PART then (p.(number := ParseInt(value).value), true)
      else (p, multi)
  }

  function HeaderWords(p: Part, multi: bool, words: seq<seq<byte>>): (Part, bool)
    decreases |words|
  {
    if words == [] then (p, multi)
    else var (q, m) := HeaderWord(p, multi, words[0]); HeaderWords(q, m, words[1..])
  }

  /** Where "name=" first occurs. */
  function FindName(s: seq<byte>): (r: Option<nat>)
    ensures r.Some? ==> r.value + 5 <= |s|
  {
    if |s| < 5 then None
    else if NAME <= s then Some(0)
    else match FindName(s[1..]) case None => None case Some(i) => Some(i + 1)
  }

  /** ReadHeader, once it has its line. */
  function Header(p: Part, multi: bool, s: seq<byte>): (Part, bool)
    requires |s| >= 7
  {
    var t := s[7..];
    match FindName(t)
    case None => HeaderWords(p, multi, Split(SPACE, t))
    case Some(i) => HeaderWords(p.(name := Trim(t[i + 5..])), multi, Split(SPACE, t[..i]))
  }

  function PartWord(p: Part, word: seq<byte>): Part {
    match KeyValue(word)
    case None => p
    case Some((key, value)) =>
      if key == BEGIN then p.(begin := ParseInt(value).value)
      else if key == END then p.(end := ParseInt(value).value)
      else p
  }

  function PartWords(p: Part, words: seq<seq<byte>>): Part
    decreases |words|
  {
    if words == [] then p else PartWords(PartWord(p, words[0]), words[1..])
  }

  /** ReadPartHeader, once it has its line. */
  function PartHeader(p: Part, s: seq<byte>): Part
    requires |s| >= 6
  {
    PartWords(p, Split(SPACE, s[6..]))
  }

  /** None is an error return. */
  function TrailerWord(p: Part, word: seq<byte>): Option<Part> {
    match KeyValue(word)
    case None => Some(p)
    case Some((key, value)) =>
      if key == SIZE then (var n := ParseInt(value); if n.err then None else Some(p.(size := n.value)))
      else if key == PCRC32 then (var n := ParseHex32(value); if n.err then None else Some(p.(crc := n.value)))
      else if key == CRC32 then (if ParseHex32(value).err then None else Some(p))
      else if key == PART then (var n := ParseInt(value); if n.err || n.value != p.number then None else Some(p))
      else Some(p)
  }

  function TrailerWords(p: Part, words: seq<seq<byte>>): Option<Part>
    decreases |words|
  {
    if words == [] then Some(p)
    else match TrailerWord(p, words[0]) case None => None case Some(q) => TrailerWords(q, words[1..])
  }

  /** ParseTrailerNew */
  function Trailer(p: Part, line: Line): Option<Part> { TrailerWords(p, Split(SPACE, line)) }

  // --- what the control lines say -------------------------------------------------------------------

  /** A word that says "key=value", whatever stands behind a second equals sign. */
  predicate Says(word: seq<byte>, key: seq<byte>, value: seq<byte>) {
    EQ !in key && EQ !in value
    && (Trim(word) == key + [EQ] + value || key + [EQ] + value + [EQ] <= Trim(word))
  }

  lemma KeyValueIs(word: seq<byte>, key: seq<byte>, value: seq<byte>)
    ensures KeyValue(word) == Some((key, value)) <==> Says(word, key, value)
  {
    hide Trim, Split;
    var t := Trim(word);
    if |Split(EQ, t)| >= 2 { SplitParts(EQ, t); }
    if Says(word, key, value) { PartsSplit(EQ, t, key, value); }
  }

  /** The value of the last word with this key. */
  function LastSaid(words: seq<seq<byte>>, key: seq<byte>): Option<seq<byte>> {
    if words == [] then None
    else
      match LastSaid(words[1..], key)
      case Some(v) => Some(v)
      case None => match KeyValue(words[0]) case Some((k, v)) => (if k == key then Some(v) else None) case None => None
  }

  function LastInt(words: seq<seq<byte>>, key: seq<byte>, unsaid: int): int {
    match LastSaid(words, key) case Some(v) => ParseInt(v).value case None => unsaid
  }

  function LastHex(words: seq<seq<byte>>, key: seq<byte>, unsaid: int): int {
    match LastSaid(words, key) case Some(v) => ParseHex32(v).value case None => unsaid
  }

  /** MAIN: of the words of a =ybegin line the last size and the last part count, and a part makes it
      one of many. */
  lemma {:induction false} HeaderTells(p: Part, multi: bool, words: seq<seq<byte>>)
    ensures HeaderWords(p, multi, words) ==
            (p.(headerSize := LastInt(words, SIZE, p.headerSize), number := LastInt(words, PART, p.number)),
             multi || LastSaid(words, PART).Some?)
    decreases |words|
  {
    hide KeyValue, ParseInt;
    assert SIZE[0] != PART[0];
    if words != [] {
      var (q, m) := HeaderWord(p, multi, words[0]);
      HeaderTells(q, m, words[1..]);
    }
  }

  /** ... of those of a =ypart line the last begin and the last end. */
  lemma {:induction false} PartTells(p: Part, words: seq<seq<byte>>)
    ensures PartWords(p, words) == p.(begin := LastInt(words, BEGIN, p.begin), end := LastInt(words, END, p.end))
    decreases |words|
  {
    hide KeyValue, ParseInt;
    assert BEGIN[0] != END[0];
    if words != [] { PartTells(PartWord(p, words[0]), words[1..]); }
  }

  /** A word of a =yend line that makes the check fail: a number that is none, or another part than that of
      the =ybegin line. */
  predicate Wrong(number: int, word: seq<byte>) {
    match KeyValue(word)
    case None => false
    case Some((key, value)) =>
      || (key == SIZE && ParseInt(value).err)
      || (key == PART && (ParseInt(value).err || ParseInt(value).value != number))
      || ((key == PCRC32 || key == CRC32) && ParseHex32(value).err)
  }

  /** MAIN: a =yend line fails just if one of its words is wrong; else its last size and its last pcrc32
      count, and nothing else. */
  lemma {:induction false} TrailerTells(p: Part, words: seq<seq<byte>>)
    ensures TrailerWords(p, words).None? <==> exists w <- words :: Wrong(p.number, w)
    ensures TrailerWords(p, words).Some? ==>
              TrailerWords(p, words).value
              == p.(size := LastInt(words, SIZE, p.size), crc := LastHex(words, PCRC32, p.crc))
    decreases |words|
  {
    if words != [] {
      TrailerWordTells(p, words[0]);
      assert words[0] in words && forall w <- words :: w == words[0] || w in words[1..];
      assert forall w <- words[1..] :: w in words;
      hide TrailerWord, Wrong, KeyValue, ParseInt, ParseHex32;
      if TrailerWord(p, words[0]).Some? { TrailerTells(TrailerWord(p, words[0]).value, words[1..]); }
    }
  }

  lemma TrailerWordTells(p: Part, word: seq<byte>)
    ensures TrailerWord(p, word).None? <==> Wrong(p.number, word)
    ensures var (kv, q) := (KeyValue(word), TrailerWord(p, word));
            q.Some? ==>
              q.value == p.(size := if kv.Some? && kv.value.0 == SIZE then ParseInt(kv.value.1).value else p.size,
                            crc := if kv.Some? && kv.value.0 == PCRC32 then ParseHex32(kv.value.1).value else p.crc)
  {
    hide KeyValue, ParseInt, ParseHex32;
    assert PCRC32[0] != SIZE[0] && CRC32[0] != SIZE[0] && CRC32[0] != PCRC32[0]
        && PART[1] != PCRC32[1] && PART[0] != CRC32[0] && PART[0] != SIZE[0];
  }

  // --- the three modes -----------------------------------------------------------------------------

  /** Plain: no yEnc header, nothing to check. Crash: the process panics. */
  datatype Outcome = Plain | Accepted(part: Part, body: seq<byte>) | Rejected(badCrc: bool) | Crash

  /** Part.Validate and what its callers make of it. */
  function Validate(p: Part, body: seq<byte>): Outcome {
    if |body| != p.size then Rejected(false)
    else if p.crc <= 0 then Rejected(false)
    else if Number(Checksum(body)) != p.crc then Rejected(true)
    else Accepted(p, body)
  }

  /** A part is called corrupt just if its size is right and its CRC is stated and not that of the body. */
  lemma BadCrcJustIf(p: Part, body: seq<byte>)
    ensures Validate(p, body) == Rejected(true) <==>
              |body| == p.size && p.crc > 0 && p.crc != Number(Checksum(body))
    ensures Validate(p, body) == Accepted(p, body) <==>
              |body| == p.size && p.crc > 0 && p.crc == Number(Checksum(body))
    ensures !Validate(p, body).Plain? && !Validate(p, body).Crash?
  {
    hide Checksum, Number;
  }

  predicate SawYbegin(lines: seq<Line>) { exists k | 0 <= k < |lines| :: YBEGIN + [SPACE] <= lines[k] }

  /** The first line with a prefix, and the lines after it. */
  function After(prefix: seq<byte>, lines: seq<Line>): (r: Option<(Line, seq<Line>)>)
    ensures r.Some? ==> prefix <= r.value.0 && |r.value.1| < |lines|
    decreases |lines|
  {
    if lines == [] then None
    else if prefix <= lines[0] then Some((lines[0], lines[1..]))
    else After(prefix, lines[1..])
  }

  /** Mode 1, ReadBody: up to the first =yend line, the escape carried from line to line. */
  function BufferBody(p: Part, awaiting: bool, body: seq<byte>, lines: seq<Line>): Option<(Part, seq<byte>)>
    decreases |lines|
  {
    if lines == [] then None
    else
      var line := TrimCrLf(lines[0]);
      if YEND <= line then (match Trailer(p, line) case None => None case Some(q) => Some((q, body)))
      else var (b, w) := Yenc.DecodeCarry(awaiting, line); BufferBody(p, w, body + b, lines[1..])
  }

  /** The lines of the buffer end in LF. */
  function BufferMode(lines: seq<Line>): Outcome {
    match After(YBEGIN, lines)
    case None => Rejected(false)
    case Some((h, rest)) =>
      var (p, multi) := Header(Unset, false, h + [LF]);
      if p.name == [] then Rejected(false)
      else if !multi then BufferVerdict(p, rest)
      else
        match After(YPART, rest)
        case None => Rejected(false)
        case Some((l, more)) => BufferVerdict(PartHeader(p, l + [LF]), more)
  }

  function BufferVerdict(p: Part, lines: seq<Line>): Outcome {
    match BufferBody(p, false, [], lines)
    case None => Rejected(false)
    case Some((q, body)) => Validate(q, body)
  }

  /** Mode 2, DecodeYenc: all lines but =ybegin, =ypart and =yend, each on its own. */
  function SliceBody(p: Part, body: seq<byte>, lines: seq<Line>): Option<(Part, seq<byte>)>
    decreases |lines|
  {
    if lines == [] then Some((p, body))
    else if YBEGIN <= lines[0] || YPART <= lines[0] then SliceBody(p, body, lines[1..])
    else if YEND <= lines[0] then
      match Trailer(p, lines[0]) case None => None case Some(q) => SliceBody(q, body, lines[1..])
    else
      match Yenc.Decode(lines[0]) case None => None case Some(b) => SliceBody(p, body + b, lines[1..])
  }

  function SliceMode(lines: seq<Line>): Outcome {
    match After(YBEGIN, lines)
    case None => Rejected(false)
    case Some((h, _)) =>
      var (p, multi) := Header(Unset, false, h);
      if p.name == [] then Rejected(false)
      else if !multi then SliceVerdict(p, lines)
      else
        match After(YPART, lines)
        case None => Crash   // s[6:] of an empty string
        case Some((l, _)) => SliceVerdict(PartHeader(p, l), lines)
  }

  function SliceVerdict(p: Part, lines: seq<Line>): Outcome {
    match SliceBody(p, [], lines)
    case None => Rejected(false)
    case Some((q, body)) => Validate(q, body)
  }

  /** Mode 3: the flags of the read loop and the part so far. */
  datatype Reading = Reading(gotHeader: bool, multi: bool, gotPart: bool, broken: bool, part: Part, body: seq<byte>)

  const NothingRead := Reading(false, false, false, false, Unset, [])

  /** One line decoded as SimdMode says. */
  function LineBytes(simd: nat, line: Line): Option<seq<byte>> {
    if simd == 0 then Some(Yenc.Decode(line).GetOr([]))
    else if simd <= 2 then Yenc.Decode(line)
    else None
  }

  function ReadLine(simd: nat, r: Reading, line: Line): Reading {
    if r.broken then r
    else if !r.gotHeader then
      if !(YBEGIN + [SPACE] <= line) then r
      else var (p, multi) := Header(r.part, r.multi, line);
           if p.name == [] then r.(broken := true, part := p, multi := multi)
           else r.(gotHeader := true, part := p, multi := multi)
    else if r.multi && !r.gotPart then
      if YPART + [SPACE] <= line then r.(gotPart := true, part := PartHeader(r.part, line)) else r.(broken := true)
    else if YEND <= line then
      match Trailer(r.part, line) case None => r.(broken := true) case Some(q) => r.(part := q)
    else
      match LineBytes(simd, line) case None => r.(broken := true) case Some(b) => r.(body := r.body + b)
  }

  function ReadLines(simd: nat, r: Reading, lines: seq<Line>): Reading
    decreases |lines|
  {
    if lines == [] then r else ReadLines(simd, ReadLine(simd, r, lines[0]), lines[1..])
  }

  function LineVerdict(r: Reading): Outcome {
    if r.broken then Rejected(false) else if !r.gotHeader then Plain else Validate(r.part, r.body)
  }

  function LineMode(simd: nat, lines: seq<Line>): Outcome { LineVerdict(ReadLines(simd, NothingRead, lines)) }

  datatype Mode = Buffer | Slice | ByLine(simd: nat)

  /** What readDotLines makes of the body lines (un-stuffed, the blank line first). */
  function Check(mode: Mode, lines: seq<Line>): Outcome {
    match mode
    case Buffer => if SawYbegin(lines) then BufferMode(lines) else Plain
    case Slice => if SawYbegin(lines) then SliceMode(lines) else Plain
    case ByLine(simd) => LineMode(simd, lines)
  }

  // --- an accepted body is what its =yend line says ---------------------------------------------------

  predicate Untrailed(p: Part) { p.size == 0 && p.crc == 0 }

  predicate HasYend(lines: seq<Line>) { exists k | 0 <= k < |lines| :: YEND <= lines[k] }

  lemma {:induction false} HeaderWordsUntrailed(p: Part, multi: bool, words: seq<seq<byte>>)
    requires Untrailed(p)
    ensures Untrailed(HeaderWords(p, multi, words).0) && HeaderWords(p, multi, words).0.name == p.name
    decreases |words|
  {
    hide KeyValue, ParseInt;
    if words != [] {
      var (q, m) := HeaderWord(p, multi, words[0]);
      HeaderWordsUntrailed(q, m, words[1..]);
    }
  }

  lemma HeaderUntrailed(p: Part, multi: bool, s: seq<byte>)
    requires Untrailed(p) && |s| >= 7
    ensures Untrailed(Header(p, multi, s).0)
  {
    hide HeaderWords, Trim;
    var t := s[7..];
    match FindName(t)
    case None => HeaderWordsUntrailed(p, multi, Split(SPACE, t));
    case Some(i) => HeaderWordsUntrailed(p.(name := Trim(t[i + 5..])), multi, Split(SPACE, t[..i]));
  }

  lemma {:induction false} PartWordsUntrailed(p: Part, words: seq<seq<byte>>)
    requires Untrailed(p)
    ensures Untrailed(PartWords(p, words))
    decreases |words|
  {
    hide KeyValue, ParseInt;
    if words != [] { PartWordsUntrailed(PartWord(p, words[0]), words[1..]); }
  }

  /** All =yend lines, one after the other. */
  function Trailers(p: Part, lines: seq<Line>): Option<Part>
    decreases |lines|
  {
    if lines == [] then Some(p)
    else if !(YEND <= lines[0]) then Trailers(p, lines[1..])
    else match Trailer(p, lines[0]) case None => None case Some(q) => Trailers(q, lines[1..])
  }

  lemma {:induction false} NoTrailers(p: Part, lines: seq<Line>)
    requires !HasYend(lines)
    ensures Trailers(p, lines) == Some(p)
    decreases |lines|
  {
    if lines != [] {
      assert !(YEND <= lines[0]);
      NoYendLeft(lines, 1);
      NoTrailers(p, lines[1..]);
    }
  }

  lemma NoYendLeft(lines: seq<Line>, i: nat)
    requires !HasYend(lines) && i <= |lines|
    ensures !HasYend(lines[i..])
  {
    assert forall k | 0 <= k < |lines| - i :: lines[i..][k] == lines[i + k];
  }

  /** The part has size and CRC from the =yend lines of a tail of the article. */
  ghost predicate Stated(lines: seq<Line>, p: Part) {
    exists q: Part, i: nat :: i <= |lines| && Untrailed(q) && Trailers(q, lines[i..]) == Some(p)
  }

  lemma NotYend(l: Line)
    ensures YBEGIN <= l || YPART <= l ==> !(YEND <= l)
    ensures YBEGIN <= l ==> !(YPART <= l)
  {
    assert |l| > 2 ==>
             && (YBEGIN <= l ==> l[2] == YBEGIN[2])
             && (YPART <= l ==> l[2] == YPART[2])
             && (YEND <= l ==> l[2] == YEND[2]);
  }

  lemma {:induction false} SliceStates(p: Part, body: seq<byte>, lines: seq<Line>)
    ensures SliceBody(p, body, lines).Some? ==> Trailers(p, lines) == Some(SliceBody(p, body, lines).value.0)
    decreases |lines|
  {
    hide Trailer, Yenc.Decode;
    if lines != [] {
      var l, more := lines[0], lines[1..];
      if YBEGIN <= l || YPART <= l {
        NotYend(l);
        SliceStates(p, body, more);
      } else if YEND <= l {
        if Trailer(p, l).Some? { SliceStates(Trailer(p, l).value, body, more); }
      } else if Yenc.Decode(l).Some? {
        SliceStates(p, body + Yenc.Decode(l).value, more);
      }
    }
  }

  /** Mode 3 after the header: `r` has its part header if it needs one. */
  lemma {:induction false} InBodyStates(simd: nat, r: Reading, lines: seq<Line>)
    requires r.gotHeader && (r.multi ==> r.gotPart) && !ReadLines(simd, r, lines).broken
    ensures Trailers(r.part, lines) == Some(ReadLines(simd, r, lines).part)
    decreases |lines|
  {
    hide Trailer, LineBytes;
    if lines != [] {
      var next := ReadLine(simd, r, lines[0]);
      BrokenStays(simd, next, lines[1..]);
      InBodyStates(simd, next, lines[1..]);
    }
  }

  lemma {:induction false} BrokenStays(simd: nat, r: Reading, lines: seq<Line>)
    ensures r.broken ==> ReadLines(simd, r, lines) == r
    decreases |lines|
  {
    if lines != [] && r.broken { BrokenStays(simd, r, lines[1..]); }
  }

  lemma {:induction false} LinesState(simd: nat, r: Reading, lines: seq<Line>)
    requires !(r.gotHeader && (r.multi ==> r.gotPart)) && Untrailed(r.part) && !r.broken
    ensures var t := ReadLines(simd, r, lines);
            !t.broken && t.gotHeader ==> Stated(lines, t.part)
    decreases |lines|
  {
    if lines == [] {
      assert Trailers(r.part, lines[0..]) == Some(r.part);
    } else {
      var next := ReadLine(simd, r, lines[0]);
      var t := ReadLines(simd, next, lines[1..]);
      BrokenStays(simd, next, lines[1..]);
      FirstLines(simd, r, lines[0]);
      hide ReadLine, ReadLines;
      if !t.broken && t.gotHeader {
        if next.gotHeader && (next.multi ==> next.gotPart) {
          InBodyStates(simd, next, lines[1..]);
          assert Trailers(next.part, lines[1..]) == Some(t.part);
        } else {
          LinesState(simd, next, lines[1..]);
          var q: Part, i: nat :| i <= |lines[1..]| && Untrailed(q) && Trailers(q, lines[1..][i..]) == Some(t.part);
          assert lines[1..][i..] == lines[i + 1..];
        }
      }
    }
  }

  lemma FirstLines(simd: nat, r: Reading, line: Line)
    requires !(r.gotHeader && (r.multi ==> r.gotPart)) && Untrailed(r.part) && !r.broken
    ensures Untrailed(ReadLine(simd, r, line).part)
  {
    hide PartWords;
    if YBEGIN + [SPACE] <= line { HeaderUntrailed(r.part, r.multi, line); }
    if YPART + [SPACE] <= line { PartWordsUntrailed(r.part, Split(SPACE, line[6..])); }
    hide Header;
  }

  /** In mode 1 the trailer is one =yend line, without its CR. */
  ghost predicate StatedByOne(lines: seq<Line>, p: Part) {
    exists q: Part, k: nat ::
        k < |lines| && Untrailed(q) && YEND <= lines[k] && Trailer(q, TrimCrLf(lines[k])) == Some(p)
  }

  lemma {:induction false} BufferStates(p: Part, awaiting: bool, body: seq<byte>, lines: seq<Line>)
    requires Untrailed(p) && BufferBody(p, awaiting, body, lines).Some?
    ensures StatedByOne(lines, BufferBody(p, awaiting, body, lines).value.0)
    decreases |lines|
  {
    hide Trailer, TrimCrLf;
    var line := TrimCrLf(lines[0]);
    if YEND <= line {
      assert YEND <= lines[0];
    } else {
      var (b, w) := Yenc.DecodeCarry(awaiting, line);
      BufferStates(p, w, body + b, lines[1..]);
      StatedLater(lines, 1, BufferBody(p, awaiting, body, lines).value.0);
    }
  }

  lemma StatedLater(lines: seq<Line>, i: nat, p: Part)
    requires i <= |lines| && StatedByOne(lines[i..], p)
    ensures StatedByOne(lines, p)
  {
    var q: Part, k: nat :| k < |lines[i..]| && Untrailed(q) && YEND <= lines[i..][k]
        && Trailer(q, TrimCrLf(lines[i..][k])) == Some(p);
    assert lines[i..][k] == lines[i + k];
  }

  lemma SliceSound(lines: seq<Line>)
    requires SliceMode(lines).Accepted?
    ensures Stated(lines, SliceMode(lines).part)
  {
    hide PartWords, SliceBody;
    var h := After(YBEGIN, lines).value.0;
    HeaderUntrailed(Unset, false, h);
    var (p, multi) := Header(Unset, false, h);
    hide Header;
    var q := if multi then PartHeader(p, After(YPART, lines).value.0) else p;
    if multi { PartWordsUntrailed(p, Split(SPACE, After(YPART, lines).value.0[6..])); }
    SliceStates(q, [], lines);
    assert lines[0..] == lines;
    assert Untrailed(q) && Trailers(q, lines[0..]) == Some(SliceMode(lines).part);
  }

  lemma {:induction false} AfterIsSuffix(prefix: seq<byte>, lines: seq<Line>) returns (i: nat)
    requires After(prefix, lines).Some?
    ensures i <= |lines| && After(prefix, lines).value.1 == lines[i..]
    decreases |lines|
  {
    if prefix <= lines[0] {
      i := 1;
    } else {
      i := AfterIsSuffix(prefix, lines[1..]);
      assert lines[1..][i..] == lines[i + 1..];
      i := i + 1;
    }
  }

  lemma BufferSound(lines: seq<Line>)
    requires BufferMode(lines).Accepted?
    ensures StatedByOne(lines, BufferMode(lines).part)
  {
    hide PartWords, BufferBody;
    var (h, rest) := After(YBEGIN, lines).value;
    var i := AfterIsSuffix(YBEGIN, lines);
    HeaderUntrailed(Unset, false, h + [LF]);
    var (p, multi) := Header(Unset, false, h + [LF]);
    hide Header;
    if multi {
      var (l, more) := After(YPART, rest).value;
      var j := AfterIsSuffix(YPART, rest);
      PartWordsUntrailed(p, Split(SPACE, (l + [LF])[6..]));
      BufferStates(PartHeader(p, l + [LF]), false, [], more);
      StatedLater(rest, j, BufferMode(lines).part);
    } else {
      BufferStates(p, false, [], rest);
    }
    StatedLater(lines, i, BufferMode(lines).part);
  }

  /** MAIN, soundness: whatever arrives, an accepted body has the length and the CRC its =yend
      line states, the CRC is not zero, and there is a =yend line. */
  lemma AcceptedIsTrue(mode: Mode, lines: seq<Line>)
    requires Check(mode, lines).Accepted?
    ensures var Accepted(p, body) := Check(mode, lines);
            && |body| == p.size && Number(Checksum(body)) == p.crc && p.crc != 0 && HasYend(lines)
            && (if mode.Buffer? then StatedByOne(lines, p) else Stated(lines, p))
  {
    hide SliceMode, BufferMode, ReadLines, Trailers, Trailer;
    var p := Check(mode, lines).part;
    match mode
    case Buffer =>
      BufferSound(lines);
      ValidAccepted(mode, lines);
    case Slice =>
      SliceSound(lines);
      ValidAccepted(mode, lines);
      StatedNeedsYend(lines, p);
    case ByLine(simd) =>
      LinesState(simd, NothingRead, lines);
      StatedNeedsYend(lines, p);
  }

  lemma ValidAccepted(mode: Mode, lines: seq<Line>)
    requires Check(mode, lines).Accepted?
    ensures var Accepted(p, body) := Check(mode, lines); Validate(p, body) == Accepted(p, body)
  {
    hide SliceBody, BufferBody, Header, PartHeader, Validate, Checksum;
    var r := Check(mode, lines);
    assert exists p: Part, body: seq<byte> :: r == Validate(p, body);
    NotCrash();
  }

  lemma StatedNeedsYend(lines: seq<Line>, p: Part)
    ensures Stated(lines, p) && p.crc != 0 ==> HasYend(lines)
  {
    if Stated(lines, p) && !HasYend(lines) {
      var q: Part, i: nat :| i <= |lines| && Untrailed(q) && Trailers(q, lines[i..]) == Some(p);
      NoYendLeft(lines, i);
      NoTrailers(q, lines[i..]);
    }
  }

  lemma {:induction false} AfterFinds(prefix: seq<byte>, lines: seq<Line>)
    ensures After(prefix, lines).None? <==> forall k | 0 <= k < |lines| :: !(prefix <= lines[k])
    decreases |lines|
  {
    if lines != [] {
      AfterFinds(prefix, lines[1..]);
      assert forall k | 1 <= k < |lines| :: lines[k] == lines[1..][k - 1];
    }
  }

  /** A finding: mode 2 panics, just on articles whose named header has a part number and that have
      no =ypart line; the other modes never do. */
  lemma CrashesJustWithoutPart(mode: Mode, lines: seq<Line>)
    ensures Check(mode, lines).Crash? <==>
            && mode.Slice? && SawYbegin(lines)
            && (var h := After(YBEGIN, lines);
                h.Some? && Header(Unset, false, h.value.0).0.name != [] && Header(Unset, false, h.value.0).1)
            && forall k | 0 <= k < |lines| :: !(YPART <= lines[k])
  {
    hide BufferMode, SliceMode, LineMode, SawYbegin, After, Header;
    BufferNeverCrashes(lines);
    SliceCrashes(lines);
    match mode
    case ByLine(simd) => LineNeverCrashes(simd, lines);
    case _ =>
  }

  lemma BufferNeverCrashes(lines: seq<Line>)
    ensures !BufferMode(lines).Crash?
  {
    hide BufferBody, Header, PartHeader, Validate, After;
    NotCrash();
  }

  lemma LineNeverCrashes(simd: nat, lines: seq<Line>)
    ensures !LineMode(simd, lines).Crash?
  {
    hide ReadLines, Validate;
    NotCrash();
  }

  lemma SliceCrashes(lines: seq<Line>)
    ensures SliceMode(lines).Crash? <==>
            && (var h := After(YBEGIN, lines);
                h.Some? && Header(Unset, false, h.value.0).0.name != [] && Header(Unset, false, h.value.0).1)
            && forall k | 0 <= k < |lines| :: !(YPART <= lines[k])
  {
    hide SliceVerdict, Header, PartHeader, After;
    AfterFinds(YPART, lines);
    match After(YBEGIN, lines)
    case None =>
    case Some((h, _)) =>
      var (p, multi) := Header(Unset, false, h);
      if p.name != [] {
        if !multi {
          VerdictNoCrash(p, lines);
        } else if After(YPART, lines).Some? {
          VerdictNoCrash(PartHeader(p, After(YPART, lines).value.0), lines);
        }
      }
  }

  lemma VerdictNoCrash(p: Part, lines: seq<Line>)
    ensures !SliceVerdict(p, lines).Crash?
  {
    hide SliceBody, Validate;
    NotCrash();
  }

  // --- what is delivered unchecked ------------------------------------------------------------------------

  lemma SawCons(line: Line, rest: seq<Line>)
    ensures SawYbegin([line] + rest) <==> YBEGIN + [SPACE] <= line || SawYbegin(rest)
  {
    var all := [line] + rest;
    assert all[0] == line && forall k | 1 <= k < |all| :: all[k] == rest[k - 1];
    if SawYbegin(rest) {
      var k :| 0 <= k < |rest| && YBEGIN + [SPACE] <= rest[k];
      assert all[k + 1] == rest[k];
    }
  }

  /** Mode 3 takes an article for one without yEnc just if no line is a =ybegin line. */
  lemma {:induction false} HeaderSeen(simd: nat, r: Reading, lines: seq<Line>)
    ensures var t := ReadLines(simd, r, lines);
            t.gotHeader || t.broken <==> r.gotHeader || r.broken || SawYbegin(lines)
    decreases |lines|
  {
    hide Header, PartHeader, Trailer, LineBytes, SawYbegin;
    if lines == [] {
      assert !SawYbegin([]) by { NothingSeen(); }
    } else {
      HeaderSeen(simd, ReadLine(simd, r, lines[0]), lines[1..]);
      SawCons(lines[0], lines[1..]);
      assert [lines[0]] + lines[1..] == lines;
    }
  }

  lemma NothingSeen()
    ensures !SawYbegin([])
  {}

  lemma SliceNeverPlain(lines: seq<Line>)
    ensures !SliceMode(lines).Plain? && !BufferMode(lines).Plain?
  {
    hide SliceBody, BufferBody, Header, PartHeader, Validate, After;
    NotCrash();
  }

  /** MAIN: an article is delivered unchecked just if it has no =ybegin line, in every mode. */
  lemma PlainJustWithoutYbegin(mode: Mode, lines: seq<Line>)
    ensures Check(mode, lines).Plain? <==> !SawYbegin(lines)
  {
    hide BufferMode, SliceMode, ReadLines, SawYbegin, Validate;
    SliceNeverPlain(lines);
    NotCrash();
    if mode.ByLine? { HeaderSeen(mode.simd, NothingRead, lines); }
  }

  /** MAIN: an article with a =ybegin line and no =yend line is never delivered. */
  lemma NeverWithoutYend(mode: Mode, lines: seq<Line>)
    requires SawYbegin(lines) && !HasYend(lines)
    ensures Check(mode, lines).Rejected? || Check(mode, lines).Crash?
  {
    hide Check, HasYend, SawYbegin;
    PlainJustWithoutYbegin(mode, lines);
    if Check(mode, lines).Accepted? { AcceptedIsTrue(mode, lines); }
  }

  /** With a single =yend line, that is the line. */
  lemma {:induction false} OneTrailer(q: Part, lines: seq<Line>, k: nat)
    requires k < |lines| && YEND <= lines[k] && forall j | 0 <= j < |lines| :: YEND <= lines[j] ==> j == k
    ensures Trailers(q, lines) == Trailer(q, lines[k])
    decreases |lines|
  {
    hide Trailer;
    assert forall j | 0 <= j < |lines| - 1 :: lines[1..][j] == lines[j + 1];
    if k == 0 {
      if Trailer(q, lines[0]).Some? { NoTrailers(Trailer(q, lines[0]).value, lines[1..]); }
    } else {
      OneTrailer(q, lines[1..], k - 1);
    }
  }

  // --- the article encoder ------------------------------------------------------------------------------

  datatype Kind = Ok | BadCrc | Truncated

  /** An article of the test poster; `headers` are the lines before the blank line. */
  datatype Article = Article(headers: seq<Line>, part: nat, total: nat, begin: nat, size: nat, name: seq<byte>,
                             body: seq<byte>, fcrc: bv32, kind: Kind)

  /** Ints of 64 bits; the first byte of a file is byte 1. */
  predicate InRange(a: Article) {
    && a.part <= MAX_INT64 && a.total <= MAX_INT64 && a.size <= MAX_INT64
    && 1 <= a.begin && a.begin + |a.body| <= MAX_INT64
  }

  function Word(key: seq<byte>, value: seq<byte>): seq<byte> { key + [EQ] + value }

  function HeaderWordsOf(a: Article): seq<seq<byte>> {
    [Word(PART, Decimal(a.part)), Word(TOTAL, Decimal(a.total)),
     Word(LINE, Decimal(Yenc.LINE_LEN)), Word(SIZE, Decimal(a.size))]
  }

  function HeaderLine(a: Article): Line { YBEGIN + Joined(SPACE, HeaderWordsOf(a)) + [SPACE] + NAME + a.name }

  function PartLine(a: Article): Line
    requires a.begin >= 1
  {
    YPART + Joined(SPACE, [Word(BEGIN, Decimal(a.begin)), Word(END, Decimal(a.begin + |a.body| - 1))])
  }

  /** The wrong CRC of a "badcrc" article. */
  function Flip(c: bv32): bv32 { c ^ 0xDEAD_BEEF }

  function StatedCrc(a: Article): bv32 {
    if a.kind.BadCrc? then Flip(Checksum(a.body)) else Checksum(a.body)
  }

  function TrailerWordsOf(a: Article): seq<seq<byte>> {
    [Word(SIZE, Decimal(|a.body|)), Word(PART, Decimal(a.part)), Word(PCRC32, Hex(Number(StatedCrc(a)), 8))]
    + if a.part == a.total then [Word(CRC32, Hex(Number(a.fcrc), 8))] else []
  }

  function TrailerLine(a: Article): Line { YEND + Joined(SPACE, TrailerWordsOf(a)) }

  /** The lines from =ybegin on. */
  function YencPart(a: Article): seq<Line>
    requires a.begin >= 1
  {
    var body := Yenc.Encode(a.body);
    [HeaderLine(a), PartLine(a)] +
    if a.kind.Truncated? then body[..|body| - |body| / 2] else body + [TrailerLine(a)]
  }

  method EncodeArticle(a: Article) returns (lines: seq<Line>)
    requires a.begin >= 1
    ensures lines == a.headers + [[]] + YencPart(a)
  {
    hide HeaderLine, PartLine, TrailerLine, Yenc.Encode, Checksum, Flip;
    lines := a.headers + [[]] + [HeaderLine(a), PartLine(a)];
    ghost var front := lines;
    var body := Yenc.YencLines(a.body);
    lines := lines + body;
    var pcrc := Checksum(a.body);
    if a.kind.BadCrc? { pcrc := Flip(pcrc); }
    var yend := TrailerText(a, pcrc);
    match a.kind {
      case Truncated =>
        lines := lines[..|lines| - |body| / 2];
        assert lines == front + body[..|body| - |body| / 2];
      case _ => lines := lines + [yend];
    }
  }

  method TrailerText(a: Article, pcrc: bv32) returns (yend: Line)
    ensures StatedCrc(a) == pcrc ==> yend == TrailerLine(a)
  {
    hide StatedCrc, Decimal, Hex;
    var words := [Word(SIZE, Decimal(|a.body|)), Word(PART, Decimal(a.part)), Word(PCRC32, Hex(Number(pcrc), 8))];
    yend := YEND + Joined(SPACE, words);
    assert words + [] == words;
    if a.part == a.total {
      var last := Word(CRC32, Hex(Number(a.fcrc), 8));
      JoinedAppend(SPACE, words, last);
      assert YEND + Joined(SPACE, words) + ([SPACE] + last) == YEND + (Joined(SPACE, words) + ([SPACE] + last));
      yend := yend + ([SPACE] + last);
    }
  }

  // --- the control lines read back ------------------------------------------------------------------------

  /** Bytes that neither TrimSpace nor the splits touch. */
  predicate Inert(s: seq<byte>) { forall k | 0 <= k < |s| :: s[k] < 0x80 && !White(s[k]) && s[k] != EQ }

  lemma WordReadsBack(key: seq<byte>, value: seq<byte>, end: seq<byte>)
    requires Inert(key) && Inert(value) && key != [] && (end == [] || end == [LF])
    ensures KeyValue(Word(key, value) + end) == Some((key, value))
    ensures SPACE !in Word(key, value) + end
  {
    var w := Word(key, value);
    assert w + [] == w;
    if end == [LF] { TrimLf(w); }
    PlainEnds(w);
    TrimNothing(w);
    hide Trim;
    assert EQ !in key && EQ !in value;
    SplitCons(EQ, key, value);
    SplitOne(EQ, value);
  }

  lemma DigitsAreInert(s: seq<byte>)
    requires IsDigits(s)
    ensures Inert(s) && 110 !in s
  {}

  lemma NumberReadsBack(key: seq<byte>, n: nat, end: seq<byte>)
    requires Inert(key) && key != [] && n <= MAX_INT64 && (end == [] || end == [LF])
    ensures KeyValue(Word(key, Decimal(n)) + end) == Some((key, Decimal(n))) && ParseInt(Decimal(n)) == Num(n, false)
    ensures SPACE !in Word(key, Decimal(n)) + end && Inert(Decimal(n)) && 110 !in Decimal(n)
  {
    hide Decimal, KeyValue, ParseInt;
    ParseIntDecimal(n);
    DecimalIsDigits(n);
    DigitsAreInert(Decimal(n));
    WordReadsBack(key, Decimal(n), end);
  }

  lemma Keys()
    ensures Inert(PART) && Inert(TOTAL) && Inert(LINE) && Inert(SIZE)
            && Inert(BEGIN) && Inert(END) && Inert(PCRC32) && Inert(CRC32)
    ensures PART != SIZE && TOTAL != SIZE && TOTAL != PART && LINE != SIZE && LINE != PART && BEGIN != END
    ensures PCRC32 != SIZE && CRC32 != SIZE && CRC32 != PCRC32 && PART != PCRC32 && PART != CRC32
  {
    assert PART[0] != SIZE[0] && TOTAL[0] != SIZE[0] && TOTAL[0] != PART[0]
        && LINE[0] != SIZE[0] && LINE[0] != PART[0] && BEGIN[0] != END[0];
    assert PCRC32[0] != SIZE[0] && CRC32[0] != SIZE[0] && CRC32[0] != PCRC32[0]
        && PART[1] != PCRC32[1] && PART[0] != CRC32[0];
  }

  // Header words, one by one.

  lemma HeaderNext(p: Part, m: bool, word: seq<byte>, rest: seq<seq<byte>>)
    ensures var (q, n) := HeaderWord(p, m, word);
            HeaderWords(p, m, [word] + rest) == HeaderWords(q, n, rest) && HeaderWords(q, n, []) == (q, n)
  {
    hide HeaderWord;
    assert ([word] + rest)[1..] == rest;
  }

  lemma EmptyWord()
    ensures KeyValue([]) == None
  {
    SplitOne(EQ, []);
  }

  lemma HeaderFold(a: Article, p: Part)
    requires InRange(a)
    ensures HeaderWords(p, false, [[]] + HeaderWordsOf(a) + [[]]) == (p.(number := a.part, headerSize := a.size), true)
  {
    hide HeaderWords, KeyValue, ParseInt, Decimal, Word;
    Keys();
    EmptyWord();
    NumberReadsBack(PART, a.part, []);
    NumberReadsBack(TOTAL, a.total, []);
    NumberReadsBack(LINE, Yenc.LINE_LEN, []);
    NumberReadsBack(SIZE, a.size, []);
    var w1, w2, w3, w4 := Word(PART, Decimal(a.part)), Word(TOTAL, Decimal(a.total)),
        Word(LINE, Decimal(Yenc.LINE_LEN)), Word(SIZE, Decimal(a.size));
    assert w1 + [] == w1 && w2 + [] == w2 && w3 + [] == w3 && w4 + [] == w4;
    assert [[]] + HeaderWordsOf(a) + [[]] == [[]] + ([w1] + ([w2] + ([w3] + ([w4] + ([[]] + [])))));
    var q := p.(number := a.part);
    HeaderNext(p, false, [], [w1] + ([w2] + ([w3] + ([w4] + ([[]] + [])))));
    HeaderNext(p, false, w1, [w2] + ([w3] + ([w4] + ([[]] + []))));
    HeaderNext(q, true, w2, [w3] + ([w4] + ([[]] + [])));
    HeaderNext(q, true, w3, [w4] + ([[]] + []));
    HeaderNext(q, true, w4, [[]] + []);
    HeaderNext(q.(headerSize := a.size), true, [], []);
  }

  lemma {:induction false} FindSkips(front: seq<byte>, s: seq<byte>)
    requires 110 !in front && FindName(s).Some?
    ensures FindName(front + s) == Some(|front| + FindName(s).value)
    decreases |front|
  {
    if front == [] {
      assert front + s == s;
    } else {
      FindSkips(front[1..], s);
      assert (front + s)[1..] == front[1..] + s;
      assert front[0] != NAME[0] && (front + s)[0] == front[0];
    }
  }

  lemma FindStep(s: seq<byte>)
    ensures NAME <= s ==> FindName(s) == Some(0)
    ensures |s| >= 2 && s[1] != 97 && FindName(s[1..]).Some? ==> FindName(s) == Some(1 + FindName(s[1..]).value)
  {
    assert NAME[1] == 97;
  }

  /** The only "n" before the name is that of "line". */
  lemma OneFalseN(x: seq<byte>, y: seq<byte>, s: seq<byte>)
    requires 110 !in x && 110 !in y && y != [] && y[0] == 101 && NAME <= s
    ensures FindName(x + ([110] + (y + s))) == Some(|x| + 1 + |y|)
  {
    hide FindName;
    var t := y + s;
    var z := [110] + t;
    FindStep(s);
    FindSkips(y, s);
    BehindN(t);
    FindStep(z);
    FindSkips(x, z);
  }

  lemma BehindN(t: seq<byte>)
    requires t != []
    ensures ([110] + t)[1..] == t && ([110] + t)[1] == t[0] && |[110] + t| >= 2
  {}

  lemma NoN(w1: seq<byte>, w2: seq<byte>, d: seq<byte>, w4: seq<byte>)
    requires 110 !in w1 && 110 !in w2 && 110 !in d && 110 !in w4
    ensures 110 !in [SPACE] + w1 + [SPACE] + w2 + [SPACE, 108, 105]
    ensures 110 !in [101, EQ] + d + [SPACE] + w4 + [SPACE]
  {}

  lemma WordHasNoN(key: seq<byte>, n: nat)
    requires Inert(key) && key != [] && n <= MAX_INT64 && 110 !in key
    ensures 110 !in Word(key, Decimal(n)) && 110 !in Decimal(n)
  {
    NumberReadsBack(key, n, []);
    hide Decimal;
  }

  lemma NameFoundAfter(w1: seq<byte>, w2: seq<byte>, d: seq<byte>, w4: seq<byte>, rest: seq<byte>)
    requires 110 !in w1 && 110 !in w2 && 110 !in d && 110 !in w4
    ensures var text := Joined(SPACE, [w1, w2, Word(LINE, d), w4]);
            FindName(text + [SPACE] + (NAME + rest)) == Some(|text| + 1)
  {
    hide Joined, Word, FindName;
    NoN(w1, w2, d, w4);
    var x, y, s := [SPACE] + w1 + [SPACE] + w2 + [SPACE, 108, 105], [101, EQ] + d + [SPACE] + w4 + [SPACE], NAME + rest;
    HeaderText(w1, w2, d, w4, s);
    OneFalseN(x, y, s);
  }

  /** "name=" is first found where it was written. */
  lemma NameFound(a: Article, rest: seq<byte>)
    requires InRange(a)
    ensures FindName(Joined(SPACE, HeaderWordsOf(a)) + [SPACE] + (NAME + rest)) ==
            Some(|Joined(SPACE, HeaderWordsOf(a))| + 1)
  {
    hide Decimal, Joined, Word, FindName;
    Keys();
    WordHasNoN(PART, a.part);
    WordHasNoN(TOTAL, a.total);
    WordHasNoN(SIZE, a.size);
    WordHasNoN([101], Yenc.LINE_LEN);
    NameFoundAfter(Word(PART, Decimal(a.part)), Word(TOTAL, Decimal(a.total)),
        Decimal(Yenc.LINE_LEN), Word(SIZE, Decimal(a.size)), rest);
  }

  lemma HeaderText(w1: seq<byte>, w2: seq<byte>, d: seq<byte>, w4: seq<byte>, s: seq<byte>)
    ensures var x, y := [SPACE] + w1 + [SPACE] + w2 + [SPACE, 108, 105], [101, EQ] + d + [SPACE] + w4 + [SPACE];
            var text := Joined(SPACE, [w1, w2, Word(LINE, d), w4]);
            text + [SPACE] + s == x + ([110] + (y + s)) && |text| == |x| + |y|
  {
    var w3 := Word(LINE, d);
    JoinedTwo(SPACE, w1, w2);
    JoinedAppend(SPACE, [w1, w2], w3);
    JoinedAppend(SPACE, [w1, w2, w3], w4);
    hide Joined;
    assert [w1, w2] + [w3] == [w1, w2, w3] && [w1, w2, w3] + [w4] == [w1, w2, w3, w4];
    assert w3 == [108, 105] + [110] + [101, EQ] + d;
    hide Word;
    assert [SPACE] + w3 == [SPACE, 108, 105] + [110] + [101, EQ] + d;
  }

  /** The =ybegin line reads back; `end` is the LF the buffer of mode 1 adds. */
  lemma HeaderReadsBack(a: Article, end: seq<byte>)
    requires InRange(a) && (end == [] || end == [LF])
    ensures YBEGIN + [SPACE] <= HeaderLine(a)
    ensures Header(Unset, false, HeaderLine(a) + end) ==
            (Unset.(number := a.part, headerSize := a.size, name := Trim(a.name)), true)
  {
    hide HeaderWordsOf, Joined, FindName, HeaderWords, Trim, Split;
    var text := Joined(SPACE, HeaderWordsOf(a));
    NameFound(a, a.name + end);
    HeaderSplit(a);
    HeaderFold(a, Unset.(name := Trim(a.name)));
    if end == [] { assert a.name + end == a.name; } else { TrimLf(a.name); }
    HeaderPieces(text, a.name, end);
  }

  /** "=ybegin part=1 name=...", with `lead` in front of "part". */
  function OnePart(lead: seq<byte>, name: seq<byte>): Line {
    YBEGIN + [SPACE] + lead + PART + [EQ, 49, SPACE] + NAME + name
  }

  /** U+00A0, a space for TrimSpace. */
  const NO_BREAK: seq<byte> := [0xC2, 0xA0]

  lemma OnePartReadsBack(lead: seq<byte>, name: seq<byte>)
    requires lead == [] || lead == NO_BREAK
    ensures Header(Unset, false, OnePart(lead, name)) == (Unset.(number := 1, name := Trim(name)), true)
  {
    hide FindName, HeaderWords, Split, KeyValue, ParseInt, Decimal, Trim;
    var w := lead + (PART + [EQ, 49]);
    var front, t := [SPACE] + w + [SPACE], [SPACE] + w + [SPACE] + NAME + name;
    assert OnePart(lead, name)[7..] == t;
    Keys();
    assert Decimal(1) == [49] by { DecimalOne(); }
    NumberReadsBack(PART, 1, []);
    LeadIsTrimmed(lead);
    assert Word(PART, [49]) + [] == PART + [EQ, 49] && SPACE !in w && 110 !in front;
    FindStep(NAME + name);
    FindSkips(front, NAME + name);
    assert front + (NAME + name) == t && t[..|front|] == front && t[|front| + 5..] == name;
    SplitCons(SPACE, [], w + [SPACE]);
    SplitCons(SPACE, w, []);
    SplitOne(SPACE, []);
    assert [] + [SPACE] + (w + [SPACE]) == front && w + [SPACE] + [] == w + [SPACE];
    assert Split(SPACE, front) == [[]] + ([w] + ([[]] + []));
    assert FindName(t) == Some(|front|);
    var p := Unset.(name := Trim(name));
    EmptyWord();
    HeaderNext(p, false, [], [w] + ([[]] + []));
    HeaderNext(p, false, w, [[]] + []);
    HeaderNext(p.(number := 1), true, [], []);
    assert HeaderWords(p, false, [[]] + ([w] + ([[]] + []))) == (p.(number := 1), true);
  }

  lemma LeadIsTrimmed(lead: seq<byte>)
    requires lead == [] || lead == NO_BREAK
    ensures KeyValue(lead + (PART + [EQ, 49])) == KeyValue(PART + [EQ, 49])
  {
    var w: seq<byte> := PART + [EQ, 49];
    if lead == NO_BREAK {
      assert (lead + w)[0] == 0xC2 && (lead + w)[1] == 0xA0 && (lead + w)[2..] == w;
      PlainEnds(w);
    } else {
      assert lead + w == w;
    }
  }

  lemma DecimalOne()
    ensures Decimal(1) == [49]
  {}

  /** Articles of this one line, which have no =ypart line: mode 2 panics just if a name is left. */
  lemma OnePartCrashes(lead: seq<byte>, name: seq<byte>)
    requires lead == [] || lead == NO_BREAK
    ensures Check(Slice, [OnePart(lead, name)]) == if Trim(name) == [] then Rejected(false) else Crash
  {
    hide Header, Trim, SliceVerdict;
    OnePartReadsBack(lead, name);
    var line := OnePart(lead, name);
    assert line[..8] == YBEGIN + [SPACE] && line[..7] == YBEGIN;
    assert [line][0][2] == 98 && YPART[2] == 112;
    AfterOne(YBEGIN, line);
    AfterOne(YPART, line);
  }

  lemma AfterOne(prefix: seq<byte>, line: Line)
    ensures After(prefix, [line]) == if prefix <= line then Some((line, [])) else None
  {}

  /** "=ybegin part=1 name=a" panics; with a no-break space in front of "part" too, and not with
      one for the name. */
  lemma NoBreakSpaces()
    ensures Check(Slice, [OnePart([], [97])]).Crash? && Check(Slice, [OnePart(NO_BREAK, [97])]).Crash?
    ensures Check(Slice, [OnePart([], NO_BREAK)]) == Rejected(false)
  {
    PlainEnds([97]);
    TrimNothing([97]);
    assert WhiteFirst(NO_BREAK) == 2 && NO_BREAK[2..] == [];
    assert TrimStart([]) == [] && TrimStart(NO_BREAK) == [] && TrimEnd([]) == [];
    hide Check, Trim;
    OnePartCrashes([], [97]);
    OnePartCrashes(NO_BREAK, [97]);
    OnePartCrashes([], NO_BREAK);
  }

  lemma HeaderPieces(text: seq<byte>, name: seq<byte>, end: seq<byte>)
    requires text != [] && text[0] == SPACE
    ensures var line, t := YBEGIN + text + [SPACE] + NAME + name, text + [SPACE] + (NAME + (name + end));
            && YBEGIN + [SPACE] <= line && (line + end)[7..] == t
            && t[|text| + 6..] == name + end && t[..|text| + 1] == text + [SPACE]
  {
    LinePieces(YBEGIN, text, [SPACE], NAME, name, end);
  }

  lemma LinePieces(pre: seq<byte>, text: seq<byte>, sep: seq<byte>, key: seq<byte>, name: seq<byte>, end: seq<byte>)
    ensures var line, t := pre + text + sep + key + name, text + sep + (key + (name + end));
            && line + end == pre + t && (line + end)[|pre|..] == t
            && t[|text| + |sep| + |key|..] == name + end && t[..|text| + |sep|] == text + sep
    ensures text != [] ==> pre + [text[0]] <= pre + text + sep + key + name
  {
    assert pre + text + sep + key + name + end == pre + (text + sep + (key + (name + end)));
    assert text != [] ==> pre + [text[0]] + (text[1..] + sep + key + name) == pre + text + sep + key + name;
  }

  /** A word that survives the splits and does not end the line. */
  predicate Solid(w: seq<byte>) { w != [] && SPACE !in w && LF !in w && w[|w| - 1] != CR }

  lemma WordIsSolid(key: seq<byte>, value: seq<byte>)
    requires Inert(key) && key != [] && IsDigits(value) && value != []
    ensures Solid(Word(key, value))
  {
    DigitsAreInert(value);
    WordReadsBack(key, value, []);
    assert Word(key, value) + [] == Word(key, value);
    assert Word(key, value)[|Word(key, value)| - 1] == value[|value| - 1];
    assert forall k | 0 <= k < |value| :: value[k] != CR && value[k] != LF;
  }

  lemma HeaderWordsAreSolid(a: Article)
    ensures |HeaderWordsOf(a)| == 4 && forall k | 0 <= k < 4 :: Solid(HeaderWordsOf(a)[k])
  {
    hide Decimal, Word, Inert, Solid, IsDigits;
    Keys();
    DecimalIsDigits(a.part);
    DecimalIsDigits(a.total);
    DecimalIsDigits(Yenc.LINE_LEN);
    DecimalIsDigits(a.size);
    WordIsSolid(PART, Decimal(a.part));
    WordIsSolid(TOTAL, Decimal(a.total));
    WordIsSolid(LINE, Decimal(Yenc.LINE_LEN));
    WordIsSolid(SIZE, Decimal(a.size));
  }

  lemma HeaderSplit(a: Article)
    requires InRange(a)
    ensures Split(SPACE, Joined(SPACE, HeaderWordsOf(a)) + [SPACE]) == [[]] + HeaderWordsOf(a) + [[]]
    ensures Joined(SPACE, HeaderWordsOf(a)) != [] && Joined(SPACE, HeaderWordsOf(a))[0] == SPACE
  {
    HeaderWordsAreSolid(a);
    var words := HeaderWordsOf(a);
    assert words != [] && Joined(SPACE, words)[0] == SPACE;
    hide HeaderWordsOf, Joined, Split;
    JoinedAppend(SPACE, words, []);
    assert [SPACE] + [] == [SPACE];
    SplitJoined(SPACE, [], words + [[]]);
    assert [] + Joined(SPACE, words + [[]]) == Joined(SPACE, words + [[]]);
    assert [[]] + (words + [[]]) == [[]] + words + [[]];
  }

  lemma PartNext(p: Part, word: seq<byte>, rest: seq<seq<byte>>)
    ensures PartWords(p, [word] + rest) == PartWords(PartWord(p, word), rest)
    ensures PartWords(PartWord(p, word), []) == PartWord(p, word)
  {
    hide PartWord;
    assert ([word] + rest)[1..] == rest;
  }

  lemma PartReadsBack(p: Part, a: Article, end: seq<byte>)
    requires InRange(a) && (end == [] || end == [LF])
    ensures YPART + [SPACE] <= PartLine(a)
    ensures PartHeader(p, PartLine(a) + end) == p.(begin := a.begin, end := a.begin + |a.body| - 1)
  {
    hide Word, Decimal, Joined, KeyValue, ParseInt, PartWords, Split;
    var last := a.begin + |a.body| - 1;
    var w1, w2 := Word(BEGIN, Decimal(a.begin)), Word(END, Decimal(last));
    Keys();
    NumberReadsBack(BEGIN, a.begin, []);
    NumberReadsBack(END, last, end);
    assert w1 + [] == w1;
    PartSplits(w1, w2, end);
    PartFold(p, w1, w2 + end);
  }

  lemma PartFold(p: Part, w1: seq<byte>, w2: seq<byte>)
    ensures PartWords(p, [[]] + [w1, w2]) == PartWord(PartWord(p, w1), w2)
  {
    hide PartWords, KeyValue;
    EmptyWord();
    assert [[]] + [w1, w2] == [[]] + ([w1] + ([w2] + []));
    PartNext(p, [], [w1] + ([w2] + []));
    PartNext(p, w1, [w2] + []);
    PartNext(PartWord(p, w1), w2, []);
  }

  lemma PartSplits(w1: seq<byte>, w2: seq<byte>, end: seq<byte>)
    requires SPACE !in w1 && SPACE !in w2 + end
    ensures var line := YPART + Joined(SPACE, [w1, w2]);
            YPART + [SPACE] <= line && Split(SPACE, (line + end)[6..]) == [[]] + [w1, w2 + end]
  {
    hide Split, Joined;
    JoinedTwo(SPACE, w1, w2);
    JoinedTwo(SPACE, w1, w2 + end);
    var line := YPART + Joined(SPACE, [w1, w2]);
    assert line == YPART + [SPACE] + (w1 + ([SPACE] + w2));
    assert line + end == YPART + Joined(SPACE, [w1, w2 + end]);
    SplitJoined(SPACE, [], [w1, w2 + end]);
    assert [] + Joined(SPACE, [w1, w2 + end]) == (line + end)[6..];
  }

  lemma CrcReadsBack(key: seq<byte>, c: bv32)
    requires Inert(key) && key != []
    ensures var w := Word(key, Hex(Number(c), 8));
            && KeyValue(w) == Some((key, Hex(Number(c), 8))) && ParseHex32(Hex(Number(c), 8)) == Num(Number(c), false)
  {
    ParseHex8(Number(c));
    var v := Hex(Number(c), 8);
    hide Hex, KeyValue;
    DigitsAreInert(v);
    WordReadsBack(key, v, []);
    assert Word(key, v) + [] == Word(key, v);
  }

  lemma TrailerNext(p: Part, word: seq<byte>, rest: seq<seq<byte>>)
    ensures TrailerWords(p, [word] + rest) ==
            match TrailerWord(p, word)
            case None => None
            case Some(q) => TrailerWords(q, rest)
    ensures TrailerWord(p, word).Some? ==> TrailerWords(TrailerWord(p, word).value, []) == TrailerWord(p, word)
  {
    hide TrailerWord;
    assert ([word] + rest)[1..] == rest;
  }

  /** "=yend" itself is "key=value" with an empty key. */
  lemma YendIsNoKey(p: Part)
    ensures TrailerWord(p, YEND) == Some(p)
  {
    PlainEnds(YEND);
    TrimNothing(YEND);
    SplitCons(EQ, [], YEND[1..]);
    assert [] + [EQ] + YEND[1..] == YEND;
    hide ParseInt, ParseHex32, Split, Trim;
    Keys();
    assert KeyValue(YEND).Some? && KeyValue(YEND).value.0 == [];
  }

  lemma TrailerFold(p: Part, a: Article)
    requires InRange(a) && p.number == a.part
    ensures TrailerWords(p, [YEND] + TrailerWordsOf(a)) == Some(p.(size := |a.body|, crc := Number(StatedCrc(a))))
  {
    hide TrailerWords, KeyValue, ParseInt, ParseHex32, Decimal, Hex, Word, StatedCrc;
    Keys();
    NumberReadsBack(SIZE, |a.body|, []);
    NumberReadsBack(PART, a.part, []);
    CrcReadsBack(PCRC32, StatedCrc(a));
    CrcReadsBack(CRC32, a.fcrc);
    var w1, w2, w3, w4 := Word(SIZE, Decimal(|a.body|)), Word(PART, Decimal(a.part)),
        Word(PCRC32, Hex(Number(StatedCrc(a)), 8)), Word(CRC32, Hex(Number(a.fcrc), 8));
    assert w1 + [] == w1 && w2 + [] == w2;
    var last: seq<seq<byte>> := if a.part == a.total then [w4] + [] else [];
    assert [YEND] + TrailerWordsOf(a) == [YEND] + ([w1] + ([w2] + ([w3] + last)));
    var q := p.(size := |a.body|);
    var r := q.(crc := Number(StatedCrc(a)));
    YendIsNoKey(p);
    TrailerNext(p, YEND, [w1] + ([w2] + ([w3] + last)));
    TrailerNext(p, w1, [w2] + ([w3] + last));
    TrailerNext(q, w2, [w3] + last);
    TrailerNext(q, w3, last);
    TrailerNext(r, w4, []);
  }

  lemma TrailerWordsAreSolid(a: Article)
    ensures |TrailerWordsOf(a)| >= 3 && forall k | 0 <= k < |TrailerWordsOf(a)| :: Solid(TrailerWordsOf(a)[k])
  {
    hide Decimal, Hex, StatedCrc, Word, Inert, Solid, IsDigits;
    Keys();
    DecimalIsDigits(|a.body|);
    DecimalIsDigits(a.part);
    WordIsSolid(SIZE, Decimal(|a.body|));
    WordIsSolid(PART, Decimal(a.part));
    CrcIsSolid(PCRC32, StatedCrc(a));
    CrcIsSolid(CRC32, a.fcrc);
  }

  lemma CrcIsSolid(key: seq<byte>, c: bv32)
    requires Inert(key) && key != []
    ensures Solid(Word(key, Hex(Number(c), 8)))
  {
    hide Hex, Solid;
    ParseHex8(Number(c));
    WordIsSolid(key, Hex(Number(c), 8));
  }

  lemma TrailerSplit(a: Article)
    requires InRange(a)
    ensures Split(SPACE, TrailerLine(a)) == [YEND] + TrailerWordsOf(a)
    ensures TrailerLine(a) != [] && TrailerLine(a)[|TrailerLine(a)| - 1] != CR
            && TrailerLine(a)[|TrailerLine(a)| - 1] != LF
  {
    hide TrailerWordsOf, Joined, Split;
    TrailerWordsAreSolid(a);
    var words := TrailerWordsOf(a);
    SplitJoined(SPACE, YEND, words);
    var n := |words| - 1;
    assert words == words[..n] + [words[n]];
    JoinedAppend(SPACE, words[..n], words[n]);
    assert TrailerLine(a) == YEND + Joined(SPACE, words[..n]) + [SPACE] + words[n];
  }

  /** The =yend line reads back, and has no line end to trim. */
  lemma TrailerReadsBack(p: Part, a: Article)
    requires InRange(a) && p.number == a.part
    ensures Trailer(p, TrailerLine(a)) == Some(p.(size := |a.body|, crc := Number(StatedCrc(a))))
    ensures YEND <= TrailerLine(a) && TrimCrLf(TrailerLine(a)) == TrailerLine(a)
  {
    hide TrailerWords, TrailerWordsOf, StatedCrc, Joined, Split;
    TrailerSplit(a);
    TrailerFold(p, a);
  }

  // --- encoded lines in the three decoders -------------------------------------------------------------------

  lemma ControlPrefix(l: Line)
    ensures YBEGIN <= l || YPART <= l || YEND <= l ==> Yenc.StartsControl(l)
  {}

  /** A line of the encoder is no control line and has no line end to trim. */
  lemma BodyLine(l: Line)
    requires Yenc.GoodLine(l)
    ensures !(YBEGIN <= l) && !(YPART <= l) && !(YEND <= l) && Yenc.Decode(l).Some? && TrimCrLf(l) == l
  {
    hide Yenc.Decode;
    assert l[|l| - 1] != CR && l[|l| - 1] != LF;
    ControlPrefix(l);
  }

  predicate GoodLines(ls: seq<Line>) { forall k | 0 <= k < |ls| :: Yenc.GoodLine(ls[k]) }

  lemma {:induction false} BufferDecodes(p: Part, body: seq<byte>, ls: seq<Line>, rest: seq<Line>)
    requires GoodLines(ls)
    ensures BufferBody(p, false, body, ls + rest) == BufferBody(p, false, body + Yenc.DecodeEach(ls), rest)
    decreases |ls|
  {
    hide Yenc.Decode, Yenc.DecodeCarry, TrimCrLf, Yenc.GoodLine;
    if ls == [] {
      assert ls + rest == rest && body + [] == body;
    } else {
      var l := ls[0];
      BodyLine(l);
      Yenc.CarryIsDecode(l);
      var b := Yenc.Decode(l).value;
      assert (ls + rest)[0] == l && (ls + rest)[1..] == ls[1..] + rest;
      BufferDecodes(p, body + b, ls[1..], rest);
      assert body + (b + Yenc.DecodeEach(ls[1..])) == body + b + Yenc.DecodeEach(ls[1..]);
    }
  }

  lemma {:induction false} SliceDecodes(p: Part, body: seq<byte>, ls: seq<Line>, rest: seq<Line>)
    requires GoodLines(ls)
    ensures SliceBody(p, body, ls + rest) == SliceBody(p, body + Yenc.DecodeEach(ls), rest)
    decreases |ls|
  {
    hide Yenc.Decode, Yenc.GoodLine;
    if ls == [] {
      assert ls + rest == rest && body + [] == body;
    } else {
      var l := ls[0];
      BodyLine(l);
      var b := Yenc.Decode(l).value;
      assert (ls + rest)[0] == l && (ls + rest)[1..] == ls[1..] + rest;
      SliceDecodes(p, body + b, ls[1..], rest);
      assert body + (b + Yenc.DecodeEach(ls[1..])) == body + b + Yenc.DecodeEach(ls[1..]);
    }
  }

  lemma {:induction false} LinesDecode(simd: nat, r: Reading, ls: seq<Line>, rest: seq<Line>)
    requires GoodLines(ls) && simd <= 2 && !r.broken && r.gotHeader && (r.multi ==> r.gotPart)
    ensures ReadLines(simd, r, ls + rest) == ReadLines(simd, r.(body := r.body + Yenc.DecodeEach(ls)), rest)
    decreases |ls|
  {
    hide Yenc.Decode, Yenc.GoodLine;
    if ls == [] {
      assert ls + rest == rest && r.body + [] == r.body;
    } else {
      var l := ls[0];
      BodyLine(l);
      var b := Yenc.Decode(l).value;
      assert (ls + rest)[0] == l && (ls + rest)[1..] == ls[1..] + rest;
      LinesDecode(simd, r.(body := r.body + b), ls[1..], rest);
      assert r.body + (b + Yenc.DecodeEach(ls[1..])) == r.body + b + Yenc.DecodeEach(ls[1..]);
    }
  }

  lemma EncodedLines(data: seq<byte>)
    ensures GoodLines(Yenc.Encode(data)) && Yenc.DecodeEach(Yenc.Encode(data)) == data
  {
    Yenc.RoundTrip(data);
    Yenc.EachLine(Yenc.Encode(data));
  }

  // --- main results: what becomes of an encoded article -----------------------------------------------------

  /** The body lines readDotLines sees: the blank line and the yEnc part. */
  function Sent(a: Article): seq<Line>
    requires a.begin >= 1
  {
    [[]] + YencPart(a)
  }

  function HeaderPart(a: Article): Part { Unset.(number := a.part, headerSize := a.size, name := Trim(a.name)) }

  function StatedPart(a: Article): Part {
    HeaderPart(a).(begin := a.begin, end := a.begin + |a.body| - 1, size := |a.body|, crc := Number(StatedCrc(a)))
  }

  function AfterPart(a: Article): Part { HeaderPart(a).(begin := a.begin, end := a.begin + |a.body| - 1) }

  function Tail(a: Article): seq<Line> {
    var body := Yenc.Encode(a.body);
    if a.kind.Truncated? then body[..|body| - |body| / 2] else body + [TrailerLine(a)]
  }

  /** The lines in front of the body, and what each mode makes of them. */
  lemma Front(a: Article)
    requires InRange(a)
    ensures Sent(a) == [[]] + ([HeaderLine(a)] + ([PartLine(a)] + Tail(a)))
    ensures SawYbegin(Sent(a))
    ensures After(YBEGIN, Sent(a)) == Some((HeaderLine(a), [PartLine(a)] + Tail(a)))
    ensures After(YPART, [PartLine(a)] + Tail(a)) == Some((PartLine(a), Tail(a)))
    ensures After(YPART, Sent(a)) == Some((PartLine(a), Tail(a)))
  {
    hide HeaderWordsOf, TrailerWordsOf, Joined, Header, PartHeader, Yenc.Encode;
    HeaderReadsBack(a, []);
    PartReadsBack(Unset, a, []);
    hide HeaderLine, PartLine, TrailerLine;
    var h, l, tail := HeaderLine(a), PartLine(a), Tail(a);
    assert Sent(a) == [[]] + ([h] + ([l] + tail));
    assert Sent(a)[1] == h;
    Prefixes(h, l);
    assert Sent(a)[1..] == [h] + ([l] + tail) && ([h] + ([l] + tail))[1..] == [l] + tail && ([l] + tail)[1..] == tail;
    hide Sent, Tail;
    AfterNext(YBEGIN, [], [h] + ([l] + tail));
    AfterNext(YBEGIN, h, [l] + tail);
    AfterNext(YPART, [], [h] + ([l] + tail));
    AfterNext(YPART, h, [l] + tail);
    AfterNext(YPART, l, tail);
  }

  lemma AfterNext(prefix: seq<byte>, line: Line, rest: seq<Line>)
    ensures After(prefix, [line] + rest) == if prefix <= line then Some((line, rest)) else After(prefix, rest)
  {
    assert ([line] + rest)[1..] == rest;
  }

  lemma Prefixes(h: Line, l: Line)
    requires YBEGIN + [SPACE] <= h && YPART + [SPACE] <= l
    ensures YBEGIN <= h && YPART <= l && !(YPART <= h) && !(YBEGIN <= l) && !(YEND <= h) && !(YEND <= l)
  {
    assert h[..7] == YBEGIN && l[..6] == YPART;
    NotYend(h);
    NotYend(l);
  }

  lemma BufferOutcome(a: Article)
    requires InRange(a) && !a.kind.Truncated?
    ensures BufferMode(Sent(a)) == if Trim(a.name) == [] then Rejected(false) else Validate(StatedPart(a), a.body)
  {
    hide Header, PartHeader, HeaderLine, PartLine, TrailerLine, Sent, After,
         Yenc.Encode, Yenc.DecodeEach, BufferBody, Validate, Trim, StatedCrc;
    Front(a);
    HeaderReadsBack(a, [LF]);
    PartReadsBack(HeaderPart(a), a, [LF]);
    EncodedLines(a.body);
    var t := TrailerLine(a);
    BufferDecodes(AfterPart(a), [], Yenc.Encode(a.body), [t]);
    assert [] + a.body == a.body;
    TrailerReadsBack(AfterPart(a), a);
    BufferLast(AfterPart(a), a.body, t);
  }

  lemma BufferLast(p: Part, body: seq<byte>, t: Line)
    requires YEND <= t && TrimCrLf(t) == t
    ensures BufferBody(p, false, body, [t]) == match Trailer(p, t) case None => None case Some(q) => Some((q, body))
  {}

  lemma SliceOutcome(a: Article)
    requires InRange(a) && !a.kind.Truncated?
    ensures SliceMode(Sent(a)) == if Trim(a.name) == [] then Rejected(false) else Validate(StatedPart(a), a.body)
  {
    hide Header, PartHeader, HeaderLine, PartLine, TrailerLine, Sent, After,
         Yenc.Encode, Yenc.DecodeEach, SliceBody, Validate, Trim, StatedCrc;
    Front(a);
    HeaderReadsBack(a, []);
    PartReadsBack(HeaderPart(a), a, []);
    assert HeaderLine(a) + [] == HeaderLine(a) && PartLine(a) + [] == PartLine(a);
    EncodedLines(a.body);
    var h, l, t, p := HeaderLine(a), PartLine(a), TrailerLine(a), AfterPart(a);
    SliceFirst(p, h, l, Tail(a));
    SliceDecodes(p, [], Yenc.Encode(a.body), [t]);
    assert [] + a.body == a.body;
    TrailerReadsBack(p, a);
    SliceLast(p, a.body, t);
  }

  lemma SliceFirst(p: Part, h: Line, l: Line, rest: seq<Line>)
    requires YBEGIN + [SPACE] <= h && YPART + [SPACE] <= l
    ensures SliceBody(p, [], [[]] + ([h] + ([l] + rest))) == SliceBody(p, [], rest)
  {
    Prefixes(h, l);
    SliceNext(p, [], l, rest);
    SliceNext(p, [], h, [l] + rest);
    SliceNext(p, [], [], [h] + ([l] + rest));
  }

  lemma SliceNext(p: Part, body: seq<byte>, line: Line, rest: seq<Line>)
    ensures YBEGIN <= line || YPART <= line || line == [] ==>
            SliceBody(p, body, [line] + rest) == SliceBody(p, body, rest)
  {
    assert ([line] + rest)[1..] == rest;
    assert body + [] == body;
  }

  lemma SliceLast(p: Part, body: seq<byte>, t: Line)
    requires YEND <= t
    ensures SliceBody(p, body, [t]) == match Trailer(p, t) case None => None case Some(q) => Some((q, body))
  {
    NotYend(t);
    hide Trailer;
  }

  lemma ReadNext(simd: nat, r: Reading, line: Line, rest: seq<Line>)
    ensures ReadLines(simd, r, [line] + rest) == ReadLines(simd, ReadLine(simd, r, line), rest)
    ensures ReadLines(simd, r, []) == r
  {
    hide ReadLine;
    assert ([line] + rest)[1..] == rest;
  }

  /** Mode 3 over the lines in front of the body. */
  lemma LinesFirst(simd: nat, a: Article)
    requires InRange(a)
    ensures var start := if Trim(a.name) == [] then NothingRead.(broken := true, part := HeaderPart(a), multi := true)
                         else Reading(true, true, true, false, AfterPart(a), []);
            ReadLines(simd, NothingRead, Sent(a)) == ReadLines(simd, start, Tail(a))
  {
    hide ReadLines, Header, PartHeader, HeaderLine, PartLine, Sent, Tail, Trim, LineBytes;
    Front(a);
    HeaderReadsBack(a, []);
    PartReadsBack(HeaderPart(a), a, []);
    assert HeaderLine(a) + [] == HeaderLine(a) && PartLine(a) + [] == PartLine(a);
    var h, l, tail := HeaderLine(a), PartLine(a), Tail(a);
    ReadNext(simd, NothingRead, [], [h] + ([l] + tail));
    ReadNext(simd, NothingRead, h, [l] + tail);
    ReadNext(simd, ReadLine(simd, NothingRead, h), l, tail);
  }

  lemma LinesOutcome(simd: nat, a: Article)
    requires InRange(a) && !a.kind.Truncated? && simd <= 2
    ensures LineMode(simd, Sent(a)) == if Trim(a.name) == [] then Rejected(false) else Validate(StatedPart(a), a.body)
  {
    hide ReadLines, HeaderLine, PartLine, TrailerLine, Sent, Yenc.Encode,
         Yenc.DecodeEach, Validate, Trim, Trailer, StatedCrc;
    LinesFirst(simd, a);
    if Trim(a.name) == [] {
      BrokenStays(simd, NothingRead.(broken := true, part := HeaderPart(a), multi := true), Tail(a));
    } else {
      EncodedLines(a.body);
      var t := TrailerLine(a);
      var r := Reading(true, true, true, false, AfterPart(a), []);
      LinesDecode(simd, r, Yenc.Encode(a.body), [t]);
      assert [] + a.body == a.body && [t] + [] == [t];
      TrailerReadsBack(AfterPart(a), a);
      ReadNext(simd, r.(body := a.body), t, []);
      ReadNext(simd, r.(body := a.body, part := StatedPart(a)), [], []);
    }
  }

  predicate Known(mode: Mode) { mode.ByLine? ==> mode.simd <= 2 }

  lemma FlippedCrc(c: bv32)
    ensures Flip(c) != c
  {}

  lemma NumberBack(c: bv32)
    ensures Number(c) as bv32 == c
  {}

  lemma SameNumber(c: bv32, d: bv32)
    ensures Number(c) == Number(d) <==> c == d
    ensures Number(d) == 0 <==> d == 0
  {
    NumberBack(c);
    NumberBack(d);
    if Number(d) == 0 { assert (0 as bv32) == 0; }
  }

  lemma StatedIsValid(a: Article)
    ensures Validate(StatedPart(a), a.body) ==
            if StatedCrc(a) == 0 then Rejected(false)
            else if a.kind.BadCrc? then Rejected(true)
            else Accepted(StatedPart(a), a.body)
  {
    hide Checksum, Trim, Number, Flip;
    var sum := Checksum(a.body);
    FlippedCrc(sum);
    var c := StatedCrc(a);
    assert c == if a.kind.BadCrc? then Flip(sum) else sum;
    SameNumber(sum, c);
    hide StatedCrc;
  }

  /** MAIN, round trip: an "ok" article is accepted with its bytes, part number, size and name in
      every mode, just if its CRC is not zero and its name not blank; "badcrc" is never accepted. */
  lemma EncodedArticle(mode: Mode, a: Article)
    requires InRange(a) && Known(mode) && !a.kind.Truncated?
    ensures Check(mode, Sent(a)) ==
            if Trim(a.name) == [] || StatedCrc(a) == 0 then Rejected(false)
            else if a.kind.BadCrc? then Rejected(true)
            else Accepted(StatedPart(a), a.body)
  {
    hide BufferMode, SliceMode, LineMode, Sent, Trim, SawYbegin, Validate, StatedCrc, StatedPart;
    Front(a);
    match mode {
      case Buffer => BufferOutcome(a);
      case Slice => SliceOutcome(a);
      case ByLine(simd) => LinesOutcome(simd, a);
    }
    StatedIsValid(a);
  }

  lemma {:induction false} HeaderStays(simd: nat, r: Reading, lines: seq<Line>)
    requires r.gotHeader || r.broken
    ensures var t := ReadLines(simd, r, lines); t.gotHeader || t.broken
    decreases |lines|
  {
    hide Header, PartHeader, Trailer, LineBytes;
    if lines != [] { HeaderStays(simd, ReadLine(simd, r, lines[0]), lines[1..]); }
  }

  /** Two "ok" articles that are rejected in every mode: one without data, whose CRC is zero, and one
      whose name is a space. */
  lemma GoodArticlesRejected(mode: Mode)
    requires Known(mode)
    ensures Check(mode, Sent(Article([], 1, 1, 1, 0, [97], [], 0, Ok))) == Rejected(false)
    ensures Check(mode, Sent(Article([], 1, 1, 1, 1, [SPACE], [5], 0, Ok))) == Rejected(false)
  {
    var empty, blank := Article([], 1, 1, 1, 0, [97], [], 0, Ok), Article([], 1, 1, 1, 1, [SPACE], [5], 0, Ok);
    assert Checksum([]) == 0 && Number(0) == 0;
    assert WhiteFirst([SPACE]) == 1 && [SPACE][1..] == [] && TrimStart([]) == [];
    assert TrimStart([SPACE]) == [] && TrimEnd([]) == [];
    hide Check, Sent, Trim, CrcUpdate;
    EncodedArticle(mode, empty);
    EncodedArticle(mode, blank);
  }

  // --- what each mode makes of any article ------------------------------------------------------

  /** The lines mode 2 decodes, and those mode 3 decodes behind its header. */
  function AllButControl(lines: seq<Line>): seq<Line> {
    if lines == [] then []
    else
      var l := lines[0];
      (if YBEGIN <= l || YPART <= l || YEND <= l then [] else [l]) + AllButControl(lines[1..])
  }

  function AllButYend(lines: seq<Line>): seq<Line> {
    if lines == [] then [] else (if YEND <= lines[0] then [] else [lines[0]]) + AllButYend(lines[1..])
  }

  predicate AllDecode(ls: seq<Line>) { forall k | 0 <= k < |ls| :: Yenc.Decode(ls[k]).Some? }

  /** What the =yend lines say, of the decoded lines; None if one of the trailers is wrong. */
  function Judged(q: Option<Part>, ls: seq<Line>, decoded: bool): Outcome {
    if q.None? || !decoded then Rejected(false) else Validate(q.value, Yenc.DecodeEach(ls))
  }

  lemma OneMore(l: Line, ls: seq<Line>)
    ensures AllDecode([l] + ls) <==> Yenc.Decode(l).Some? && AllDecode(ls)
    ensures Yenc.DecodeEach([l] + ls) == Yenc.Decode(l).GetOr([]) + Yenc.DecodeEach(ls)
  {
    hide Yenc.Decode;
    var all := [l] + ls;
    assert all[1..] == ls && all[0] == l && forall k | 1 <= k < |all| :: all[k] == ls[k - 1];
    assert forall k | 0 <= k < |ls| :: ls[k] == all[k + 1];
  }

  lemma TrailersStep(p: Part, lines: seq<Line>)
    requires lines != []
    ensures Trailers(p, lines) ==
            if !(YEND <= lines[0]) then Trailers(p, lines[1..])
            else match Trailer(p, lines[0]) case None => None case Some(q) => Trailers(q, lines[1..])
  {
    hide Trailer;
  }

  lemma SliceStep(p: Part, body: seq<byte>, lines: seq<Line>)
    requires lines != []
    ensures var (l, more, ls) := (lines[0], lines[1..], AllButControl(lines[1..]));
            if YBEGIN <= l || YPART <= l || YEND <= l then
              && AllButControl(lines) == ls
              && (!(YEND <= l) ==> SliceBody(p, body, lines) == SliceBody(p, body, more))
              && (YEND <= l ==> SliceBody(p, body, lines) ==
                                match Trailer(p, l) case None => None case Some(q) => SliceBody(q, body, more))
            else
              && AllButControl(lines) == [l] + ls
              && SliceBody(p, body, lines) ==
                 match Yenc.Decode(l) case None => None case Some(b) => SliceBody(p, body + b, more)
  {
    hide Trailer, Yenc.Decode;
    NotYend(lines[0]);
    assert [] + AllButControl(lines[1..]) == AllButControl(lines[1..]);
  }

  lemma Joins(a: seq<byte>, b: seq<byte>, c: seq<byte>)
    ensures a + b + c == a + (b + c)
  {}

  lemma {:induction false} SliceTells(p: Part, body: seq<byte>, lines: seq<Line>)
    ensures var (ls, q) := (AllButControl(lines), Trailers(p, lines));
            SliceBody(p, body, lines) ==
            if AllDecode(ls) && q.Some? then Some((q.value, body + Yenc.DecodeEach(ls))) else None
    decreases |lines|
  {
    if lines == [] {
      assert body + [] == body && Yenc.DecodeEach([]) == [];
    } else {
      var l, more := lines[0], lines[1..];
      NotYend(l);
      SliceStep(p, body, lines);
      TrailersStep(p, lines);
      var ls := AllButControl(more);
      OneMore(l, ls);
      hide SliceBody, AllButControl, Trailers, Trailer, Yenc.Decode, AllDecode, Yenc.DecodeEach;
      if YBEGIN <= l || YPART <= l {
        SliceTells(p, body, more);
      } else if YEND <= l {
        if Trailer(p, l).Some? { SliceTells(Trailer(p, l).value, body, more); }
      } else if Yenc.Decode(l).Some? {
        SliceTells(p, body + Yenc.Decode(l).value, more);
        Joins(body, Yenc.Decode(l).value, Yenc.DecodeEach(ls));
      }
    }
  }

  /** MAIN, mode 2: every article is judged by all its =yend lines and by what its other lines decode to,
      each on its own. */
  lemma SliceJudges(p: Part, lines: seq<Line>)
    ensures SliceVerdict(p, lines) == Judged(Trailers(p, lines), AllButControl(lines), AllDecode(AllButControl(lines)))
  {
    SliceTells(p, [], lines);
    assert [] + Yenc.DecodeEach(AllButControl(lines)) == Yenc.DecodeEach(AllButControl(lines));
    hide SliceBody, Trailers, Validate, AllButControl, AllDecode;
  }

  /** SimdMode 0 drops a line that ends in an unfinished escape, 1 and 2 fail on it, others on any line. */
  predicate Decodes(simd: nat, ls: seq<Line>) { simd == 0 || ls == [] || (simd <= 2 && AllDecode(ls)) }

  lemma DecodesMore(simd: nat, l: Line, ls: seq<Line>)
    ensures Decodes(simd, [l] + ls) <==> LineBytes(simd, l).Some? && Decodes(simd, ls)
    ensures LineBytes(simd, l).Some? ==>
              Yenc.DecodeEach([l] + ls) == LineBytes(simd, l).value + Yenc.DecodeEach(ls)
  {
    OneMore(l, ls);
    assert AllDecode([]);
    hide Yenc.Decode, AllDecode, Yenc.DecodeEach;
  }

  /** Mode 3 behind its header, or its part header. */
  predicate InData(r: Reading) { !r.broken && r.gotHeader && (r.multi ==> r.gotPart) }

  lemma DataStep(simd: nat, r: Reading, l: Line)
    requires InData(r)
    ensures ReadLine(simd, r, l) ==
            if YEND <= l then match Trailer(r.part, l) case None => r.(broken := true) case Some(q) => r.(part := q)
            else match LineBytes(simd, l) case None => r.(broken := true) case Some(b) => r.(body := r.body + b)
  {
    hide Trailer, LineBytes;
  }

  lemma YendStep(lines: seq<Line>)
    requires lines != []
    ensures AllButYend(lines) ==
            (if YEND <= lines[0] then [] else [lines[0]]) + AllButYend(lines[1..])
    ensures [] + AllButYend(lines[1..]) == AllButYend(lines[1..])
  {}

  lemma {:induction false} ByLineTells(simd: nat, r: Reading, lines: seq<Line>)
    requires InData(r)
    ensures var (t, ls, q) := (ReadLines(simd, r, lines), AllButYend(lines), Trailers(r.part, lines));
            if Decodes(simd, ls) && q.Some? then t == r.(part := q.value, body := r.body + Yenc.DecodeEach(ls))
            else t.broken
    decreases |lines|
  {
    if lines == [] {
      assert r.body + [] == r.body && Yenc.DecodeEach([]) == [];
    } else {
      var l, more := lines[0], lines[1..];
      var ls := AllButYend(more);
      DecodesMore(simd, l, ls);
      DataStep(simd, r, l);
      YendStep(lines);
      TrailersStep(r.part, lines);
      assert [l] + more == lines;
      ReadNext(simd, r, l, more);
      var next := ReadLine(simd, r, l);
      BrokenStays(simd, next, more);
      hide ReadLines, AllButYend, Trailers, Trailer, LineBytes, Decodes, Yenc.DecodeEach, ReadLine;
      if !next.broken {
        ByLineTells(simd, next, more);
        if !(YEND <= l) { Joins(r.body, LineBytes(simd, l).value, Yenc.DecodeEach(ls)); }
      }
    }
  }

  lemma {:induction false} NothingYet(simd: nat, front: seq<Line>, rest: seq<Line>)
    requires forall k | 0 <= k < |front| :: !(YBEGIN + [SPACE] <= front[k])
    ensures ReadLines(simd, NothingRead, front + rest) == ReadLines(simd, NothingRead, rest)
    decreases |front|
  {
    if front == [] {
      assert front + rest == rest;
    } else {
      assert front + rest == [front[0]] + (front[1..] + rest);
      ReadNext(simd, NothingRead, front[0], front[1..] + rest);
      NothingYet(simd, front[1..], rest);
    }
  }

  /** MAIN, mode 3: behind the first =ybegin line, and behind its =ypart line, which must be the next one if
      there is a part number, every article is judged by all =yend lines and by what the other lines
      decode to, each on its own. */
  lemma ByLineJudges(simd: nat, front: seq<Line>, h: Line, rest: seq<Line>)
    requires YBEGIN + [SPACE] <= h && forall k | 0 <= k < |front| :: !(YBEGIN + [SPACE] <= front[k])
    ensures var (p, multi) := Header(Unset, false, h);
            LineMode(simd, front + ([h] + rest)) ==
            if p.name == [] then Rejected(false)
            else if !multi then Judged(Trailers(p, rest), AllButYend(rest), Decodes(simd, AllButYend(rest)))
            else if rest == [] || !(YPART + [SPACE] <= rest[0]) then Rejected(false)
            else
              var (q, more) := (PartHeader(p, rest[0]), rest[1..]);
              Judged(Trailers(q, more), AllButYend(more), Decodes(simd, AllButYend(more)))
  {
    NothingYet(simd, front, [h] + rest);
    ReadNext(simd, NothingRead, h, rest);
    HeaderUntrailed(Unset, false, h);
    hide Header, PartHeader, ReadLines, Trailers, AllButYend, Decodes, Yenc.DecodeEach, LineBytes, Trailer;
    var (p, multi) := Header(Unset, false, h);
    var r := ReadLine(simd, NothingRead, h);
    ReadNext(simd, r, h, []);
    BrokenStays(simd, r, rest);
    if p.name != [] {
      if !multi {
        ByLineTells(simd, r, rest);
        NothingBefore(Trailers(p, rest), AllButYend(rest));
      } else if rest != [] {
        assert [rest[0]] + rest[1..] == rest;
        ReadNext(simd, r, rest[0], rest[1..]);
        var s := ReadLine(simd, r, rest[0]);
        BrokenStays(simd, s, rest[1..]);
        if !s.broken {
          ByLineTells(simd, s, rest[1..]);
          NothingBefore(Trailers(s.part, rest[1..]), AllButYend(rest[1..]));
        }
      }
    }
  }

  lemma NothingBefore(q: Option<Part>, ls: seq<Line>)
    ensures [] + Yenc.DecodeEach(ls) == Yenc.DecodeEach(ls)
  {}

  function Trimmed(ls: seq<Line>): seq<Line> { if ls == [] then [] else [TrimCrLf(ls[0])] + Trimmed(ls[1..]) }

  lemma {:induction false} BufferTells(p: Part, awaiting: bool, body: seq<byte>, ls: seq<Line>, rest: seq<Line>)
    requires forall k | 0 <= k < |ls| :: !(YEND <= ls[k])
    ensures var (b, w) := Yenc.DecodeLines(awaiting, Trimmed(ls));
            BufferBody(p, awaiting, body, ls + rest) == BufferBody(p, w, body + b, rest)
    decreases |ls|
  {
    if ls == [] {
      assert ls + rest == rest && body + [] == body;
    } else {
      hide Yenc.DecodeCarry, Trailer, TrimCrLf;
      var line := TrimCrLf(ls[0]);
      assert !(YEND <= line);
      var (b, w) := Yenc.DecodeCarry(awaiting, line);
      assert (ls + rest)[0] == ls[0] && (ls + rest)[1..] == ls[1..] + rest;
      BufferTells(p, w, body + b, ls[1..], rest);
      assert Trimmed(ls)[1..] == Trimmed(ls[1..]);
      var c := Yenc.DecodeLines(w, Trimmed(ls[1..])).0;
      assert body + b + c == body + (b + c);
    }
  }

  /** MAIN, mode 1: an article is judged by its first =yend line and by what the lines before it, joined
      without their line ends, decode to. */
  lemma BufferJudges(p: Part, ls: seq<Line>, t: Line, rest: seq<Line>)
    requires (forall k | 0 <= k < |ls| :: !(YEND <= ls[k])) && YEND <= TrimCrLf(t)
    ensures BufferVerdict(p, ls) == Rejected(false)
    ensures BufferVerdict(p, ls + ([t] + rest)) ==
            match Trailer(p, TrimCrLf(t))
            case None => Rejected(false)
            case Some(q) => Validate(q, Yenc.DecodeCarry(false, Flat(Trimmed(ls))).0)
  {
    BufferTells(p, false, [], ls, []);
    BufferTells(p, false, [], ls, [t] + rest);
    Yenc.LinesAreJoined(false, Trimmed(ls));
    var (b, w) := Yenc.DecodeCarry(false, Flat(Trimmed(ls)));
    assert ls + [] == ls && [] + b == b;
    BufferEnds(p, w, b, t, rest);
    hide BufferBody, Yenc.DecodeCarry, Trailer, Validate, Trimmed, TrimCrLf;
  }

  lemma BufferEnds(p: Part, w: bool, body: seq<byte>, t: Line, rest: seq<Line>)
    requires YEND <= TrimCrLf(t)
    ensures BufferBody(p, w, body, []) == None
    ensures BufferBody(p, w, body, [t] + rest) ==
            match Trailer(p, TrimCrLf(t)) case None => None case Some(q) => Some((q, body))
  {
    hide TrimCrLf, Trailer;
    assert ([t] + rest)[0] == t;
  }

  /** ... and a header with a part number needs a =ypart line somewhere behind it. */
  lemma BufferNeedsPart(h: Line, rest: seq<Line>)
    requires YBEGIN <= h
    ensures var (p, multi) := Header(Unset, false, h + [LF]);
            BufferMode([h] + rest) ==
            if p.name == [] then Rejected(false)
            else if !multi then BufferVerdict(p, rest)
            else match After(YPART, rest)
                 case None => Rejected(false)
                 case Some((l, more)) => BufferVerdict(PartHeader(p, l + [LF]), more)
  {
    AfterNext(YBEGIN, h, rest);
    hide Header, PartHeader, After, BufferVerdict;
  }

  // --- the three modes agree ----------------------------------------------------------------------

  lemma {:induction false} SplitLf(s: seq<byte>)
    ensures var (a, b) := (Split(SPACE, s), Split(SPACE, s + [LF]));
            |a| == |b| && a[..|a| - 1] == b[..|a| - 1] && b[|a| - 1] == a[|a| - 1] + [LF]
    decreases |s|
  {
    IndexOfIs(SPACE, s);
    IndexOfIs(SPACE, s + [LF]);
    match IndexOf(SPACE, s)
    case None =>
      assert SPACE !in s + [LF];
      SplitOne(SPACE, s);
      SplitOne(SPACE, s + [LF]);
      hide Split;
    case Some(i) =>
      var a, rest := s[..i], s[i + 1..];
      hide Split, IndexOf;
      assert s == a + [SPACE] + rest && s + [LF] == a + [SPACE] + (rest + [LF]);
      SplitLf(rest);
      SplitCons(SPACE, a, rest);
      SplitCons(SPACE, a, rest + [LF]);
      LongerAlike(a, Split(SPACE, rest), Split(SPACE, rest + [LF]));
  }

  lemma LongerAlike(a: seq<byte>, x: seq<seq<byte>>, y: seq<seq<byte>>)
    requires x != [] && |x| == |y| && x[..|x| - 1] == y[..|x| - 1] && y[|x| - 1] == x[|x| - 1] + [LF]
    ensures var (v, w) := ([a] + x, [a] + y); v[..|v| - 1] == w[..|v| - 1] && w[|v| - 1] == v[|v| - 1] + [LF]
  {
    assert ([a] + x)[..|x|] == [a] + x[..|x| - 1] && ([a] + y)[..|x|] == [a] + y[..|x| - 1];
  }

  lemma {:induction false} FindNameLf(s: seq<byte>)
    ensures FindName(s + [LF]) == FindName(s)
    decreases |s|
  {
    NameLf(s);
    if s != [] {
      FindNameLf(s[1..]);
      assert (s + [LF])[1..] == s[1..] + [LF];
    }
  }

  lemma NameLf(s: seq<byte>)
    ensures NAME <= s + [LF] <==> NAME <= s
  {
    assert NAME[4] != LF && (s + [LF])[|s|] == LF;
  }

  lemma KeyValueLf(word: seq<byte>)
    ensures KeyValue(word + [LF]) == KeyValue(word)
  {
    TrimLf(word);
    hide Trim, Split;
  }

  lemma {:induction false} HeaderWordsLf(p: Part, multi: bool, front: seq<seq<byte>>, last: seq<byte>)
    ensures HeaderWords(p, multi, front + [last + [LF]]) == HeaderWords(p, multi, front + [last])
    decreases |front|
  {
    hide KeyValue, ParseInt;
    KeyValueLf(last);
    if front == [] {
      assert [] + [last + [LF]] == [last + [LF]] && [] + [last] == [last];
      HeaderNext(p, multi, last, []);
      HeaderNext(p, multi, last + [LF], []);
      assert [last] + [] == [last] && [last + [LF]] + [] == [last + [LF]];
    } else {
      var (q, m) := HeaderWord(p, multi, front[0]);
      HeaderWordsLf(q, m, front[1..], last);
      assert (front + [last])[1..] == front[1..] + [last];
      assert (front + [last + [LF]])[1..] == front[1..] + [last + [LF]];
    }
  }

  lemma {:induction false} PartWordsLf(p: Part, front: seq<seq<byte>>, last: seq<byte>)
    ensures PartWords(p, front + [last + [LF]]) == PartWords(p, front + [last])
    decreases |front|
  {
    hide KeyValue, ParseInt;
    KeyValueLf(last);
    if front == [] {
      assert [] + [last + [LF]] == [last + [LF]] && [] + [last] == [last];
      PartNext(p, last, []);
      PartNext(p, last + [LF], []);
      assert [last] + [] == [last] && [last + [LF]] + [] == [last + [LF]];
    } else {
      PartWordsLf(PartWord(p, front[0]), front[1..], last);
      assert (front + [last])[1..] == front[1..] + [last];
      assert (front + [last + [LF]])[1..] == front[1..] + [last + [LF]];
    }
  }

  lemma LastWord(a: seq<seq<byte>>, b: seq<seq<byte>>) returns (front: seq<seq<byte>>, last: seq<byte>)
    requires a != [] && |a| == |b| && a[..|a| - 1] == b[..|a| - 1] && b[|a| - 1] == a[|a| - 1] + [LF]
    ensures a == front + [last] && b == front + [last + [LF]]
  {
    front, last := a[..|a| - 1], a[|a| - 1];
    assert b == b[..|b| - 1] + [b[|b| - 1]];
  }

  /** The LF that mode 1 leaves at the end of its lines changes no header ... */
  lemma HeaderLf(h: Line)
    requires |h| >= 7
    ensures Header(Unset, false, h + [LF]) == Header(Unset, false, h)
  {
    hide HeaderWords, Split, FindName, Trim;
    var t := h[7..];
    assert (h + [LF])[7..] == t + [LF];
    FindNameLf(t);
    if FindName(t).Some? {
      NamedLf(t, FindName(t).value);
    } else {
      SplitLf(t);
      var front, last := LastWord(Split(SPACE, t), Split(SPACE, t + [LF]));
      HeaderWordsLf(Unset, false, front, last);
    }
  }

  lemma NamedLf(t: seq<byte>, i: nat)
    requires i + 5 <= |t|
    ensures (t + [LF])[..i] == t[..i] && Trim((t + [LF])[i + 5..]) == Trim(t[i + 5..])
  {
    assert (t + [LF])[i + 5..] == t[i + 5..] + [LF];
    TrimLf(t[i + 5..]);
    hide Trim;
  }

  /** ... and no part header. */
  lemma PartHeaderLf(p: Part, l: Line)
    requires |l| >= 6
    ensures PartHeader(p, l + [LF]) == PartHeader(p, l)
  {
    var t := l[6..];
    assert (l + [LF])[6..] == t + [LF];
    SplitLf(t);
    var front, last := LastWord(Split(SPACE, t), Split(SPACE, t + [LF]));
    PartWordsLf(p, front, last);
    hide PartWords, Split;
  }

  /** Data lines that all decoders take alike: no control lines, no line ends, no unfinished escapes. */
  predicate PlainData(ls: seq<Line>) {
    AllDecode(ls) && forall k | 0 <= k < |ls| ::
      !(YBEGIN <= ls[k]) && !(YPART <= ls[k]) && !(YEND <= ls[k]) && TrimCrLf(ls[k]) == ls[k]
  }

  lemma {:induction false} PlainKept(ls: seq<Line>, t: Line)
    requires PlainData(ls) && YEND <= t
    ensures AllButControl(ls + [t]) == ls && AllButYend(ls + [t]) == ls && Trimmed(ls) == ls
    ensures forall p: Part {:trigger Trailer(p, t)} :: Trailers(p, ls + [t]) == Trailer(p, t)
  {
    hide Yenc.Decode, TrimCrLf;
    forall p: Part
      ensures Trailers(p, ls + [t]) == Trailer(p, t)
    {
      assert (ls + [t])[|ls|] == t && forall k | 0 <= k < |ls| :: (ls + [t])[k] == ls[k];
      OneTrailer(p, ls + [t], |ls|);
    }
    if ls == [] {
      assert ls + [t] == [t] && [t][1..] == [];
    } else {
      var more := ls[1..];
      assert forall k | 0 <= k < |more| :: more[k] == ls[k + 1];
      PlainKept(more, t);
      assert (ls + [t])[1..] == more + [t] && ls == [ls[0]] + more;
    }
  }

  /** The lines of an article: a =ybegin line, a =ypart line if there is a part number, data, a =yend line. */
  function Lines(h: Line, l: Option<Line>, ls: seq<Line>, t: Line): seq<Line> {
    [[]] + ([h] + ((if l.Some? then [l.value] else []) + (ls + [t])))
  }

  /** MAIN: on such an article all modes agree. It is judged by what its control lines say and its data
      lines decode to. */
  lemma ModesAgree(mode: Mode, h: Line, l: Option<Line>, ls: seq<Line>, t: Line)
    requires Known(mode) && YBEGIN + [SPACE] <= h && YEND <= t && TrimCrLf(t) == t && PlainData(ls)
    requires Header(Unset, false, h).1 == l.Some? && (l.Some? ==> YPART + [SPACE] <= l.value)
    ensures var p := Header(Unset, false, h).0;
            var q := if l.Some? then PartHeader(p, l.value) else p;
            Check(mode, Lines(h, l, ls, t)) ==
            if p.name == [] then Rejected(false) else Judged(Trailer(q, t), ls, true)
  {
    hide Header, PartHeader, Trailer, AllButControl, AllButYend, Trimmed, Trailers, Validate;
    hide BufferVerdict, SliceVerdict, LineMode, After, SawYbegin, TrimCrLf;
    var rest := (if l.Some? then [l.value] else []) + (ls + [t]);
    Saw(h, rest);
    PlainKept(ls, t);
    match mode
    case Buffer => BufferAgrees(h, l, ls, t);
    case Slice => SliceAgrees(h, l, ls, t);
    case ByLine(simd) => ByLineAgrees(simd, h, l, ls, t);
  }

  lemma Saw(h: Line, rest: seq<Line>)
    requires YBEGIN + [SPACE] <= h
    ensures SawYbegin([[]] + ([h] + rest))
  {
    var all := [[]] + ([h] + rest);
    assert all[1] == h;
  }

  lemma ByLineAgrees(simd: nat, h: Line, l: Option<Line>, ls: seq<Line>, t: Line)
    requires simd <= 2 && YBEGIN + [SPACE] <= h && YEND <= t && PlainData(ls)
    requires Header(Unset, false, h).1 == l.Some? && (l.Some? ==> YPART + [SPACE] <= l.value)
    ensures var p := Header(Unset, false, h).0;
            var q := if l.Some? then PartHeader(p, l.value) else p;
            LineMode(simd, Lines(h, l, ls, t)) ==
            if p.name == [] then Rejected(false) else Judged(Trailer(q, t), ls, true)
  {
    var data := ls + [t];
    var rest := (if l.Some? then [l.value] else []) + data;
    ByLineJudges(simd, [[]], h, rest);
    PlainKept(ls, t);
    hide Header, PartHeader, Trailer, AllButYend, Trailers, Validate, LineMode, TrimCrLf;
    if l.Some? {
      assert rest[0] == l.value && rest[1..] == data;
    } else {
      assert rest == data;
    }
    hide PlainData, AllDecode;
  }

  lemma SliceAgrees(h: Line, l: Option<Line>, ls: seq<Line>, t: Line)
    requires YBEGIN + [SPACE] <= h && YEND <= t && PlainData(ls)
    requires Header(Unset, false, h).1 == l.Some? && (l.Some? ==> YPART + [SPACE] <= l.value)
    ensures var p := Header(Unset, false, h).0;
            var q := if l.Some? then PartHeader(p, l.value) else p;
            SliceMode(Lines(h, l, ls, t)) == if p.name == [] then Rejected(false) else Judged(Trailer(q, t), ls, true)
  {
    hide Header, PartHeader, Trailer, AllButControl, Trailers, Validate, SliceVerdict, After, TrimCrLf, Yenc.DecodeEach;
    var data := ls + [t];
    var p := Header(Unset, false, h).0;
    var q := if l.Some? then PartHeader(p, l.value) else p;
    var lines := Lines(h, l, ls, t);
    assert h[..7] == YBEGIN && !(YBEGIN <= []) && !(YPART <= []) && !(YEND <= []);
    NotYend(h);
    PlainKept(ls, t);
    SliceJudges(q, lines);
    var rest := (if l.Some? then [l.value] else []) + data;
    AfterNext(YBEGIN, [], [h] + rest);
    AfterNext(YBEGIN, h, rest);
    AfterNext(YPART, [], [h] + rest);
    AfterNext(YPART, h, rest);
    ControlSkipped(q, h, rest);
    if l.Some? {
      assert l.value[..6] == YPART;
      NotYend(l.value);
      AfterNext(YPART, l.value, data);
      ControlNext(q, l.value, data);
    } else {
      assert rest == data;
    }
    BlankData(ls);
  }

  lemma ControlNext(q: Part, l: Line, rest: seq<Line>)
    requires (YBEGIN <= l || YPART <= l) && !(YEND <= l)
    ensures AllButControl([l] + rest) == AllButControl(rest) && Trailers(q, [l] + rest) == Trailers(q, rest)
  {
    assert ([l] + rest)[1..] == rest && [] + AllButControl(rest) == AllButControl(rest);
  }

  lemma ControlSkipped(q: Part, h: Line, rest: seq<Line>)
    requires YBEGIN <= h && !(YEND <= h)
    ensures var all := [[]] + ([h] + rest);
            AllButControl(all) == [[]] + AllButControl(rest) && Trailers(q, all) == Trailers(q, rest)
  {
    hide Trailer;
    ControlNext(q, h, rest);
    var all := [[]] + ([h] + rest);
    assert all[1..] == [h] + rest && all[0] == [];
  }

  lemma BlankData(ls: seq<Line>)
    ensures AllDecode([[]] + ls) <==> AllDecode(ls)
    ensures Yenc.DecodeEach([[]] + ls) == Yenc.DecodeEach(ls)
  {
    OneMore([], ls);
    assert Yenc.Decode([]) == Some([]);
    assert [] + Yenc.DecodeEach(ls) == Yenc.DecodeEach(ls);
  }

  lemma BufferAgrees(h: Line, l: Option<Line>, ls: seq<Line>, t: Line)
    requires YBEGIN + [SPACE] <= h && YEND <= t && TrimCrLf(t) == t && PlainData(ls)
    requires Header(Unset, false, h).1 == l.Some? && (l.Some? ==> YPART + [SPACE] <= l.value)
    ensures var p := Header(Unset, false, h).0;
            var q := if l.Some? then PartHeader(p, l.value) else p;
            BufferMode(Lines(h, l, ls, t)) == if p.name == [] then Rejected(false) else Judged(Trailer(q, t), ls, true)
  {
    hide Header, PartHeader, Trailer, Validate, After, BufferVerdict, TrimCrLf, Yenc.DecodeEach, Trimmed;
    var data := ls + [t];
    var p := Header(Unset, false, h).0;
    var q := if l.Some? then PartHeader(p, l.value) else p;
    assert h[..7] == YBEGIN && !(YBEGIN <= []);
    HeaderLf(h);
    PlainKept(ls, t);
    var rest := (if l.Some? then [l.value] else []) + data;
    AfterNext(YBEGIN, [], [h] + rest);
    AfterNext(YBEGIN, h, rest);
    BufferPlain(q, ls, t);
    if l.Some? {
      assert l.value[..6] == YPART;
      PartHeaderLf(p, l.value);
      AfterNext(YPART, l.value, data);
    } else {
      assert rest == data;
    }
  }

  lemma BufferPlain(q: Part, ls: seq<Line>, t: Line)
    requires YEND <= t && TrimCrLf(t) == t && PlainData(ls)
    ensures BufferVerdict(q, ls + [t]) == Judged(Trailer(q, t), ls, true)
  {
    PlainKept(ls, t);
    BufferJudges(q, ls, t, []);
    assert [t] + [] == [t];
    Yenc.LinesAreJoined(false, ls);
    Yenc.EachLine(ls);
    hide BufferVerdict, Trailer, Trimmed, TrimCrLf, Validate;
    hide Yenc.Decode, Yenc.DecodeCarry, Yenc.DecodeLines, Yenc.DecodeEach;
  }

  // --- trailers that say the same -----------------------------------------------------------------

  /** Two =yend lines that are read alike. */
  ghost predicate SameTrailer(l: Line, m: Line) {
    && YEND <= l && YEND <= m && TrimCrLf(l) == l && TrimCrLf(m) == m
    && forall p: Part :: Trailer(p, l) == Trailer(p, m)
  }

  ghost predicate Alike(a: seq<Line>, b: seq<Line>) {
    |a| == |b| && forall k | 0 <= k < |a| :: a[k] == b[k] || SameTrailer(a[k], b[k])
  }

  lemma AlikeTail(a: seq<Line>, b: seq<Line>)
    requires Alike(a, b) && a != []
    ensures b != [] && Alike(a[1..], b[1..]) && (a[0] == b[0] || SameTrailer(a[0], b[0]))
    ensures YBEGIN <= a[0] || YBEGIN <= b[0] || YPART <= a[0] || YPART <= b[0] ==> a[0] == b[0]
    ensures YBEGIN + [SPACE] <= a[0] || YBEGIN + [SPACE] <= b[0] ==> a[0] == b[0]
  {
    if SameTrailer(a[0], b[0]) {
      assert a[0][2] == YEND[2] && b[0][2] == YEND[2] && YBEGIN[2] != YEND[2] && YPART[2] != YEND[2];
    }
  }

  lemma {:induction false} AlikeAfter(prefix: seq<byte>, a: seq<Line>, b: seq<Line>)
    requires Alike(a, b) && (prefix == YBEGIN || prefix == YPART)
    ensures After(prefix, a).None? == After(prefix, b).None?
    ensures After(prefix, a).Some? ==>
              var (x, y) := (After(prefix, a).value, After(prefix, b).value); x.0 == y.0 && Alike(x.1, y.1)
    decreases |a|
  {
    if a != [] {
      AlikeTail(a, b);
      hide Alike, SameTrailer;
      AlikeAfter(prefix, a[1..], b[1..]);
    }
  }

  lemma {:induction false} AlikeSaw(a: seq<Line>, b: seq<Line>)
    requires Alike(a, b)
    ensures SawYbegin(a) == SawYbegin(b)
    decreases |a|
  {
    if a != [] {
      AlikeTail(a, b);
      AlikeSaw(a[1..], b[1..]);
      SawCons(a[0], a[1..]);
      SawCons(b[0], b[1..]);
      hide SawYbegin, Alike, SameTrailer;
      assert [a[0]] + a[1..] == a && [b[0]] + b[1..] == b;
    }
  }

  lemma {:induction false} AlikeBuffer(p: Part, awaiting: bool, body: seq<byte>, a: seq<Line>, b: seq<Line>)
    requires Alike(a, b)
    ensures BufferBody(p, awaiting, body, a) == BufferBody(p, awaiting, body, b)
    decreases |a|
  {
    hide Trailer, TrimCrLf;
    if a != [] {
      AlikeTail(a, b);
      var (x, w) := Yenc.DecodeCarry(awaiting, TrimCrLf(a[0]));
      AlikeBuffer(p, w, body + x, a[1..], b[1..]);
    }
  }

  lemma {:induction false} AlikeSlice(p: Part, body: seq<byte>, a: seq<Line>, b: seq<Line>)
    requires Alike(a, b)
    ensures SliceBody(p, body, a) == SliceBody(p, body, b)
    decreases |a|
  {
    hide Trailer, TrimCrLf, Yenc.Decode;
    if a != [] {
      AlikeTail(a, b);
      var more := Yenc.Decode(a[0]);
      AlikeSlice(p, body, a[1..], b[1..]);
      if Trailer(p, a[0]).Some? { AlikeSlice(Trailer(p, a[0]).value, body, a[1..], b[1..]); }
      if more.Some? { AlikeSlice(p, body + more.value, a[1..], b[1..]); }
    }
  }

  lemma AlikeLine(simd: nat, r: Reading, l: Line, m: Line)
    requires l == m || SameTrailer(l, m)
    ensures ReadLine(simd, r, l) == ReadLine(simd, r, m)
  {
    hide Trailer, Header, PartHeader, LineBytes;
    if SameTrailer(l, m) { assert l[2] == YEND[2] == m[2] && YBEGIN[2] != YEND[2] && YPART[2] != YEND[2]; }
  }

  lemma {:induction false} AlikeLines(simd: nat, r: Reading, a: seq<Line>, b: seq<Line>)
    requires Alike(a, b)
    ensures ReadLines(simd, r, a) == ReadLines(simd, r, b)
    decreases |a|
  {
    hide ReadLine, SameTrailer;
    if a != [] {
      AlikeTail(a, b);
      AlikeLine(simd, r, a[0], b[0]);
      AlikeLines(simd, ReadLine(simd, r, a[0]), a[1..], b[1..]);
    }
  }

  lemma AlikeBufferMode(a: seq<Line>, b: seq<Line>)
    requires Alike(a, b)
    ensures BufferMode(a) == BufferMode(b)
  {
    AlikeAfter(YBEGIN, a, b);
    hide Alike, After, Header, PartHeader, BufferBody, Validate;
    if After(YBEGIN, a).Some? {
      var (h, x) := After(YBEGIN, a).value;
      var y := After(YBEGIN, b).value.1;
      var p := Header(Unset, false, h + [LF]).0;
      AlikeBuffer(p, false, [], x, y);
      AlikeAfter(YPART, x, y);
      if After(YPART, x).Some? {
        var (l, more) := After(YPART, x).value;
        AlikeBuffer(PartHeader(p, l + [LF]), false, [], more, After(YPART, y).value.1);
      }
    }
  }

  lemma AlikeSliceMode(a: seq<Line>, b: seq<Line>)
    requires Alike(a, b)
    ensures SliceMode(a) == SliceMode(b)
  {
    AlikeAfter(YBEGIN, a, b);
    AlikeAfter(YPART, a, b);
    hide Alike, After, Header, PartHeader, SliceBody, Validate;
    if After(YBEGIN, a).Some? {
      var p := Header(Unset, false, After(YBEGIN, a).value.0).0;
      AlikeSlice(p, [], a, b);
      if After(YPART, a).Some? { AlikeSlice(PartHeader(p, After(YPART, a).value.0), [], a, b); }
    }
  }

  /** MAIN: an article whose =yend lines are written otherwise but say the same has the same outcome. */
  lemma AlikeChecks(mode: Mode, a: seq<Line>, b: seq<Line>)
    requires Alike(a, b)
    ensures Check(mode, a) == Check(mode, b)
  {
    AlikeSaw(a, b);
    AlikeBufferMode(a, b);
    AlikeSliceMode(a, b);
    hide BufferMode, SliceMode, SawYbegin, ReadLines, Alike, Validate;
    if mode.ByLine? { AlikeLines(mode.simd, NothingRead, a, b); }
  }

  // --- a CRC in capital digits --------------------------------------------------------------------

  function CapitalWords(a: Article): seq<seq<byte>> {
    TrailerWordsOf(a)[2 := Word(PCRC32, UpperCase(Hex(Number(StatedCrc(a)), 8)))]
  }

  /** The =yend line as posters that print "%08X" write it. */
  function CapitalTrailer(a: Article): Line { YEND + Joined(SPACE, CapitalWords(a)) }

  lemma {:induction false} SameWords(p: Part, v: seq<seq<byte>>, w: seq<seq<byte>>)
    requires |v| == |w| && forall k, q: Part | 0 <= k < |v| :: TrailerWord(q, v[k]) == TrailerWord(q, w[k])
    ensures TrailerWords(p, v) == TrailerWords(p, w)
    decreases |v|
  {
    hide TrailerWord;
    if v != [] {
      assert forall q: Part :: TrailerWord(q, v[0]) == TrailerWord(q, w[0]);
      if TrailerWord(p, v[0]).Some? { SameWords(TrailerWord(p, v[0]).value, v[1..], w[1..]); }
    }
  }

  lemma CapitalsAreInert(s: seq<byte>)
    requires IsDigits(s)
    ensures Inert(UpperCase(s))
  {
    forall k | 0 <= k < |s|
      ensures var b := UpperCase(s)[k]; b < 0x80 && !White(b) && b != EQ
    {
      var b := s[k];
      assert UpperCase(s)[k] == UpperByte(b) && (48 <= UpperByte(b) <= 57 || 65 <= UpperByte(b) <= 70);
    }
  }

  lemma InertIsSolid(key: seq<byte>, value: seq<byte>)
    requires Inert(key) && Inert(value) && key != [] && value != []
    ensures Solid(Word(key, value))
  {
    var w := Word(key, value);
    assert forall k | 0 <= k < |w| :: w[k] != SPACE && w[k] != LF && w[k] != CR;
  }

  lemma CapitalWord(p: Part, c: bv32)
    ensures TrailerWord(p, Word(PCRC32, UpperCase(Hex(Number(c), 8))))
            == TrailerWord(p, Word(PCRC32, Hex(Number(c), 8)))
    ensures Solid(Word(PCRC32, UpperCase(Hex(Number(c), 8))))
  {
    var v := Hex(Number(c), 8);
    ParseHex8(Number(c));
    hide Hex, ParseDigits;
    DigitsAreInert(v);
    CapitalsAreInert(v);
    Keys();
    UpperParses(v, 16, MAX_UINT32, 0);
    WordReadsBack(PCRC32, v, []);
    WordReadsBack(PCRC32, UpperCase(v), []);
    InertIsSolid(PCRC32, UpperCase(v));
    assert Word(PCRC32, v) + [] == Word(PCRC32, v) && Word(PCRC32, UpperCase(v)) + [] == Word(PCRC32, UpperCase(v));
    hide Word, UpperCase, KeyValue, Inert, Solid, ParseInt;
  }

  lemma CapitalSplit(a: Article)
    ensures Split(SPACE, CapitalTrailer(a)) == [YEND] + CapitalWords(a)
    ensures TrimCrLf(CapitalTrailer(a)) == CapitalTrailer(a)
  {
    TrailerWordsAreSolid(a);
    CapitalWord(Unset, StatedCrc(a));
    hide TrailerWordsOf, Word, UpperCase, Hex, Joined, Split, StatedCrc;
    var words := CapitalWords(a);
    assert forall k | 0 <= k < |words| :: Solid(words[k]);
    SplitJoined(SPACE, YEND, words);
    var n := |words| - 1;
    assert words == words[..n] + [words[n]];
    JoinedAppend(SPACE, words[..n], words[n]);
    assert CapitalTrailer(a) == YEND + Joined(SPACE, words[..n]) + [SPACE] + words[n];
  }

  lemma CapitalTrailerSame(a: Article)
    requires InRange(a)
    ensures SameTrailer(TrailerLine(a), CapitalTrailer(a))
  {
    hide Hex, StatedCrc, UpperCase, Joined, Split, TrailerWords, TrailerWord, Decimal;
    TrailerSplit(a);
    CapitalSplit(a);
    assert YEND <= TrailerLine(a) && YEND <= CapitalTrailer(a);
    var v, w := [YEND] + TrailerWordsOf(a), [YEND] + CapitalWords(a);
    assert v[3] == Word(PCRC32, Hex(Number(StatedCrc(a)), 8));
    hide TrailerWordsOf, Word;
    forall p: Part
      ensures Trailer(p, TrailerLine(a)) == Trailer(p, CapitalTrailer(a))
    {
      forall k, q: Part | 0 <= k < |v|
        ensures TrailerWord(q, v[k]) == TrailerWord(q, w[k])
      {
        if k == 3 { CapitalWord(q, StatedCrc(a)); } else { assert v[k] == w[k]; }
      }
      SameWords(p, v, w);
    }
  }

  /** MAIN: an encoded article whose CRC is written in capital digits has the outcome of EncodedArticle. */
  lemma CapitalCrc(mode: Mode, a: Article)
    requires InRange(a) && Known(mode) && !a.kind.Truncated?
    ensures Sent(a) != [] && Sent(a)[|Sent(a)| - 1] == TrailerLine(a)
    ensures Check(mode, Sent(a)[|Sent(a)| - 1 := CapitalTrailer(a)]) ==
            if Trim(a.name) == [] || StatedCrc(a) == 0 then Rejected(false)
            else if a.kind.BadCrc? then Rejected(true)
            else Accepted(StatedPart(a), a.body)
  {
    hide Check, SameTrailer, HeaderLine, PartLine, TrailerLine, CapitalTrailer;
    hide Yenc.Encode, Trim, StatedCrc, StatedPart;
    EncodedArticle(mode, a);
    CapitalTrailerSame(a);
    AlikeChecks(mode, Sent(a), Sent(a)[|Sent(a)| - 1 := CapitalTrailer(a)]);
  }

  /** A "truncated" article, cut in the body and without =yend, is rejected in every mode. */
  lemma TruncatedArticle(mode: Mode, a: Article)
    requires InRange(a) && a.kind.Truncated?
    ensures Check(mode, Sent(a)).Rejected?
  {
    hide Check, Sent, HeaderLine, PartLine, HasYend, Header;
    Front(a);
    EncodedLines(a.body);
    HeaderReadsBack(a, []);
    PartReadsBack(HeaderPart(a), a, []);
    Prefixes(HeaderLine(a), PartLine(a));
    NoYendSent(a);
    if Check(mode, Sent(a)).Accepted? { AcceptedIsTrue(mode, Sent(a)); }
    CheckedAndWhole(mode, a);
  }

  lemma CheckedAndWhole(mode: Mode, a: Article)
    requires InRange(a)
    ensures !Check(mode, Sent(a)).Plain? && !Check(mode, Sent(a)).Crash?
  {
    hide ReadLines, HeaderLine, PartLine, Trim, SawYbegin, BufferBody,
         SliceBody, Validate, Header, PartHeader, Sent, After, Tail;
    Front(a);
    NotCrash();
    if mode.ByLine? {
      LinesFirst(mode.simd, a);
      HeaderStays(mode.simd,
                  if Trim(a.name) == []
                  then NothingRead.(broken := true, part := HeaderPart(a), multi := true)
                             else Reading(true, true, true, false, AfterPart(a), []), Tail(a));
    }
  }

  lemma NotCrash()
    ensures forall p: Part, body: seq<byte> :: Validate(p, body).Accepted? || Validate(p, body).Rejected?
    ensures forall p: Part, body: seq<byte> :: Validate(p, body).Accepted? ==> Validate(p, body) == Accepted(p, body)
  {}

  lemma NoYendSent(a: Article)
    requires InRange(a) && a.kind.Truncated? && GoodLines(Yenc.Encode(a.body))
    requires !(YEND <= HeaderLine(a)) && !(YEND <= PartLine(a))
    ensures !HasYend(Sent(a))
  {
    hide HeaderLine, PartLine, Yenc.Encode, Yenc.GoodLine;
    forall k | 0 <= k < |Sent(a)|
      ensures !(YEND <= Sent(a)[k])
    {
      if k >= 3 {
        var l := Yenc.Encode(a.body)[k - 3];
        assert Sent(a)[k] == l;
        BodyLine(l);
      }
    }
  }

  // --- over the wire ------------------------------------------------------------------------------------------------

  lemma SolidLine(front: seq<byte>, words: seq<seq<byte>>, end: seq<byte>)
    requires LF !in front && LF !in end && forall k | 0 <= k < |words| :: Solid(words[k])
    ensures LF !in front + Joined(SPACE, words) + end
  {
    JoinedHasNot(LF, SPACE, words);
  }

  lemma ControlLinesHaveNoLf(a: Article)
    requires a.begin >= 1 && Framing.OneLine(a.name)
    ensures Framing.OneLine(HeaderLine(a)) && Framing.OneLine(PartLine(a)) && Framing.OneLine(TrailerLine(a))
  {
    hide HeaderWordsOf, TrailerWordsOf, Joined, Solid, Decimal, Word, Inert, IsDigits;
    HeaderWordsAreSolid(a);
    TrailerWordsAreSolid(a);
    var last := a.begin + |a.body| - 1;
    Keys();
    DecimalIsDigits(a.begin);
    DecimalIsDigits(last);
    WordIsSolid(BEGIN, Decimal(a.begin));
    WordIsSolid(END, Decimal(last));
    SolidLine(YBEGIN, HeaderWordsOf(a), [SPACE] + NAME + a.name);
    assert YBEGIN + Joined(SPACE, HeaderWordsOf(a)) + ([SPACE] + NAME + a.name) == HeaderLine(a);
    SolidLine(YPART, [Word(BEGIN, Decimal(a.begin)), Word(END, Decimal(last))], []);
    assert PartLine(a) + [] == PartLine(a);
    SolidLine(YEND, TrailerWordsOf(a), []);
    assert TrailerLine(a) + [] == TrailerLine(a);
  }

  lemma SentHasNoLf(a: Article)
    requires a.begin >= 1 && Framing.OneLine(a.name)
    ensures forall k | 0 <= k < |Sent(a)| :: Framing.OneLine(Sent(a)[k])
  {
    hide HeaderLine, PartLine, TrailerLine, Yenc.Encode, Yenc.Decode;
    ControlLinesHaveNoLf(a);
    EncodedLines(a.body);
    forall k | 0 <= k < |Yenc.Encode(a.body)|
      ensures Framing.OneLine(Yenc.Encode(a.body)[k])
    {
      assert Yenc.GoodLine(Yenc.Encode(a.body)[k]);
    }
    hide Framing.OneLine, Yenc.GoodLine;
  }

  /** MAIN: an encoded article sent dot-stuffed and read with ARTICLE reaches the check line by
      line as it was encoded, whatever follows it on the connection. */
  lemma OverTheWire(a: Article, o: Framing.Opts, rest: seq<byte>)
    requires a.begin >= 1 && Framing.OneLine(a.name) && o.command.ARTICLE?
    requires forall k | 0 <= k < |a.headers| :: a.headers[k] != [] && Framing.OneLine(a.headers[k])
    ensures var lines := a.headers + Sent(a);
            && Framing.Received(Framing.Wire(lines) + rest) == Some((Framing.Map(Framing.Stuff, lines), rest))
            && Framing.Map(Framing.Unstuff, Framing.BodyLines(o, Framing.Map(Framing.Stuff, lines))) == Sent(a)
  {
    SentHasNoLf(a);
    assert Sent(a)[0] == [];
    hide Sent, Framing.OneLine, Framing.Received, Framing.Wire;
    Framing.WireIsUnambiguous(a.headers + Sent(a), rest);
    BodyArrives(a.headers, Sent(a), o);
  }

  lemma BodyArrives(headers: seq<Line>, sent: seq<Line>, o: Framing.Opts)
    requires o.command.ARTICLE? && sent != [] && sent[0] == [] && forall k | 0 <= k < |headers| :: headers[k] != []
    ensures Framing.Map(Framing.Unstuff, Framing.BodyLines(o, Framing.Map(Framing.Stuff, headers + sent))) == sent
  {
    hide Framing.Unstuff, Framing.Stuff;
    var lines := headers + sent;
    Framing.StuffedHead(lines);
    assert lines[|headers|] == sent[0];
    assert forall k | 0 <= k < |headers| :: lines[k] == headers[k];
    assert Framing.HeadLength(lines) == |headers|;
    assert Framing.Map(Framing.Stuff, lines)[|headers|..] == Framing.Map(Framing.Stuff, sent);
    Framing.Unstuffed(sent);
  }

  // --- the decoder object ---------------------------------------------------------------------------------------

  method ToArray(s: seq<byte>) returns (a: array<byte>)
    ensures fresh(a) && a[..] == s
  {
    a := new byte[|s|](i requires 0 <= i < |s| => s[i]);
  }

  /** yenc.Decoder with its active part. */
  class PartDecoder {
    var buf: seq<byte>         // mode 1: what is left of the buffered input
    const dat: seq<Line>       // mode 2
    const escapes: Yenc.Decoder
    var multipart: bool
    var part: Part
    var body: seq<byte>
    var crcHash: bv32

    ghost var left: seq<Line>  // the lines in buf

    constructor (lines: seq<Line>, useBuf: bool)
      requires useBuf ==> forall k | 0 <= k < |lines| :: Framing.OneLine(lines[k])
      ensures Valid() && part == Unset && !multipart && body == [] && dat == lines
      ensures fresh(escapes) && (useBuf ==> left == lines)
    {
      assert CrcUpdate(CRC_START, []) == CRC_START && Framing.CacheFile([]) == [];
      hide CrcUpdate;
      escapes := new Yenc.Decoder();
      buf := if useBuf then Framing.CacheFile(lines) else [];
      left := if useBuf then lines else [];
      dat, multipart, part, body, crcHash := lines, false, Unset, [], CRC_START;
    }

    ghost predicate Valid()
      reads this
    {
      && crcHash == CrcUpdate(CRC_START, body)
      && buf == Framing.CacheFile(left) && forall k | 0 <= k < |left| :: Framing.OneLine(left[k])
    }

    /** d.Buf.ReadString('\n'); no complete line is left just if no line is. */
    method TakeLine() returns (s: seq<byte>, ok: bool)
      requires Valid()
      modifies this`buf, this`left
      ensures Valid() && ok == (old(left) != [])
      ensures ok ==> s == old(left)[0] + [LF] && left == old(left)[1..]
    {
      hide CrcUpdate;
      IndexOfIs(LF, buf);
      NextInBuffer(left);
      match IndexOf(LF, buf)
      case None => return [], false;
      case Some(i) =>
        s, ok := buf[..i + 1], true;
        buf, left := buf[i + 1..], left[1..];
    }

    /** Part.crcHash.Write and append to Body. */
    method Append(b: seq<byte>)
      requires Valid()
      modifies this`body, this`crcHash
      ensures Valid() && body == old(body) + b
    {
      hide CrcUpdate, Framing.CacheFile;
      CrcAppend(CRC_START, body, b);
      crcHash := CrcUpdate(crcHash, b);
      body := body + b;
    }

    method ParseHeader(s: seq<byte>)
      requires |s| >= 7
      modifies this`part, this`multipart
      ensures (part, multipart) == Header(old(part), old(multipart), s)
    {
      hide HeaderWord, Trim;
      var t := s[7..];
      var words;
      match FindName(t) {
        case None => words := Split(SPACE, t);
        case Some(i) =>
          part := part.(name := Trim(t[i + 5..]));
          words := Split(SPACE, t[..i]);
      }
      ghost var goal := HeaderWords(part, multipart, words);
      assert words[0..] == words;
      for k := 0 to |words|
        invariant HeaderWords(part, multipart, words[k..]) == goal
      {
        assert words[k..] == [words[k]] + words[k + 1..];
        HeaderNext(part, multipart, words[k], words[k + 1..]);
        part, multipart := HeaderWord(part, multipart, words[k]).0, HeaderWord(part, multipart, words[k]).1;
      }
    }

    method ParsePartHeader(s: seq<byte>)
      requires |s| >= 6
      modifies this`part
      ensures part == PartHeader(old(part), s)
    {
      hide PartWord;
      var words := Split(SPACE, s[6..]);
      ghost var goal := PartWords(part, words);
      assert words[0..] == words;
      for k := 0 to |words|
        invariant PartWords(part, words[k..]) == goal
      {
        assert words[k..] == [words[k]] + words[k + 1..];
        PartNext(part, words[k], words[k + 1..]);
        part := PartWord(part, words[k]);
      }
    }

    /** Stops at the first word that does not parse or does not fit. */
    method ParseTrailer(line: Line) returns (ok: bool)
      modifies this`part
      ensures match Trailer(old(part), line) case None => !ok case Some(q) => ok && part == q
    {
      hide TrailerWord;
      var words := Split(SPACE, line);
      ghost var goal := TrailerWords(part, words);
      assert words[0..] == words;
      for k := 0 to |words|
        invariant TrailerWords(part, words[k..]) == goal
      {
        assert words[k..] == [words[k]] + words[k + 1..];
        TrailerNext(part, words[k], words[k + 1..]);
        match TrailerWord(part, words[k])
        case None => return false;
        case Some(q) => part := q;
      }
      ok := true;
    }

    /** The search of mode 1 for a line with a prefix. */
    method FindInBuffer(prefix: seq<byte>) returns (s: seq<byte>, ok: bool)
      requires Valid() && LF !in prefix
      modifies this`buf, this`left
      ensures Valid()
      ensures match After(prefix, old(left))
              case None => !ok
              case Some((l, rest)) => ok && s == l + [LF] && left == rest
    {
      hide CrcUpdate, Framing.CacheFile;
      ghost var goal := After(prefix, left);
      while true
        invariant Valid() && After(prefix, left) == goal
        decreases |left|
      {
        s, ok := TakeLine();
        if !ok { return; }
        LfIsNoPrefix(prefix, s[..|s| - 1]);
        if HasPrefix(s, prefix) { return; }
      }
    }

    /** ReadBody of mode 1. */
    method ReadBodyBuffer() returns (ok: bool)
      requires Valid() && body == []
      modifies this`buf, this`left, this`part, this`body, this`crcHash, escapes
      ensures Valid()
      ensures match BufferBody(old(part), false, [], old(left))
              case None => !ok
              case Some((q, b)) => ok && part == q && body == b
    {
      hide CrcUpdate, Framing.CacheFile, Trailer, Yenc.DecodeCarry, TrimCrLf;
      escapes.awaitingSpecial := false;
      ghost var goal := BufferBody(part, false, [], left);
      while true
        invariant Valid() && BufferBody(part, escapes.awaitingSpecial, body, left) == goal
        decreases |left|
      {
        var s;
        s, ok := TakeLine();
        if !ok { return; }
        TrimLineEnd(s[..|s| - 1]);
        var line := TrimCrLf(s);
        if HasPrefix(line, YEND) {
          ok := ParseTrailer(line);
          return;
        }
        var a := ToArray(line);
        var n := escapes.DecodeLine(a);
        Append(a[..n]);
      }
    }

    /** DecodeYenc and the bookkeeping of ReadBody in mode 2. */
    method ReadBodySlice() returns (ok: bool)
      requires Valid() && body == []
      modifies this`part, this`body, this`crcHash
      ensures Valid()
      ensures match SliceBody(old(part), [], dat)
              case None => !ok
              case Some((q, b)) => ok && part == q && body == b
    {
      hide CrcUpdate, Framing.CacheFile, Trailer, Yenc.Decode;
      var decoded, buffer := [], [];
      ghost var goal := SliceBody(part, [], dat);
      assert dat[0..] == dat;
      for k := 0 to |dat|
        invariant Valid() && body == [] && buffer == [] && SliceBody(part, decoded, dat[k..]) == goal
      {
        assert dat[k..][1..] == dat[k + 1..];
        var line := dat[k];
        if HasPrefix(line, YBEGIN) || HasPrefix(line, YPART) { continue; }
        if HasPrefix(line, YEND) {
          ok := ParseTrailer(line);
          if !ok { return; }
          continue;
        }
        buffer := buffer + line;
        assert buffer == line;
        var whole;
        decoded, whole := Yenc.DecodeBuffer(decoded, buffer);
        if !whole { return false; }
        buffer := [];
      }
      Append(decoded);
      assert [] + decoded == decoded;
      ok := true;
    }

    /** ReadBody(line, true) of mode 3. */
    method ReadBodyLine(simd: nat, line: Line) returns (ok: bool)
      requires Valid()
      modifies this`part, this`body, this`crcHash
      ensures Valid()
      ensures if YEND <= line
              then (match Trailer(old(part), line)
                    case None => !ok
                    case Some(q) => ok && part == q && body == old(body))
              else (match LineBytes(simd, line)
                    case None => !ok
                    case Some(b) => ok && part == old(part) && body == old(body) + b)
    {
      hide CrcUpdate, Framing.CacheFile, Trailer, Yenc.Decode;
      if HasPrefix(line, YEND) {
        ok := ParseTrailer(line);
        return;
      }
      var b;
      if simd == 0 {
        b := escapes.DecodeLineNew(line);
      } else if simd == 1 {
        b, ok := Yenc.DecodeLineSimd1(line);
        if !ok { return; }
      } else if simd == 2 {
        var a := ToArray(line);
        var n;
        n, ok := Yenc.DecodeLineSimd2(a);
        if !ok { return; }
        b := a[..n];
      } else {
        return false;
      }
      Append(b);
      ok := true;
    }

    /** Part.Validate, with the hash kept while reading. */
    method ValidatePart() returns (o: Outcome)
      requires Valid()
      ensures o == Validate(part, body)
    {
      hide CrcUpdate, Number;
      if |body| != part.size { return Rejected(false); }
      if part.crc > 0 {
        if Number(Sum32(crcHash)) != part.crc { return Rejected(true); }
        return Accepted(part, body);
      }
      o := Rejected(false);
    }

    /** run in mode 1, for one part. */
    method RunBuffer() returns (o: Outcome)
      requires Valid() && part == Unset && !multipart && body == []
      modifies this, escapes
      ensures o == BufferMode(old(left))
    {
      hide CrcUpdate, Framing.CacheFile, Header, PartHeader, After, BufferBody, Validate;
      var s, ok := FindInBuffer(YBEGIN);
      if !ok { return Rejected(false); }
      ParseHeader(s);
      if part.name == [] { return Rejected(false); }
      if multipart {
        s, ok := FindInBuffer(YPART);
        if !ok { return Rejected(false); }
        ParsePartHeader(s);
      }
      ok := ReadBodyBuffer();
      if !ok { return Rejected(false); }
      o := ValidatePart();
    }

    /** The search of mode 2 for a line with a prefix; an empty string if there is none. */
    method FindInSlice(prefix: seq<byte>) returns (s: Line)
      requires prefix != []
      ensures s == match After(prefix, dat) case None => [] case Some((l, _)) => l
    {
      assert dat[0..] == dat;
      for k := 0 to |dat|
        invariant After(prefix, dat[k..]).Some? == After(prefix, dat).Some?
        invariant After(prefix, dat).Some? ==> After(prefix, dat[k..]).value.0 == After(prefix, dat).value.0
      {
        assert dat[k..][1..] == dat[k + 1..];
        if HasPrefix(dat[k], prefix) { return dat[k]; }
      }
      s := [];
    }

    /** run in mode 2, for one part. */
    method RunSlice() returns (o: Outcome)
      requires Valid() && part == Unset && !multipart && body == []
      modifies this
      ensures o == SliceMode(dat)
    {
      hide CrcUpdate, Framing.CacheFile, Header, PartHeader, After, SliceBody, Validate;
      var s := FindInSlice(YBEGIN);
      if |s| >= 7 { ParseHeader(s); }
      if part.name == [] { return Rejected(false); }
      if multipart {
        s := FindInSlice(YPART);
        if |s| < 6 { return Crash; }   // s[6:] panics
        ParsePartHeader(s);
      }
      var ok := ReadBodySlice();
      if !ok { return Rejected(false); }
      o := ValidatePart();
    }
  }

  lemma NextInBuffer(left: seq<Line>)
    requires forall k | 0 <= k < |left| :: Framing.OneLine(left[k])
    ensures var buf := Framing.CacheFile(left);
            if left == [] then IndexOf(LF, buf) == None
            else IndexOf(LF, buf) == Some(|left[0]|) && buf[..|left[0]| + 1] == left[0] + [LF]
                 && buf[|left[0]| + 1..] == Framing.CacheFile(left[1..])
  {
    var buf := Framing.CacheFile(left);
    IndexOfIs(LF, buf);
    if left != [] {
      var l, rest := left[0], Framing.CacheFile(left[1..]);
      assert buf == l + [LF] + rest;
      hide Framing.CacheFile, IndexOf;
      assert buf[|l|] == LF && buf[..|l|] == l;
    }
  }

  lemma LfIsNoPrefix(prefix: seq<byte>, l: Line)
    requires LF !in prefix
    ensures prefix <= l + [LF] <==> prefix <= l
  {
    assert (l + [LF])[|l|] == LF;
  }

  lemma TrimLineEnd(l: Line)
    ensures TrimCrLf(l + [LF]) == TrimCrLf(l)
  {
    assert (l + [LF])[..|l|] == l;
  }

  /** MAIN: the three decoders of readDotLines compute the outcome of their mode. In mode 1 the
      lines go into one buffer, each with an LF, and are taken apart again. */
  method CheckArticle(mode: Mode, lines: seq<Line>) returns (o: Outcome)
    requires forall k | 0 <= k < |lines| :: Framing.OneLine(lines[k])
    ensures o == Check(mode, lines)
  {
    hide BufferMode, SliceMode, CrcUpdate, Framing.CacheFile, Header, PartHeader, ReadLines, Validate;
    var sawYbegin := false;
    for k := 0 to |lines|
      invariant sawYbegin == SawYbegin(lines[..k])
    {
      SawNext(lines, k);
      if HasPrefix(lines[k], YBEGIN + [SPACE]) { sawYbegin := true; }
    }
    assert lines[..|lines|] == lines;
    var d := new PartDecoder(lines, mode.Buffer?);
    match mode {
      case Buffer => if sawYbegin { o := d.RunBuffer(); } else { o := Plain; }
      case Slice => if sawYbegin { o := d.RunSlice(); } else { o := Plain; }
      case ByLine(simd) => o := CheckByLine(simd, lines, d);
    }
  }

  lemma SawNext(lines: seq<Line>, k: nat)
    requires k < |lines|
    ensures SawYbegin(lines[..k + 1]) <==> SawYbegin(lines[..k]) || YBEGIN + [SPACE] <= lines[k]
  {
    var a, b := lines[..k], lines[..k + 1];
    assert b[k] == lines[k];
    assert forall j | 0 <= j < k :: b[j] == a[j];
  }

  ghost function Snapshot(d: PartDecoder, gotHeader: bool, gotPart: bool): Reading
    reads d
  {
    Reading(gotHeader, d.multipart, gotPart, false, d.part, d.body)
  }

  /** The case 3 of the read loop. */
  method CheckByLine(simd: nat, lines: seq<Line>, d: PartDecoder) returns (o: Outcome)
    requires d.Valid() && d.part == Unset && !d.multipart && d.body == []
    modifies d
    ensures o == LineMode(simd, lines)
  {
    hide CrcUpdate, Framing.CacheFile, Header, PartHeader, Trailer, LineBytes, Validate;
    var gotHeader, gotPart := false, false;
    assert lines[0..] == lines;
    for k := 0 to |lines|
      invariant d.Valid()
      invariant ReadLines(simd, Snapshot(d, gotHeader, gotPart), lines[k..]) == ReadLines(simd, NothingRead, lines)
    {
      var line := lines[k];
      ghost var r := Snapshot(d, gotHeader, gotPart);
      var ok := true;
      assert lines[k..] == [line] + lines[k + 1..];
      ReadNext(simd, r, line, lines[k + 1..]);
      hide ReadLines;
      if gotHeader {
        if d.multipart && !gotPart {
          ok := HasPrefix(line, YPART + [SPACE]);
          if ok {
            d.ParsePartHeader(line);
            gotPart := true;
          }
        } else {
          ok := d.ReadBodyLine(simd, line);
        }
      } else if HasPrefix(line, YBEGIN + [SPACE]) {
        d.ParseHeader(line);
        ok := d.part.name != [];
        gotHeader := true;
      }
      if !ok {
        BrokenStays(simd, ReadLine(simd, r, line), lines[k + 1..]);
        return Rejected(false);
      }
    }
    ReadNext(simd, Snapshot(d, gotHeader, gotPart), [], []);
    if !gotHeader { return Plain; }
    o := d.ValidatePart();
  }
}
