/** Text in the small.

    strings.Split for a separator of one byte, strings.TrimSpace,
    bytes.TrimRight for line ends, numbers as fmt prints them with "%d" and "%08x", and numbers as
    strconv parses them, with the values it returns along with an error.

    The last part says that printed numbers are parsed back and joined words are split again. */
module Text {
  import opened Bytes
  import opened Wrappers

  // --- searching and splitting ---------------------------------------------------------------

  function IndexOf(c: byte, s: seq<byte>): Option<nat> {
    if s == [] then None
    else if s[0] == c then Some(0)
    else match IndexOf(c, s[1..]) case None => None case Some(i) => Some(i + 1)
  }

  lemma {:induction false} IndexOfIs(c: byte, s: seq<byte>)
    ensures match IndexOf(c, s)
            case None => c !in s
            case Some(i) => i < |s| && s[i] == c && c !in s[..i]
  {
    if s != [] && s[0] != c {
      IndexOfIs(c, s[1..]);
      match IndexOf(c, s[1..])
      case None => assert s == [s[0]] + s[1..];
      case Some(i) => assert s[..i + 1] == [s[0]] + s[1..][..i];
    }
  }

  /** strings.Split for a separator of one byte. */
  function Split(c: byte, s: seq<byte>): (r: seq<seq<byte>>)
    ensures r != [] && forall k | 0 <= k < |r| :: c !in r[k]
    decreases |s|
  {
    IndexOfIs(c, s);
    match IndexOf(c, s)
    case None => [s]
    case Some(i) => [s[..i]] + Split(c, s[i + 1..])
  }

  lemma SplitOne(c: byte, s: seq<byte>)
    requires c !in s
    ensures Split(c, s) == [s]
  {
    IndexOfIs(c, s);
  }

  /** The first two pieces and what follows them. */
  lemma SplitParts(c: byte, s: seq<byte>)
    requires |Split(c, s)| >= 2
    ensures var r := Split(c, s);
            && c !in r[0] && c !in r[1] && (s == r[0] + [c] + r[1] || r[0] + [c] + r[1] + [c] <= s)
  {
    var i := FirstPiece(c, s);
    var t := s[i + 1..];
    if |Split(c, t)| >= 2 {
      var k := FirstPiece(c, t);
      hide Split;
      CutTwice(c, s, i, k);
    } else {
      OnePiece(c, t);
      hide Split;
      CutOnce(c, s, i);
    }
  }

  /** ... and back. */
  lemma PartsSplit(c: byte, s: seq<byte>, a: seq<byte>, b: seq<byte>)
    requires c !in a && c !in b && (s == a + [c] + b || a + [c] + b + [c] <= s)
    ensures |Split(c, s)| >= 2 && Split(c, s)[0] == a && Split(c, s)[1] == b
  {
    hide Split;
    if s == a + [c] + b {
      SplitCons(c, a, b);
      SplitOne(c, b);
    } else {
      var n := |a| + |b| + 2;
      var more := s[n..];
      assert s[..n] == a + [c] + b + [c];
      assert s == a + [c] + (b + [c] + more);
      SplitCons(c, a, b + [c] + more);
      SplitCons(c, b, more);
    }
  }

  lemma CutOnce(c: byte, s: seq<byte>, i: nat)
    requires i < |s| && s[i] == c
    ensures s[..i] + [c] + s[i + 1..] == s
  {}

  lemma CutTwice(c: byte, s: seq<byte>, i: nat, k: nat)
    requires i + 1 + k < |s| && s[i] == c && s[i + 1..][k] == c
    ensures s[..i] + [c] + s[i + 1..][..k] + [c] <= s
  {
    CutOnce(c, s, i);
    CutOnce(c, s[i + 1..], k);
  }

  lemma FirstPiece(c: byte, s: seq<byte>) returns (i: nat)
    requires |Split(c, s)| >= 2
    ensures i < |s| && s[i] == c && Split(c, s) == [s[..i]] + Split(c, s[i + 1..])
  {
    IndexOfIs(c, s);
    i := IndexOf(c, s).value;
  }

  lemma OnePiece(c: byte, s: seq<byte>)
    requires |Split(c, s)| < 2
    ensures Split(c, s) == [s]
  {
    IndexOfIs(c, s);
  }

  lemma SplitCons(c: byte, a: seq<byte>, rest: seq<byte>)
    requires c !in a
    ensures Split(c, a + [c] + rest) == [a] + Split(c, rest)
  {
    var s := a + [c] + rest;
    IndexOfIs(c, s);
    assert s[|a|] == c;
    assert s[..|a|] == a && s[|a| + 1..] == rest;
  }

  /** Words, each after a separator. */
  function Joined(c: byte, words: seq<seq<byte>>): seq<byte> {
    if words == [] then [] else [c] + words[0] + Joined(c, words[1..])
  }

  lemma JoinedOne(c: byte, word: seq<byte>)
    ensures Joined(c, [word]) == [c] + word
  {
    assert [c] + word + [] == [c] + word;
  }

  lemma JoinedTwo(c: byte, a: seq<byte>, b: seq<byte>)
    ensures Joined(c, [a, b]) == [c] + a + ([c] + b)
  {
    JoinedOne(c, b);
    assert [a, b][1..] == [b];
  }

  lemma {:induction false} JoinedHasNot(b: byte, c: byte, words: seq<seq<byte>>)
    requires b != c && forall k | 0 <= k < |words| :: b !in words[k]
    ensures b !in Joined(c, words)
    decreases |words|
  {
    if words != [] { JoinedHasNot(b, c, words[1..]); }
  }

  lemma {:induction false} JoinedAppend(c: byte, words: seq<seq<byte>>, last: seq<byte>)
    ensures Joined(c, words + [last]) == Joined(c, words) + ([c] + last)
    decreases |words|
  {
    if words == [] {
      assert [] + ([c] + last) == [c] + last == [c] + last + [];
    } else {
      JoinedAppend(c, words[1..], last);
      assert (words + [last])[1..] == words[1..] + [last];
      assert [c] + words[0] + (Joined(c, words[1..]) + ([c] + last)) ==
          [c] + words[0] + Joined(c, words[1..]) + ([c] + last);
    }
  }

  /** Split takes apart what was put together from words without the separator. */
  lemma {:induction false} SplitJoined(c: byte, first: seq<byte>, words: seq<seq<byte>>)
    requires c !in first && forall k | 0 <= k < |words| :: c !in words[k]
    ensures Split(c, first + Joined(c, words)) == [first] + words
    decreases |words|
  {
    hide Split;
    if words == [] {
      SplitOne(c, first);
      assert first + [] == first;
    } else {
      SplitJoined(c, words[0], words[1..]);
      SplitCons(c, first, words[0] + Joined(c, words[1..]));
      assert first + Joined(c, words) == first + [c] + (words[0] + Joined(c, words[1..]));
      assert [words[0]] + words[1..] == words;
    }
  }

  // --- trimming --------------------------------------------------------------------------------

  /** ASCII white space. */
  predicate White(b: byte) { 9 <= b <= 13 || b == SPACE }

  /** The other white space of unicode.IsSpace in UTF-8: U+0085, U+00A0, U+1680, U+2000 to U+200A,
      U+2028, U+2029, U+202F, U+205F and U+3000. */
  predicate WhitePair(a: byte, b: byte) { a == 0xC2 && (b == 0x85 || b == 0xA0) }

  predicate WhiteTriple(a: byte, b: byte, c: byte) {
    || (a == 0xE1 && b == 0x9A && c == 0x80)
    || (a == 0xE2 && b == 0x80 && (0x80 <= c <= 0x8A || c == 0xA8 || c == 0xA9 || c == 0xAF))
    || (a == 0xE2 && b == 0x81 && c == 0x9F)
    || (a == 0xE3 && b == 0x80 && c == 0x80)
  }

  /** How many bytes of white space the first character is, 0 for another character. */
  function WhiteFirst(s: seq<byte>): (n: nat)
    ensures n <= |s|
  {
    if |s| >= 1 && White(s[0]) then 1
    else if |s| >= 2 && WhitePair(s[0], s[1]) then 2
    else if |s| >= 3 && WhiteTriple(s[0], s[1], s[2]) then 3
    else 0
  }

  /** The same for the last character. */
  function WhiteLast(s: seq<byte>): (n: nat)
    ensures n <= |s|
  {
    var k := |s|;
    if k >= 1 && White(s[k - 1]) then 1
    else if k >= 2 && WhitePair(s[k - 2], s[k - 1]) then 2
    else if k >= 3 && WhiteTriple(s[k - 3], s[k - 2], s[k - 1]) then 3
    else 0
  }

  function TrimStart(s: seq<byte>): seq<byte>
    decreases |s|
  {
    var n := WhiteFirst(s); if n == 0 then s else TrimStart(s[n..])
  }

  function TrimEnd(s: seq<byte>): seq<byte>
    decreases |s|
  {
    var n := WhiteLast(s); if n == 0 then s else TrimEnd(s[..|s| - n])
  }

  /** strings.TrimSpace */
  function Trim(s: seq<byte>): seq<byte> { TrimEnd(TrimStart(s)) }

  lemma TrimNothing(s: seq<byte>)
    requires WhiteFirst(s) == 0 && WhiteLast(s) == 0
    ensures Trim(s) == s
  {}

  /** Bytes below 0x80 that are no ASCII white space are trimmed from neither end. */
  lemma PlainEnds(s: seq<byte>)
    requires s != [] && s[0] < 0x80 && !White(s[0]) && s[|s| - 1] < 0x80 && !White(s[|s| - 1])
    ensures WhiteFirst(s) == 0 && WhiteLast(s) == 0
  {}

  lemma WhiteFirstLf(s: seq<byte>)
    ensures s != [] ==> WhiteFirst(s + [LF]) == WhiteFirst(s)
    ensures WhiteFirst([LF]) == 1 && WhiteLast(s + [LF]) == 1
  {
    assert forall k | 0 <= k < |s| :: (s + [LF])[k] == s[k];
    assert (s + [LF])[|s|] == LF;
  }

  lemma {:induction false} TrimStartLf(s: seq<byte>)
    ensures TrimStart(s + [LF]) == if TrimStart(s) == [] then [] else TrimStart(s) + [LF]
    decreases |s|
  {
    WhiteFirstLf(s);
    hide WhiteFirst;
    var n := WhiteFirst(s);
    if s == [] {
      assert [] + [LF] == [LF] && [LF][1..] == [];
    } else if n > 0 {
      TrimStartLf(s[n..]);
      assert (s + [LF])[n..] == s[n..] + [LF];
    }
  }

  lemma TrimLf(s: seq<byte>)
    ensures Trim(s + [LF]) == Trim(s)
  {
    TrimStartLf(s);
    var t := TrimStart(s);
    WhiteFirstLf(t);
    assert (t + [LF])[..|t|] == t;
  }

  /** What is left has no white space at either end. */
  lemma {:induction false} TrimEndIsTrimmed(s: seq<byte>)
    requires WhiteFirst(s) == 0
    ensures TrimEnd(s) <= s && WhiteFirst(TrimEnd(s)) == 0 && WhiteLast(TrimEnd(s)) == 0
    decreases |s|
  {
    if WhiteLast(s) > 0 { TrimEndIsTrimmed(s[..|s| - WhiteLast(s)]); }
  }

  lemma {:induction false} TrimStartIsTrimmed(s: seq<byte>)
    ensures WhiteFirst(TrimStart(s)) == 0
    decreases |s|
  {
    hide WhiteFirst;
    if WhiteFirst(s) > 0 { TrimStartIsTrimmed(s[WhiteFirst(s)..]); }
  }

  lemma TrimIsTrimmed(s: seq<byte>)
    ensures WhiteFirst(Trim(s)) == 0 && WhiteLast(Trim(s)) == 0 && Trim(Trim(s)) == Trim(s)
  {
    hide WhiteFirst, WhiteLast;
    TrimStartIsTrimmed(s);
    TrimEndIsTrimmed(TrimStart(s));
    TrimNothing(Trim(s));
  }

  /** bytes.TrimRight(s, "\r\n") */
  function TrimCrLf(s: seq<byte>): (r: seq<byte>)
    ensures r <= s
    decreases |s|
  {
    if s != [] && (s[|s| - 1] == CR || s[|s| - 1] == LF) then TrimCrLf(s[..|s| - 1]) else s
  }

  // --- numbers -----------------------------------------------------------------------------------

  const DIGITS: seq<byte> := [48, 49, 50, 51, 52, 53, 54, 55, 56, 57, 97, 98, 99, 100, 101, 102]

  /** What a character counts as a digit; 36 and more for no digit in any base. */
  function DigitValue(b: byte): nat {
    if 48 <= b <= 57 then b as nat - 48
    else if 97 <= b <= 122 then b as nat - 87
    else if 65 <= b <= 90 then b as nat - 55
    else 99
  }

  lemma DigitRoundTrip(d: nat)
    requires d < 16
    ensures DigitValue(DIGITS[d]) == d && IsDigits(DIGITS)
  {
    assert d == 0 || d == 1 || d == 2 || d == 3 || d == 4 || d == 5 || d == 6 || d == 7
        || d == 8 || d == 9 || d == 10 || d == 11 || d == 12 || d == 13 || d == 14 || d == 15;
  }

  /** A parsed number; on a range error the value is the nearest one, as strconv returns it. */
  datatype Num = Num(value: int, err: bool)

  /** strconv.ParseUint from the digits left when `acc` has been read. */
  function ParseDigits(s: seq<byte>, base: nat, max: nat, acc: nat): Num {
    if s == [] then Num(acc, false)
    else if DigitValue(s[0]) >= base then Num(0, true)
    else if acc * base + DigitValue(s[0]) > max then Num(max, true)
    else ParseDigits(s[1..], base, max, acc * base + DigitValue(s[0]))
  }

  const MAX_UINT32 := 0xFFFF_FFFF
  const MAX_INT64 := 0x7FFF_FFFF_FFFF_FFFF

  /** strconv.ParseUint(s, 16, 32) */
  function ParseHex32(s: seq<byte>): Num { if s == [] then Num(0, true) else ParseDigits(s, 16, MAX_UINT32, 0) }

  /** strconv.ParseInt(s, 10, 64) and Atoi */
  function ParseInt(s: seq<byte>): Num {
    var neg := s != [] && s[0] == 45;
    var t := if s != [] && (s[0] == 43 || s[0] == 45) then s[1..] else s;
    if t == [] then Num(0, true)
    else
      var u := ParseDigits(t, 10, 2 * MAX_INT64 + 1, 0);
      if u.err && u.value == 0 then Num(0, true)
      else if !neg && u.value > MAX_INT64 then Num(MAX_INT64, true)
      else if neg && u.value > MAX_INT64 + 1 then Num(-MAX_INT64 - 1, true)
      else Num(if neg then -u.value else u.value, u.err)
  }

  /** "%d" of a natural number */
  function Decimal(n: nat): seq<byte> { if n < 10 then [DIGITS[n]] else Decimal(n / 10) + [DIGITS[n % 10]] }

  /** The last k digits in base 16; for k = 8 and n below 2^32 this is "%08x". */
  function Hex(n: nat, k: nat): seq<byte>
    decreases k
  {
    if k == 0 then [] else Hex(n / 16, k - 1) + [DIGITS[n % 16]]
  }

  predicate IsDigits(s: seq<byte>) { forall k | 0 <= k < |s| :: 48 <= s[k] <= 57 || 97 <= s[k] <= 102 }

  /** Reading one more digit. */
  lemma ParseDigit(d: nat, rest: seq<byte>, base: nat, max: nat, acc: nat)
    requires d < base <= 16 && acc * base + d <= max
    ensures ParseDigits([DIGITS[d]] + rest, base, max, acc) == ParseDigits(rest, base, max, acc * base + d)
  {
    DigitRoundTrip(d);
    hide DigitValue;
    assert ([DIGITS[d]] + rest)[1..] == rest;
  }

  lemma {:induction false} DecimalParses(n: nat, max: nat, rest: seq<byte>)
    requires n <= max
    ensures ParseDigits(Decimal(n) + rest, 10, max, 0) == ParseDigits(rest, 10, max, n)
    decreases n
  {
    hide ParseDigits;
    var d := [DIGITS[n % 10]];
    assert n / 10 * 10 + n % 10 == n;
    ParseDigit(n % 10, rest, 10, max, n / 10);
    if n >= 10 {
      DecimalParses(n / 10, max, d + rest);
      assert Decimal(n) + rest == Decimal(n / 10) + (d + rest);
    }
  }

  lemma {:induction false} DecimalIsDigits(n: nat)
    ensures Decimal(n) != [] && IsDigits(Decimal(n)) && 48 <= Decimal(n)[0] <= 57
  {
    DigitRoundTrip(0);
    if n >= 10 { DecimalIsDigits(n / 10); }
  }

  lemma ParseIntDecimal(n: nat)
    requires n <= MAX_INT64
    ensures ParseInt(Decimal(n)) == Num(n, false)
  {
    DecimalParses(n, 2 * MAX_INT64 + 1, []);
    DecimalIsDigits(n);
    assert Decimal(n) + [] == Decimal(n);
    assert ParseDigits([], 10, 2 * MAX_INT64 + 1, n) == Num(n, false);
    hide ParseDigits, Decimal;
  }

  function Pow16(k: nat): nat { if k == 0 then 1 else 16 * Pow16(k - 1) }

  lemma {:induction false} HexParses(n: nat, k: nat, max: nat, rest: seq<byte>)
    requires n < Pow16(k) && n <= max
    ensures ParseDigits(Hex(n, k) + rest, 16, max, 0) == ParseDigits(rest, 16, max, n)
    ensures |Hex(n, k)| == k && IsDigits(Hex(n, k))
    decreases k
  {
    hide ParseDigits;
    DigitRoundTrip(0);
    if k == 0 {
      assert [] + rest == rest;
    } else {
      var d := [DIGITS[n % 16]];
      assert n / 16 * 16 + n % 16 == n;
      ParseDigit(n % 16, rest, 16, max, n / 16);
      HexParses(n / 16, k - 1, max, d + rest);
      assert Hex(n, k) + rest == Hex(n / 16, k - 1) + (d + rest);
    }
  }

  lemma ParseHex8(n: nat)
    requires n <= MAX_UINT32
    ensures ParseHex32(Hex(n, 8)) == Num(n, false) && IsDigits(Hex(n, 8)) && |Hex(n, 8)| == 8
  {
    assert Pow16(4) == 0x1_0000;
    assert Pow16(8) == 0x1_0000_0000;
    HexParses(n, 8, MAX_UINT32, []);
    assert Hex(n, 8) + [] == Hex(n, 8);
  }

  // --- numbers as they may be written ---------------------------------------------------------------

  const UPPER_DIGITS: seq<byte> := [48, 49, 50, 51, 52, 53, 54, 55, 56, 57, 65, 66, 67, 68, 69, 70]

  /** The character is the digit `d`, by its place in one of the two alphabets. */
  predicate Means(b: byte, d: nat) { d < 16 && (b == DIGITS[d] || b == UPPER_DIGITS[d]) }

  predicate AllMean(s: seq<byte>, ds: seq<nat>, base: nat) {
    |s| == |ds| && forall k | 0 <= k < |s| :: ds[k] < base && Means(s[k], ds[k])
  }

  /** The number with these digits. */
  function Value(ds: seq<nat>, base: nat): nat {
    if ds == [] then 0 else Value(ds[..|ds| - 1], base) * base + ds[|ds| - 1]
  }

  lemma MeansDigit(b: byte, d: nat)
    requires Means(b, d)
    ensures DigitValue(b) == d
  {
    assert d == 0 || d == 1 || d == 2 || d == 3 || d == 4 || d == 5 || d == 6 || d == 7
        || d == 8 || d == 9 || d == 10 || d == 11 || d == 12 || d == 13 || d == 14 || d == 15;
  }

  lemma {:induction false} PrefixValue(ds: seq<nat>, n: nat, base: nat)
    requires n <= |ds| && base >= 1
    ensures Value(ds[..n], base) <= Value(ds, base)
    decreases |ds|
  {
    if n < |ds| {
      var front := ds[..|ds| - 1];
      PrefixValue(front, n, base);
      assert front[..n] == ds[..n];
      NotLess(Value(front, base), base);
    } else {
      assert ds[..n] == ds;
    }
  }

  lemma ValueNext(ds: seq<nat>, n: nat, base: nat)
    requires n < |ds|
    ensures Value(ds[..n + 1], base) == Value(ds[..n], base) * base + ds[n]
  {
    assert ds[..n + 1][..n] == ds[..n];
  }

  lemma NotLess(v: nat, base: nat)
    requires base >= 1
    ensures v * base >= v
  {}

  /** Reading the rest of a number: its value, or the largest number with an error. */
  lemma {:induction false} ParsesOn(s: seq<byte>, ds: seq<nat>, n: nat, base: nat, max: nat)
    requires AllMean(s, ds, base) && 1 <= base <= 16 && n <= |s| && Value(ds[..n], base) <= max
    ensures ParseDigits(s[n..], base, max, Value(ds[..n], base)) ==
            if Value(ds, base) <= max then Num(Value(ds, base), false) else Num(max, true)
    decreases |s| - n
  {
    if n == |s| {
      assert ds[..n] == ds && s[n..] == [];
    } else {
      MeansDigit(s[n], ds[n]);
      ValueNext(ds, n, base);
      hide DigitValue, Means, Value;
      assert s[n..][0] == s[n] && s[n..][1..] == s[n + 1..];
      if Value(ds[..n + 1], base) <= max {
        ParsesOn(s, ds, n + 1, base, max);
      } else {
        PrefixValue(ds, n + 1, base);
      }
    }
  }

  lemma Parses(s: seq<byte>, ds: seq<nat>, base: nat, max: nat)
    requires AllMean(s, ds, base) && 1 <= base <= 16
    ensures ParseDigits(s, base, max, 0) ==
            if Value(ds, base) <= max then Num(Value(ds, base), false) else Num(max, true)
  {
    ParsesOn(s, ds, 0, base, max);
    assert s[0..] == s && ds[..0] == [];
  }

  /** MAIN: a word of hexadecimal digits, small or capital, parses to its value, or to the largest
      uint32 with an error. */
  lemma ParseHexWord(s: seq<byte>, ds: seq<nat>)
    requires s != [] && AllMean(s, ds, 16)
    ensures ParseHex32(s) ==
            if Value(ds, 16) <= MAX_UINT32 then Num(Value(ds, 16), false) else Num(MAX_UINT32, true)
  {
    Parses(s, ds, 16, MAX_UINT32);
  }

  /** Eight digits or less always fit. */
  lemma {:induction false} HexFits(ds: seq<nat>)
    requires forall k | 0 <= k < |ds| :: ds[k] < 16
    ensures Value(ds, 16) < Pow16(|ds|)
    decreases |ds|
  {
    if ds != [] { HexFits(ds[..|ds| - 1]); }
  }

  function Signed(sign: seq<byte>, v: nat): int { if sign == [45] then 0 - v else v }

  /** ... and so does a word of decimal digits, with or without a sign. */
  lemma ParseIntWord(sign: seq<byte>, s: seq<byte>, ds: seq<nat>)
    requires (sign == [] || sign == [43] || sign == [45]) && s != [] && AllMean(s, ds, 10)
    ensures var (v, n) := (Signed(sign, Value(ds, 10)), ParseInt(sign + s));
            && (-MAX_INT64 - 1 <= v <= MAX_INT64 ==> n == Num(v, false))
            && (v > MAX_INT64 ==> n == Num(MAX_INT64, true))
            && (v < -MAX_INT64 - 1 ==> n == Num(-MAX_INT64 - 1, true))
  {
    Parses(s, ds, 10, 2 * MAX_INT64 + 1);
    NoSign(s[0], ds[0]);
    var all := sign + s;
    if sign != [] { assert all[1..] == s && all[0] == sign[0]; } else { assert all == s; }
    hide ParseDigits, Value, Means;
  }

  lemma NoSign(b: byte, d: nat)
    requires Means(b, d) && d < 10
    ensures b != 43 && b != 45
  {
    MeansDigit(b, d);
  }

  /** A character that is no digit in the base is an error, unless the number is out of range before. */
  lemma {:induction false} NoDigit(s: seq<byte>, ds: seq<nat>, b: byte, rest: seq<byte>, base: nat, max: nat, acc: nat)
    requires |s| == |ds| && (forall k | 0 <= k < |s| :: DigitValue(s[k]) == ds[k] < base) && DigitValue(b) >= base
    ensures var n := ParseDigits(s + [b] + rest, base, max, acc); n == Num(0, true) || n == Num(max, true)
    decreases |s|
  {
    hide DigitValue;
    var all := s + [b] + rest;
    if s == [] {
      assert all[0] == b;
    } else {
      assert all[0] == s[0] && all[1..] == s[1..] + [b] + rest;
      NoDigit(s[1..], ds[1..], b, rest, base, max, acc * base + ds[0]);
    }
  }

  function UpperByte(b: byte): byte { if 97 <= b <= 122 then b - 32 else b }

  function UpperCase(s: seq<byte>): (r: seq<byte>)
    ensures |r| == |s|
  {
    seq(|s|, k requires 0 <= k < |s| => UpperByte(s[k]))
  }

  lemma UpperDigit(b: byte)
    ensures DigitValue(UpperByte(b)) == DigitValue(b)
  {
    if 97 <= b <= 122 { assert (b - 32) as nat == b as nat - 32; }
  }

  /** Capital digits are read as small ones. */
  lemma {:induction false} UpperParses(s: seq<byte>, base: nat, max: nat, acc: nat)
    ensures ParseDigits(UpperCase(s), base, max, acc) == ParseDigits(s, base, max, acc)
    decreases |s|
  {
    hide DigitValue, UpperByte;
    if s != [] {
      UpperDigit(s[0]);
      assert UpperCase(s)[0] == UpperByte(s[0]) && UpperCase(s)[1..] == UpperCase(s[1..]);
      if DigitValue(s[0]) < base { UpperParses(s[1..], base, max, acc * base + DigitValue(s[0])); }
    }
  }
}
