/**
 Opaque pagination cursors: a JSON array of two strings, written in base64url
 without padding. Python strings are sequences of code points, which may
 include unpaired surrogates; the JSON writer escapes everything outside
 printable ASCII, the reader joins escaped surrogate pairs.
 */
module Cursor {
  import opened Prelude

  type CodePoint = c: int | 0 <= c < 0x110000
  type Text = seq<CodePoint>
  type Byte = b: int | 0 <= b < 0x100
  type Sextet = d: int | 0 <= d < 0x40

  // ---------------------------------------------------------------- base64url

  const PAD: CodePoint := '=' as int

  function Symbol(d: Sextet): (r: CodePoint) {
    if d < 26 then 'A' as int + d
    else if d < 52 then 'a' as int + d - 26
    else if d < 62 then '0' as int + d - 52
    else if d == 62 then '-' as int else '_' as int
  }

  /** The decoder takes both the url-safe and the ordinary pair of symbols. */
  function Value(c: CodePoint): (r: Option<Sextet>) {
    if 'A' as int <= c <= 'Z' as int then Some(c - 'A' as int)
    else if 'a' as int <= c <= 'z' as int then Some(c - 'a' as int + 26)
    else if '0' as int <= c <= '9' as int then Some(c - '0' as int + 52)
    else if c == '-' as int || c == '+' as int then Some(62)
    else if c == '_' as int || c == '/' as int then Some(63)
    else None
  }

  lemma SymbolValue(d: Sextet)
    ensures Value(Symbol(d)) == Some(d) && Symbol(d) != PAD && Symbol(d) < 0x80
  {
  }

  /** ASCII with no pad in it. */
  predicate Plain(t: Text) {
    forall i :: 0 <= i < |t| ==> t[i] < 0x80 && t[i] != PAD
  }

  lemma PlainSymbols(a: Sextet, b: Sextet, c: Sextet, d: Sextet)
    ensures Plain([Symbol(a), Symbol(b), Symbol(c), Symbol(d)])
  {
    SymbolValue(a);
    SymbolValue(b);
    SymbolValue(c);
    SymbolValue(d);
  }

  /** Three bytes as four symbols. */
  function Quad(a: Byte, b: Byte, c: Byte): (t: Text)
    ensures |t| == 4 && Plain(t)
  {
    PlainSymbols(a / 4, a % 4 * 16 + b / 16, b % 16 * 4 + c / 64, c % 64);
    [Symbol(a / 4), Symbol(a % 4 * 16 + b / 16), Symbol(b % 16 * 4 + c / 64), Symbol(c % 64)]
  }

  /** The symbols of the last one or two bytes: `size + 1` of them carry bits, the rest is padding. */
  function LastQuad(p: seq<Byte>): (t: Text)
    requires 1 <= |p| <= 2
    ensures |t| == |p| + 1 && Plain(t)
  {
    if |p| == 1 then
      PlainSymbols(p[0] / 4, p[0] % 4 * 16, 0, 0);
      [Symbol(p[0] / 4), Symbol(p[0] % 4 * 16)]
    else
      PlainSymbols(p[0] / 4, p[0] % 4 * 16 + p[1] / 16, p[1] % 16 * 4, 0);
      [Symbol(p[0] / 4), Symbol(p[0] % 4 * 16 + p[1] / 16), Symbol(p[1] % 16 * 4)]
  }

  /** Base64 with padding. */
  function Encode64(p: seq<Byte>): (r: Text) {
    if |p| == 0 then []
    else if |p| < 3 then LastQuad(p) + Pads(3 - |p|)
    else Quad(p[0], p[1], p[2]) + Encode64(p[3..])
  }

  function StripPads(t: Text): (r: Text) {
    if |t| > 0 && t[|t| - 1] == PAD then StripPads(t[..|t| - 1]) else t
  }

  /** The bits still waiting for the rest of their byte. */
  predicate Carry(pos: int, left: int) {
    || (pos == 0 && left == 0)
    || (pos == 1 && 0 <= left < 64)
    || (pos == 2 && 0 <= left < 16)
    || (pos == 3 && 0 <= left < 4)
  }

  /**
   The lenient decoder: symbols outside the alphabet are skipped, a pad that
   completes a quad ends the input, and input ending inside a quad is an error.
   */
  function Unpack(t: Text, pos: int, left: int, pads: nat): (r: Option<seq<Byte>>)
    requires Carry(pos, left)
    decreases |t|
  {
    if |t| == 0 then if pos == 0 then Some([]) else None
    else if t[0] == PAD then
      if pos >= 2 && pos + pads + 1 >= 4 then Some([])
      else Unpack(t[1..], pos, left, if pos >= 2 then pads + 1 else pads)
    else match Value(t[0])
      case None => Unpack(t[1..], pos, left, pads)
      case Some(d) =>
        if pos == 0 then Unpack(t[1..], 1, d, 0)
        else if pos == 1 then Prepend(left * 4 + d / 16, Unpack(t[1..], 2, d % 16, 0))
        else if pos == 2 then Prepend(left * 16 + d / 4, Unpack(t[1..], 3, d % 4, 0))
        else Prepend(left * 64 + d, Unpack(t[1..], 0, 0, 0))
  }

  function Prepend(b: Byte, rest: Option<seq<Byte>>): (r: Option<seq<Byte>>) {
    match rest case None => None case Some(bytes) => Some([b] + bytes)
  }

  function Pads(n: nat): (r: Text) {
    seq(n, _ => PAD)
  }

  /** The padding the decoder puts back: `-n % 4` with Python's remainder. */
  function PadsFor(n: nat): (r: nat) {
    (4 - n % 4) % 4
  }

  function Decode64(cursor: Text): (r: Option<seq<Byte>>) {
    if exists i :: 0 <= i < |cursor| && cursor[i] >= 0x80 then None
    else Unpack(cursor + Pads(PadsFor(|cursor|)), 0, 0, 0)
  }

  lemma UnpackSymbol(d: Sextet, t: Text, pos: int, left: int)
    requires Carry(pos, left)
    ensures var u := [Symbol(d)] + t;
            Unpack(u, pos, left, 0) ==
            if pos == 0 then Unpack(t, 1, d, 0)
            else if pos == 1 then Prepend(left * 4 + d / 16, Unpack(t, 2, d % 16, 0))
            else if pos == 2 then Prepend(left * 16 + d / 4, Unpack(t, 3, d % 4, 0))
            else Prepend(left * 64 + d, Unpack(t, 0, 0, 0))
  {
    SymbolValue(d);
    assert ([Symbol(d)] + t)[1..] == t;
  }

  /** What is left of the encoding once its padding is stripped. */
  function Unpadded(p: seq<Byte>): (t: Text)
    ensures |t| >= |p| && Plain(t)
  {
    if |p| == 0 then []
    else if |p| < 3 then LastQuad(p)
    else Quad(p[0], p[1], p[2]) + Unpadded(p[3..])
  }

  lemma StripPadsOff(t: Text, n: nat)
    requires |t| > 0 ==> t[|t| - 1] != PAD
    ensures StripPads(t + Pads(n)) == t
    decreases n
  {
    if n == 0 {
      assert t + Pads(0) == t;
    } else {
      assert (t + Pads(n))[..|t| + n - 1] == t + Pads(n - 1);
      StripPadsOff(t, n - 1);
    }
  }

  /** How many bytes the last group of three lacks. */
  function Missing(n: nat): (r: nat) {
    (3 - n % 3) % 3
  }

  lemma MissingPeriodic(n: nat)
    ensures Missing(n + 3) == Missing(n)
  {
    assert (n + 3) % 3 == n % 3;
  }

  lemma {:induction false} EncodeIsPadded(p: seq<Byte>)
    ensures Encode64(p) == Unpadded(p) + Pads(Missing(|p|))
  {
    if |p| >= 3 {
      var q := p[3..];
      EncodeIsPadded(q);
      MissingPeriodic(|q|);
      AppendAssociates(Quad(p[0], p[1], p[2]), Unpadded(q), Pads(Missing(|q|)));
    }
  }

  /** Four more symbols for three more bytes. */
  lemma PadsStep(symbols: nat, bytes: nat)
    requires PadsFor(symbols) == Missing(bytes)
    ensures PadsFor(symbols + 4) == Missing(bytes + 3)
  {
    assert (symbols + 4) % 4 == symbols % 4;
    MissingPeriodic(bytes);
  }

  lemma UnpaddedLonger(p: seq<Byte>)
    requires |p| >= 3
    ensures |Unpadded(p)| == |Unpadded(p[3..])| + 4 && |p| == |p[3..]| + 3
  {
  }

  /** The padding follows from the length of the stripped text. */
  lemma {:induction false} PadsRestored(p: seq<Byte>)
    ensures PadsFor(|Unpadded(p)|) == Missing(|p|)
  {
    if |p| >= 3 {
      var q := p[3..];
      PadsRestored(q);
      UnpaddedLonger(p);
      PadsStep(|Unpadded(q)|, |q|);
    }
  }

  lemma AppendAssociates(a: Text, b: Text, c: Text)
    ensures (a + b) + c == a + (b + c)
  {
  }

  lemma StripEncoded(p: seq<Byte>)
    ensures StripPads(Encode64(p)) == Unpadded(p)
  {
    EncodeIsPadded(p);
    StripPadsOff(Unpadded(p), Missing(|p|));
  }

  lemma Carries(a: Byte, high: int, size: int)
    requires size == 16 || size == 4
    requires 0 <= high < size
    ensures var d := a % (64 / size) * size + high;
            d / size == a % (64 / size) && d % size == high && 0 <= d < 64
  {
  }

  /** The first two symbols give a byte and leave four bits. */
  lemma UnpackFirst(a: Byte, high: int, t: Text)
    requires 0 <= high < 16
    ensures Unpack([Symbol(a / 4)] + ([Symbol(a % 4 * 16 + high)] + t), 0, 0, 0)
         == Prepend(a, Unpack(t, 2, high, 0))
  {
    Carries(a, high, 16);
    assert a / 4 * 4 + a % 4 == a;
    UnpackSymbol(a / 4, [Symbol(a % 4 * 16 + high)] + t, 0, 0);
    UnpackSymbol(a % 4 * 16 + high, t, 1, a / 4);
  }

  lemma Rejoined(b: Byte, high: int)
    requires 0 <= high < 4
    ensures b / 16 * 16 + (b % 16 * 4 + high) / 4 == b
  {
    assert (b % 16 * 4 + high) / 4 == b % 16;
  }

  lemma UnpackSecond(b: Byte, high: int, t: Text)
    requires 0 <= high < 4
    ensures Unpack([Symbol(b % 16 * 4 + high)] + t, 2, b / 16, 0) == Prepend(b, Unpack(t, 3, high, 0))
  {
    Carries(b, high, 4);
    Rejoined(b, high);
    UnpackSymbol(b % 16 * 4 + high, t, 2, b / 16);
  }

  lemma UnpackThird(c: Byte, t: Text)
    ensures Unpack([Symbol(c % 64)] + t, 3, c / 64, 0) == Prepend(c, Unpack(t, 0, 0, 0))
  {
    UnpackSymbol(c % 64, t, 3, c / 64);
  }

  lemma Nested(a: CodePoint, b: CodePoint, c: CodePoint, d: CodePoint, t: Text)
    ensures [a, b, c, d] + t == [a] + ([b] + ([c] + ([d] + t)))
  {
  }

  lemma UnpackQuad(a: Byte, b: Byte, c: Byte, t: Text)
    ensures Unpack(Quad(a, b, c) + t, 0, 0, 0)
         == Prepend(a, Prepend(b, Prepend(c, Unpack(t, 0, 0, 0))))
  {
    var t3 := [Symbol(c % 64)] + t;
    var t2 := [Symbol(b % 16 * 4 + c / 64)] + t3;
    UnpackFirst(a, b / 16, t2);
    UnpackSecond(b, c / 64, t3);
    UnpackThird(c, t);
    Nested(Symbol(a / 4), Symbol(a % 4 * 16 + b / 16), Symbol(b % 16 * 4 + c / 64), Symbol(c % 64), t);
  }

  lemma PrependLast(b: Byte)
    ensures Prepend(b, Some([])) == Some([b])
  {
    assert [b] + [] == [b];
  }

  lemma UnpackLastOne(a: Byte)
    ensures Unpack(LastQuad([a]) + Pads(2), 0, 0, 0) == Some([a])
  {
    UnpackFirst(a, 0, Pads(2));
    PrependLast(a);
    assert Pads(2)[1..] == Pads(1);
    assert Unpack(Pads(2), 2, 0, 0) == Unpack(Pads(1), 2, 0, 1) == Some([]);
    assert LastQuad([a]) + Pads(2) == [Symbol(a / 4)] + ([Symbol(a % 4 * 16)] + Pads(2));
  }

  lemma UnpackLastTwo(a: Byte, b: Byte)
    ensures Unpack(LastQuad([a, b]) + Pads(1), 0, 0, 0) == Some([a, b])
  {
    var t2 := [Symbol(b % 16 * 4)] + Pads(1);
    UnpackFirst(a, b / 16, t2);
    UnpackSecond(b, 0, Pads(1));
    PrependLast(b);
    assert Unpack(Pads(1), 3, 0, 0) == Some([]);
    assert Unpack(t2, 2, b / 16, 0) == Some([b]);
    assert LastQuad([a, b]) + Pads(1) == [Symbol(a / 4)] + ([Symbol(a % 4 * 16 + b / 16)] + t2);
    assert [a] + [b] == [a, b];
  }

  lemma PrependThree(a: Byte, b: Byte, c: Byte, rest: seq<Byte>)
    ensures Prepend(a, Prepend(b, Prepend(c, Some(rest)))) == Some([a, b, c] + rest)
  {
    assert [a, b, c] + rest == [a] + ([b] + ([c] + rest));
  }

  lemma UnpackThree(a: Byte, b: Byte, c: Byte, t: Text, rest: seq<Byte>)
    requires Unpack(t, 0, 0, 0) == Some(rest)
    ensures Unpack(Quad(a, b, c) + t, 0, 0, 0) == Some([a, b, c] + rest)
  {
    UnpackQuad(a, b, c, t);
    PrependThree(a, b, c, rest);
  }

  /** The lenient decoder reads back every padded encoding. */
  lemma {:induction false} UnpackEncoded(p: seq<Byte>)
    ensures Unpack(Encode64(p), 0, 0, 0) == Some(p)
  {
    if |p| == 1 {
      UnpackLastOne(p[0]);
      assert p == [p[0]];
    } else if |p| == 2 {
      UnpackLastTwo(p[0], p[1]);
      assert p == [p[0], p[1]];
    } else if |p| > 2 {
      UnpackEncoded(p[3..]);
      UnpackThree(p[0], p[1], p[2], Encode64(p[3..]), p[3..]);
      assert p == [p[0], p[1], p[2]] + p[3..];
    }
  }

  /** Stripping the padding loses nothing: the decoder restores it from the length alone. */
  lemma Base64RoundTrip(p: seq<Byte>)
    ensures Decode64(StripPads(Encode64(p))) == Some(p)
  {
    StripEncoded(p);
    EncodeIsPadded(p);
    PadsRestored(p);
    UnpackEncoded(p);
  }

  // ---------------------------------------------------------------- JSON

  const QUOTE: Byte := '\"' as int
  const SLASH: Byte := '\\' as int

  predicate High(c: int) { 0xD800 <= c < 0xDC00 }
  predicate Low(c: int) { 0xDC00 <= c < 0xE000 }

  function HighHalf(c: CodePoint): (r: CodePoint)
    requires c >= 0x10000
  {
    0xD800 + (c - 0x10000) / 0x400
  }

  function LowHalf(c: CodePoint): (r: CodePoint)
    requires c >= 0x10000
  {
    0xDC00 + (c - 0x10000) % 0x400
  }

  function Join(high: CodePoint, low: CodePoint): (r: CodePoint)
    requires High(high) && Low(low)
  {
    0x10000 + (high - 0xD800) * 0x400 + (low - 0xDC00)
  }

  function HexDigit(d: int): (r: Byte)
    requires 0 <= d < 16
  {
    if d < 10 then '0' as int + d else 'a' as int + d - 10
  }

  function HexValue(c: Byte): (r: Option<int>) {
    if '0' as int <= c <= '9' as int then Some(c - '0' as int)
    else if 'a' as int <= c <= 'f' as int then Some(c - 'a' as int + 10)
    else if 'A' as int <= c <= 'F' as int then Some(c - 'A' as int + 10)
    else None
  }

  /** A `\uXXXX` escape. */
  function Unicode(n: int): (t: seq<Byte>)
    requires 0 <= n < 0x10000
    ensures |t| == 6
  {
    [SLASH, 'u' as int, HexDigit(n / 16 / 16 / 16), HexDigit(n / 16 / 16 % 16), HexDigit(n / 16 % 16), HexDigit(n % 16)]
  }

  /** How the writer puts one code point inside a string. */
  function Escape(c: CodePoint): (t: seq<Byte>)
    ensures |t| >= 1
  {
    if c == QUOTE || c == SLASH then [SLASH, c]
    else if 0x20 <= c <= 0x7E then [c]
    else if c == 8 then [SLASH, 'b' as int]
    else if c == 9 then [SLASH, 't' as int]
    else if c == 10 then [SLASH, 'n' as int]
    else if c == 12 then [SLASH, 'f' as int]
    else if c == 13 then [SLASH, 'r' as int]
    else if c < 0x10000 then Unicode(c)
    else Unicode(HighHalf(c)) + Unicode(LowHalf(c))
  }

  function Body(s: Text): (r: seq<Byte>) {
    if |s| == 0 then [] else Escape(s[0]) + Body(s[1..])
  }

  /** One character of a string body: its value and how many bytes it takes. */
  datatype Taken = Taken(c: CodePoint, used: nat)

  function TakeUnicode(t: seq<Byte>): (r: Option<Taken>) {
    if |t| < 6 then None
    else match (HexValue(t[2]), HexValue(t[3]), HexValue(t[4]), HexValue(t[5]))
      case (Some(a), Some(b), Some(c), Some(d)) => Some(Taken(HexNumber(a, b, c, d), 6))
      case _ => None
  }

  function HexNumber(a: int, b: int, c: int, d: int): (n: CodePoint)
    requires 0 <= a < 16 && 0 <= b < 16 && 0 <= c < 16 && 0 <= d < 16
  {
    a * 0x1000 + b * 0x100 + c * 0x10 + d
  }

  function Take(t: seq<Byte>): (r: Option<Taken>)
    ensures r.Some? ==> 1 <= r.value.used <= |t|
  {
    if |t| == 0 || t[0] == QUOTE || t[0] < 0x20 || t[0] >= 0x80 then None
    else if t[0] != SLASH then Some(Taken(t[0], 1))
    else if |t| < 2 then None
    else if t[1] == 'u' as int then TakeUnicode(t)
    else if t[1] == QUOTE || t[1] == SLASH || t[1] == '/' as int then Some(Taken(t[1], 2))
    else if t[1] == 'b' as int then Some(Taken(8, 2))
    else if t[1] == 't' as int then Some(Taken(9, 2))
    else if t[1] == 'n' as int then Some(Taken(10, 2))
    else if t[1] == 'f' as int then Some(Taken(12, 2))
    else if t[1] == 'r' as int then Some(Taken(13, 2))
    else None
  }

  datatype Scanned = Scanned(text: Text, rest: seq<Byte>)

  /** The reader, past the opening quote: an escaped surrogate pair becomes one code point. */
  function Scan(t: seq<Byte>): (r: Option<Scanned>)
    decreases |t|
  {
    if |t| > 0 && t[0] == QUOTE then Some(Scanned([], t[1..]))
    else match Take(t)
      case None => None
      case Some(first) =>
        var u := t[first.used..];
        match Take(u)
        case Some(second) =>
          if High(first.c) && Low(second.c) then Consed(Join(first.c, second.c), Scan(u[second.used..]))
          else Consed(first.c, Scan(u))
        case None => Consed(first.c, Scan(u))
  }

  function Consed(c: CodePoint, tail: Option<Scanned>): (r: Option<Scanned>) {
    match tail case None => None case Some(s) => Some(Scanned([c] + s.text, s.rest))
  }

  /** What a string becomes once its adjacent surrogate halves have been joined. */
  function Joined(s: Text): (r: Text) {
    if |s| == 0 then []
    else if |s| > 1 && High(s[0]) && Low(s[1]) then [Join(s[0], s[1])] + Joined(s[2..])
    else [s[0]] + Joined(s[1..])
  }

  /** A high half directly followed by a low half: no well-formed Unicode string has one. */
  predicate SplitPair(s: Text) {
    exists i :: 0 <= i && i + 1 < |s| && High(s[i]) && Low(s[i + 1])
  }

  lemma TakeHex(n: int, rest: seq<Byte>)
    requires 0 <= n < 0x10000
    ensures Take(Unicode(n) + rest) == Some(Taken(n, 6))
  {
    var t := Unicode(n) + rest;
    assert t[0] == SLASH && t[1] == 'u' as int;
    assert HexValue(t[2]) == Some(n / 16 / 16 / 16);
    assert HexValue(t[3]) == Some(n / 16 / 16 % 16);
    assert HexValue(t[4]) == Some(n / 16 % 16);
    assert HexValue(t[5]) == Some(n % 16);
    Digits(n);
  }

  lemma Digits(n: int)
    requires 0 <= n < 0x10000
    ensures HexNumber(n / 16 / 16 / 16, n / 16 / 16 % 16, n / 16 % 16, n % 16) == n
  {
  }

  /** Reading back the start of an escaped code point. */
  lemma TakeEscaped(c: CodePoint, rest: seq<Byte>)
    ensures Take(Escape(c) + rest)
         == Some(if c < 0x10000 then Taken(c, |Escape(c)|) else Taken(HighHalf(c), 6))
  {
    if c >= 0x10000 {
      TakeHex(HighHalf(c), Unicode(LowHalf(c)) + rest);
      assert Escape(c) + rest == Unicode(HighHalf(c)) + (Unicode(LowHalf(c)) + rest);
    } else if Escape(c) == Unicode(c) {
      TakeHex(c, rest);
    }
  }

  /** An escaped string reads back with its adjacent surrogate halves joined, and nothing past it is touched. */
  lemma {:induction false} ScanBody(s: Text, rest: seq<Byte>)
    ensures Scan(Body(s) + ([QUOTE] + rest)) == Some(Scanned(Joined(s), rest))
    decreases |s|
  {
    var end := [QUOTE] + rest;
    if |s| == 0 {
      assert Body(s) + end == end;
      assert end[1..] == rest;
    } else {
      var u := Body(s[1..]) + end;
      BodyStep(s, end);
      if s[0] >= 0x10000 {
        ScanBody(s[1..], rest);
        ScanAstral(s[0], u);
      } else if High(s[0]) && |s| > 1 && Low(s[1]) {
        var v := Body(s[2..]) + end;
        BodyStep(s[1..], end);
        assert s[1..][1..] == s[2..];
        ScanBody(s[2..], rest);
        EscapeSurrogate(s[0]);
        EscapeSurrogate(s[1]);
        ScanPair(s[0], s[1], v);
      } else {
        ScanBody(s[1..], rest);
        if |s| > 1 {
          BodyStep(s[1..], end);
          TakeEscaped(s[1], Body(s[1..][1..]) + end);
        } else {
          assert u == end;
        }
        ScanSingle(s[0], u);
      }
    }
  }

  lemma BodyStep(s: Text, end: seq<Byte>)
    requires |s| > 0
    ensures Body(s) + end == Escape(s[0]) + (Body(s[1..]) + end)
  {
  }

  lemma EscapeSurrogate(c: CodePoint)
    requires High(c) || Low(c)
    ensures Escape(c) == Unicode(c)
  {
  }

  lemma ScanAstral(c: CodePoint, u: seq<Byte>)
    requires c >= 0x10000
    ensures Scan(Escape(c) + u) == Consed(c, Scan(u))
  {
    var low := Unicode(LowHalf(c));
    assert Escape(c) + u == Unicode(HighHalf(c)) + (low + u);
    ScanPair(HighHalf(c), LowHalf(c), u);
    assert Join(HighHalf(c), LowHalf(c)) == c;
  }

  lemma ScanPair(high: CodePoint, low: CodePoint, u: seq<Byte>)
    requires High(high) && Low(low)
    ensures Scan(Unicode(high) + (Unicode(low) + u)) == Consed(Join(high, low), Scan(u))
  {
    var v := Unicode(low) + u;
    var t := Unicode(high) + v;
    TakeHex(high, v);
    TakeHex(low, u);
    assert t[0] == SLASH && t[6..] == v && v[6..] == u;
  }

  /** A code point that starts no pair with what follows is read on its own. */
  lemma ScanSingle(c: CodePoint, u: seq<Byte>)
    requires c < 0x10000
    requires High(c) && Take(u).Some? ==> !Low(Take(u).value.c)
    ensures Scan(Escape(c) + u) == Consed(c, Scan(u))
  {
    TakeEscaped(c, u);
    var t := Escape(c) + u;
    assert t[|Escape(c)|..] == u;
    assert t[0] == Escape(c)[0] != QUOTE;
  }

  /** Joining changes a string exactly when it has a split pair. */
  lemma {:induction false} JoinedIdentity(s: Text)
    ensures Joined(s) == s <==> !SplitPair(s)
    ensures |Joined(s)| <= |s|
    decreases |s|
  {
    if |s| == 0 {
    } else if |s| > 1 && High(s[0]) && Low(s[1]) {
      JoinedIdentity(s[2..]);
    } else {
      var t := s[1..];
      JoinedIdentity(t);
      assert s == [s[0]] + t;
      assert Joined(s)[1..] == Joined(t);
      SplitPairTail(s);
    }
  }

  lemma SplitPairTail(s: Text)
    requires |s| > 0
    requires !(|s| > 1 && High(s[0]) && Low(s[1]))
    ensures SplitPair(s) <==> SplitPair(s[1..])
  {
    var t := s[1..];
    if SplitPair(s) {
      var i :| 0 <= i && i + 1 < |s| && High(s[i]) && Low(s[i + 1]);
      assert High(t[i - 1]) && Low(t[i - 1 + 1]);
    }
    if SplitPair(t) {
      var i :| 0 <= i && i + 1 < |t| && High(t[i]) && Low(t[i + 1]);
      assert High(s[i + 1]) && Low(s[i + 1 + 1]);
    }
  }

  // ---------------------------------------------------------------- the two-element array

  const OPEN: Byte := '[' as int
  const CLOSE: Byte := ']' as int
  const COMMA: Byte := ',' as int

  function Quoted(s: Text): (r: seq<Byte>) {
    [QUOTE] + Body(s) + [QUOTE]
  }

  function Payload(a: Text, b: Text): (r: seq<Byte>) {
    [OPEN] + Quoted(a) + [COMMA] + Quoted(b) + [CLOSE]
  }

  predicate Space(c: Byte) { c == 9 || c == 10 || c == 13 || c == 32 }

  function Trim(t: seq<Byte>): (r: seq<Byte>)
    ensures |r| <= |t|
  {
    if |t| > 0 && Space(t[0]) then Trim(t[1..]) else t
  }

  /** Whitespace, one punctuation byte, whitespace. */
  function Mark(t: seq<Byte>, c: Byte): (r: Option<seq<Byte>>) {
    var u := Trim(t);
    if |u| > 0 && u[0] == c then Some(Trim(u[1..])) else None
  }

  function ScanString(t: seq<Byte>): (r: Option<Scanned>) {
    if |t| > 0 && t[0] == QUOTE then Scan(t[1..]) else None
  }

  /** Only an array of exactly two strings is accepted. */
  function Parse(p: seq<Byte>): (r: Option<(Text, Text)>) {
    match Mark(p, OPEN)
    case None => None
    case Some(t) =>
      match ScanString(t)
      case None => None
      case Some(first) =>
        match Mark(first.rest, COMMA)
        case None => None
        case Some(u) =>
          match ScanString(u)
          case None => None
          case Some(second) =>
            match Mark(second.rest, CLOSE)
            case None => None
            case Some(v) => if |v| == 0 then Some((first.text, second.text)) else None
  }

  lemma MarkAt(c: Byte, t: seq<Byte>)
    requires !Space(c)
    requires |t| > 0 ==> !Space(t[0])
    ensures Mark([c] + t, c) == Some(t)
  {
    assert ([c] + t)[1..] == t;
  }

  lemma ScanQuoted(s: Text, rest: seq<Byte>)
    ensures ScanString(Quoted(s) + rest) == Some(Scanned(Joined(s), rest))
  {
    ScanBody(s, rest);
    assert (Quoted(s) + rest)[1..] == Body(s) + ([QUOTE] + rest);
  }

  lemma ParsePayload(a: Text, b: Text)
    ensures Parse(Payload(a, b)) == Some((Joined(a), Joined(b)))
  {
    var w: seq<Byte> := [CLOSE];
    var v := Quoted(b) + w;
    var u := [COMMA] + v;
    var t := Quoted(a) + u;
    assert Payload(a, b) == [OPEN] + t;
    MarkAt(OPEN, t);
    ScanQuoted(a, u);
    MarkAt(COMMA, v);
    ScanQuoted(b, w);
    MarkAt(CLOSE, []);
    assert [CLOSE] + [] == w;
  }

  // ---------------------------------------------------------------- cursors

  function EncodeCursor(sortKey: Text, id: Text): (r: Text) {
    StripPads(Encode64(Payload(sortKey, id)))
  }

  function DecodeCursor(cursor: Text): (r: Option<(Text, Text)>) {
    match Decode64(cursor)
    case None => None
    case Some(p) => Parse(p)
  }

  /** A cursor decodes to what was encoded, up to the joining of split surrogate pairs. */
  lemma CursorReadsBack(a: Text, b: Text)
    ensures DecodeCursor(EncodeCursor(a, b)) == Some((Joined(a), Joined(b)))
  {
    Base64RoundTrip(Payload(a, b));
    ParsePayload(a, b);
  }

  /** The round trip is exact on precisely the strings without a split pair. */
  lemma CursorRoundTripsIff(a: Text, b: Text)
    ensures DecodeCursor(EncodeCursor(a, b)) == Some((a, b)) <==> !SplitPair(a) && !SplitPair(b)
  {
    CursorReadsBack(a, b);
    JoinedIdentity(a);
    JoinedIdentity(b);
  }

  /** A cursor is never the empty string, which the callers read as "no cursor". */
  lemma CursorNonEmpty(a: Text, b: Text)
    ensures EncodeCursor(a, b) != []
  {
    StripEncoded(Payload(a, b));
  }

  /** A split pair is lost: its two halves come back as one code point. */
  lemma SplitPairLost(s: Text, id: Text)
    requires |s| == 2 && High(s[0]) && Low(s[1])
    ensures DecodeCursor(EncodeCursor(s, id)) == Some(([Join(s[0], s[1])], Joined(id)))
  {
    CursorReadsBack(s, id);
    JoinedPair(s);
  }

  lemma JoinedPair(s: Text)
    requires |s| == 2 && High(s[0]) && Low(s[1])
    ensures Joined(s) == [Join(s[0], s[1])]
  {
    assert s[2..] == [];
  }

  // ---------------------------------------------------------------- the shape of a cursor

  predicate UrlSafe(c: CodePoint) {
    'A' as int <= c <= 'Z' as int || 'a' as int <= c <= 'z' as int || '0' as int <= c <= '9' as int
    || c == '-' as int || c == '_' as int
  }

  predicate AllUrlSafe(t: Text) {
    forall i | 0 <= i < |t| :: UrlSafe(t[i])
  }

  lemma {:induction false} UnpaddedUrlSafe(p: seq<Byte>)
    ensures AllUrlSafe(Unpadded(p))
  {
    if |p| >= 3 {
      UnpaddedUrlSafe(p[3..]);
    }
  }

  /** A cursor can stand in a URL as it is: letters, digits, minus and underscore, and no padding. */
  lemma CursorUrlSafe(sortKey: Text, id: Text)
    ensures AllUrlSafe(EncodeCursor(sortKey, id))
  {
    StripEncoded(Payload(sortKey, id));
    UnpaddedUrlSafe(Payload(sortKey, id));
  }

  /** The first symbols of the alphabet's four stretches, and its last two, as section 5 of RFC 4648 lists them. */
  lemma Alphabet(d: Sextet)
    ensures Symbol(0) == 'A' as int && Symbol(26) == 'a' as int && Symbol(52) == '0' as int
    ensures Symbol(62) == '-' as int && Symbol(63) == '_' as int
    ensures d < 61 && d != 25 && d != 51 ==> Symbol(d + 1) == Symbol(d) + 1
  {
  }

  /** Printable ASCII other than the quotation mark and the backslash stands for itself in the payload. */
  lemma {:induction false} PlainBody(s: Text)
    requires forall i | 0 <= i < |s| :: 0x20 <= s[i] <= 0x7E && s[i] != QUOTE && s[i] != SLASH
    ensures Body(s) == s
  {
    if s != [] {
      PlainBody(s[1..]);
      assert s == [s[0]] + s[1..];
    }
  }

}
