/**
 * `EscapeString` of Common/library/flatbuffers/util.h: text made into a JSON string, read back as
 * section 7 of RFC 8259 says.
 */
module JsonEscape {
  import opened Wrappers
  import opened Utf8

  const QUOTE: Unit := 0x22
  const SLASH: Unit := 0x2F
  const BACKSLASH: Unit := 0x5C
  const LETTER_B: Unit := 0x62
  const LETTER_F: Unit := 0x66
  const LETTER_N: Unit := 0x6E
  const LETTER_R: Unit := 0x72
  const LETTER_T: Unit := 0x74
  const LETTER_U: Unit := 0x75
  const LETTER_X: Unit := 0x78

  // ------------------------------------------------------------- hexadecimal

  function HexDigit(d: Code): Unit
    requires d < 16
  {
    if d < 10 then Low(d) + 0x30 else Low(d) + 0x37
  }

  function HexDigits(u: Code): (r: seq<Unit>)
    ensures r != []
    decreases u
  {
    if u < 16 then [HexDigit(u)] else HexDigits(u >> 4) + [HexDigit(u & 0xF)]
  }

  function Zeros(n: nat): seq<Unit> {
    seq(n, _ => 0x30)
  }

  /** Upper-case digits, filled up with zeros on the left. */
  function IntToStringHex(u: Code, xdigits: nat): seq<Unit> {
    var digits := HexDigits(u);
    if |digits| < xdigits then Zeros(xdigits - |digits|) + digits else digits
  }

  /** The value of a digit of either case. */
  function HexValue(b: Unit): Option<Code> {
    if 0x30 <= b <= 0x39 then Some(Wide(b - 0x30))
    else if 0x41 <= b <= 0x46 then Some(Wide(b - 0x37))
    else if 0x61 <= b <= 0x66 then Some(Wide(b - 0x57))
    else None
  }

  function FourHex(a: Unit, b: Unit, c: Unit, d: Unit): Option<Code> {
    var x :- HexValue(a);
    var y :- HexValue(b);
    var z :- HexValue(c);
    var w :- HexValue(d);
    Some(Assemble(x, y, z, w))
  }

  function Assemble(x: Code, y: Code, z: Code, w: Code): Code {
    (x << 12) | (y << 8) | (z << 4) | w
  }

  function Nibble(u: Code, shift: Code): (d: Code)
    requires shift <= 12
    ensures d < 16
  {
    (u >> shift) & 0xF
  }

  function Digit(u: Code, shift: Code): Unit
    requires shift <= 12
  {
    HexDigit(Nibble(u, shift))
  }

  lemma DigitRead(d: Code)
    requires d < 16
    ensures HexValue(HexDigit(d)) == Some(d) && 0x20 < HexDigit(d) < 0x7E
    ensures HexDigit(d) != QUOTE && HexDigit(d) != BACKSLASH
  {
  }

  lemma DigitShift(u: Code, shift: Code)
    requires shift == 0 || shift == 4 || shift == 8
    ensures Digit(u >> 4, shift) == Digit(u, shift + 4)
    ensures Digit(u, 0) == HexDigit(u & 0xF) && (u < 0x10 ==> Digit(u, 0) == HexDigit(u))
  {
  }

  lemma ShiftBound(u: Code)
    ensures u < 0x1_0000 ==> u >> 4 < 0x1000
    ensures u < 0x1000 <==> u >> 4 < 0x100
    ensures u < 0x100 <==> u >> 4 < 0x10
    ensures u >= 0x10 ==> u >> 4 > 0
    ensures u < 0x10 ==> u >> 4 == 0 && u >> 8 == 0 && u >> 12 == 0
    ensures u < 0x100 ==> u >> 8 == 0 && u >> 12 == 0
    ensures u < 0x1000 ==> u >> 12 == 0
  {
  }

  /** `n` hexadecimal digits of `u`, leading zeros included. */
  function Digits(u: Code, n: nat): seq<Unit>
    requires 1 <= n <= 4
  {
    match n
    case 1 => [Digit(u, 0)]
    case 2 => [Digit(u, 4), Digit(u, 0)]
    case 3 => [Digit(u, 8), Digit(u, 4), Digit(u, 0)]
    case _ => [Digit(u, 12), Digit(u, 8), Digit(u, 4), Digit(u, 0)]
  }

  /** How many digits `u` has. */
  function Count(u: Code): nat {
    if u < 0x10 then 1 else if u < 0x100 then 2 else if u < 0x1000 then 3 else 4
  }

  lemma {:induction false} HexDigitsOf(u: Code)
    requires u < 0x1_0000
    ensures HexDigits(u) == Digits(u, Count(u))
    decreases u
  {
    hide Digit, HexDigit;
    ShiftBound(u);
    DigitShift(u, 0);
    if u >= 0x10 {
      DigitShift(u, 4);
      DigitShift(u, 8);
      HexDigitsOf(u >> 4);
    }
  }

  lemma ZeroDigit(u: Code, shift: Code)
    requires shift <= 12 && u >> shift == 0
    ensures Digit(u, shift) == 0x30
  {
  }

  /** Padding with zeros gives the higher digits, which are zero. */
  lemma FourDigits(u: Code)
    requires u < 0x1_0000
    ensures IntToStringHex(u, 4) == Digits(u, 4)
  {
    hide Digit, HexDigit, HexDigits;
    HexDigitsOf(u);
    ShiftBound(u);
    if u < 0x1000 {
      ZeroDigit(u, 12);
    }
    if u < 0x100 {
      ZeroDigit(u, 8);
    }
    if u < 0x10 {
      ZeroDigit(u, 4);
    }
  }

  lemma TwoDigits(u: Code)
    requires u < 0x100
    ensures IntToStringHex(u, 2) == Digits(u, 2)
  {
    hide Digit, HexDigit, HexDigits;
    HexDigitsOf(u);
    ShiftBound(u);
    if u < 0x10 {
      ZeroDigit(u, 4);
    }
  }

  lemma NibblesJoin(u: Code)
    requires u < 0x1_0000
    ensures Assemble(Nibble(u, 12), Nibble(u, 8), Nibble(u, 4), Nibble(u, 0)) == u
  {
  }

  /** Four digits read back as the number. */
  lemma FourRead(u: Code)
    requires u < 0x1_0000
    ensures FourHex(Digit(u, 12), Digit(u, 8), Digit(u, 4), Digit(u, 0)) == Some(u)
  {
    hide HexDigit, HexValue, Nibble, Assemble;
    NibblesJoin(u);
    DigitRead(Nibble(u, 12));
    DigitRead(Nibble(u, 8));
    DigitRead(Nibble(u, 4));
    DigitRead(Nibble(u, 0));
  }

  // ----------------------------------------------------------------- escaping

  /** What is emitted for the next bytes, and how many of them it stands for. */
  datatype Piece = Piece(text: seq<Unit>, size: nat)

  /** Printable ASCII. */
  predicate Printable(b: Unit) {
    0x20 <= b <= 0x7E
  }

  /** The letter of a two-character escape. */
  function ShortEscape(c: Unit): Option<Unit> {
    if c == 0x0A then Some(LETTER_N)
    else if c == 0x09 then Some(LETTER_T)
    else if c == 0x0D then Some(LETTER_R)
    else if c == 0x08 then Some(LETTER_B)
    else if c == 0x0C then Some(LETTER_F)
    else if c == QUOTE then Some(QUOTE)
    else if c == BACKSLASH then Some(BACKSLASH)
    else None
  }

  function UnicodeEscape(u: Code): seq<Unit> {
    [BACKSLASH, LETTER_U] + IntToStringHex(u, 4)
  }

  function HighSurrogate(base: Code): Code {
    (base >> 10) + 0xD800
  }

  function LowSurrogate(base: Code): Code {
    (base & 0x03FF) + 0xDC00
  }

  /** What a pair of surrogates adds to the first 2^16 codes. */
  function Base(c: Code): Code {
    c - 0x1_0000
  }

  /** One turn of the loop at position `i`; nothing where the text is malformed and that is not allowed. */
  function PieceAt(s: seq<Unit>, i: nat, allowNonUtf8: bool, naturalUtf8: bool): Option<Piece>
    requires i < |s|
  {
    var c := s[i];
    if ShortEscape(c).Some? then Some(Piece([BACKSLASH, ShortEscape(c).value], 1))
    else if Printable(c) then Some(Piece([c], 1))
    else
      match Decode(s, i)
      case None =>
        if allowNonUtf8 then Some(Piece([BACKSLASH, LETTER_X] + IntToStringHex(Wide(c), 2), 1)) else None
      case Some(d) =>
        AcceptedIsShortest(s, i);
        var text :=
          if naturalUtf8 then s[i..i + d.size]
          else if d.code <= 0xFFFF then UnicodeEscape(d.code)
          else if d.code <= 0x10_FFFF then
            UnicodeEscape(HighSurrogate(Base(d.code))) + UnicodeEscape(LowSurrogate(Base(d.code)))
          else [];
        Some(Piece(text, d.size))
  }

  /** The text emitted; when `ok` is false, what was emitted before giving up. */
  datatype Escaped = Escaped(ok: bool, text: seq<Unit>)

  function Body(s: seq<Unit>, i: nat, allowNonUtf8: bool, naturalUtf8: bool): Escaped
    decreases |s| - i
  {
    if i >= |s| then Escaped(true, [QUOTE])
    else
      match PieceAt(s, i, allowNonUtf8, naturalUtf8)
      case None => Escaped(false, [])
      case Some(p) =>
        PieceMoves(s, i, allowNonUtf8, naturalUtf8);
        var rest := Body(s, i + p.size, allowNonUtf8, naturalUtf8);
        Escaped(rest.ok, p.text + rest.text)
  }

  function Escape(s: seq<Unit>, allowNonUtf8: bool, naturalUtf8: bool): Escaped {
    var body := Body(s, 0, allowNonUtf8, naturalUtf8);
    Escaped(body.ok, [QUOTE] + body.text)
  }

  lemma PieceMoves(s: seq<Unit>, i: nat, allowNonUtf8: bool, naturalUtf8: bool)
    requires i < |s| && PieceAt(s, i, allowNonUtf8, naturalUtf8).Some?
    ensures var n := PieceAt(s, i, allowNonUtf8, naturalUtf8).value.size; 1 <= n && i + n <= |s|
  {
    if Decode(s, i).Some? {
      AcceptedIsShortest(s, i);
    }
  }

  // ------------------------------------------------------------------ reading

  /** What follows the backslash, by section 7 of RFC 8259. */
  function ShortMeaning(b: Unit): Option<Unit> {
    if b == QUOTE || b == BACKSLASH || b == SLASH then Some(b)
    else if b == LETTER_B then Some(0x08)
    else if b == LETTER_F then Some(0x0C)
    else if b == LETTER_N then Some(0x0A)
    else if b == LETTER_R then Some(0x0D)
    else if b == LETTER_T then Some(0x09)
    else None
  }

  /** A four-digit escape at position `i`. */
  function UnicodeAt(t: seq<Unit>, i: nat): Option<Code> {
    if i + 6 <= |t| && t[i] == BACKSLASH && t[i + 1] == LETTER_U then FourHex(t[i + 2], t[i + 3], t[i + 4], t[i + 5])
    else None
  }

  predicate IsHigh(c: Code) {
    0xD800 <= c <= 0xDBFF
  }

  predicate IsLow(c: Code) {
    0xDC00 <= c <= 0xDFFF
  }

  /** One character of a JSON string: its UTF-8 form and the bytes it takes. A lone surrogate is refused. */
  function Character(t: seq<Unit>): Option<Piece>
    requires t != []
  {
    if t[0] == BACKSLASH then
      if |t| < 2 then None
      else if t[1] == LETTER_U then
        var c :- UnicodeAt(t, 0);
        if IsHigh(c) then
          var d :- UnicodeAt(t, 6);
          if IsLow(d) then Some(Piece(Encode(Combined(c, d)), 12)) else None
        else if IsLow(c) then None
        else FourHexSmall(t[2], t[3], t[4], t[5]); Some(Piece(Encode(c), 6))
      else
        var c :- ShortMeaning(t[1]);
        Some(Piece([c], 2))
    else if t[0] < 0x20 then None
    else
      var d :- Decode(t, 0);
      AcceptedIsShortest(t, 0);
      Some(Piece(t[..d.size], d.size))
  }

  function Combined(high: Code, low: Code): (c: Code)
    ensures IsHigh(high) && IsLow(low) ==> c < 0x8000_0000
  {
    0x1_0000 + (((high - 0xD800) << 10) | (low - 0xDC00))
  }

  lemma FourHexSmall(a: Unit, b: Unit, c: Unit, d: Unit)
    ensures FourHex(a, b, c, d).Some? ==> FourHex(a, b, c, d).value < 0x8000_0000
  {
  }

  /** The rest of a string, up to the quote that must end the text. */
  function Characters(t: seq<Unit>): Option<seq<Unit>>
    decreases |t|
  {
    if t == [] then None
    else if t[0] == QUOTE then (if |t| == 1 then Some([]) else None)
    else
      var p :- Character(t);
      CharacterMoves(t);
      var rest :- Characters(t[p.size..]);
      Some(p.text + rest)
  }

  function Unescape(t: seq<Unit>): Option<seq<Unit>> {
    if t == [] || t[0] != QUOTE then None else Characters(t[1..])
  }

  lemma CharacterMoves(t: seq<Unit>)
    requires t != [] && Character(t).Some?
    ensures 1 <= Character(t).value.size <= |t|
  {
    if t[0] != BACKSLASH && t[0] >= 0x20 && Decode(t, 0).Some? {
      AcceptedIsShortest(t, 0);
    }
  }

  // ------------------------------------------------------- each piece reads back

  /** A control character that section 7 of RFC 8259 wants escaped and that has no short escape. */
  predicate RawControl(c: Unit) {
    c < 0x20 && ShortEscape(c).None?
  }

  /** The next character is well-formed and is not copied where a string may not hold it. */
  predicate Readable(s: seq<Unit>, i: nat, naturalUtf8: bool)
    requires i < |s|
  {
    Decode(s, i).Some? && !(naturalUtf8 && RawControl(s[i]))
  }

  /** `text` in front of anything reads as the bytes of `s` from `i` on. */
  predicate ReadsAs(text: seq<Unit>, rest: seq<Unit>, bytes: seq<Unit>) {
    text != [] && text[0] != QUOTE && Character(text + rest) == Some(Piece(bytes, |text|))
  }

  lemma AsciiDecodes(s: seq<Unit>, i: nat)
    requires i < |s| && s[i] < 0x80
    ensures Decode(s, i) == Some(Decoded(Wide(s[i]), 1)) && s[i..i + 1] == [s[i]]
  {
  }

  lemma ShortReads(c: Unit, rest: seq<Unit>)
    requires ShortEscape(c).Some?
    ensures ReadsAs([BACKSLASH, ShortEscape(c).value], rest, [c])
  {
    var t := [BACKSLASH, ShortEscape(c).value] + rest;
    assert t[0] == BACKSLASH && t[1] == ShortEscape(c).value;
  }

  lemma PlainReads(c: Unit, rest: seq<Unit>)
    requires Printable(c) && ShortEscape(c).None?
    ensures ReadsAs([c], rest, [c])
  {
    var t := [c] + rest;
    AsciiDecodes(t, 0);
    assert t[..1] == [c];
    hide Decode;
  }

  lemma NaturalReads(s: seq<Unit>, i: nat, rest: seq<Unit>)
    requires i < |s| && Decode(s, i).Some? && ShortEscape(s[i]).None? && !RawControl(s[i])
    ensures var n := Decode(s, i).value.size; i + n <= |s| && ReadsAs(s[i..i + n], rest, s[i..i + n])
  {
    AcceptedIsShortest(s, i);
    var n := Decode(s, i).value.size;
    var t := s[i..i + n] + rest;
    assert t[0..n] == s[i..i + n] && t[..n] == s[i..i + n];
    GrammarIsAccepted(t, 0, n);
    hide Decode, Encode, Rfc3629;
  }

  lemma UnicodeAtEscape(before: seq<Unit>, u: Code, rest: seq<Unit>)
    requires u < 0x1_0000
    ensures |UnicodeEscape(u)| == 6 && UnicodeEscape(u)[0] == BACKSLASH && UnicodeEscape(u)[1] == LETTER_U
    ensures UnicodeAt(before + UnicodeEscape(u) + rest, |before|) == Some(u)
  {
    hide FourHex, Digit, IntToStringHex;
    FourDigits(u);
    FourRead(u);
    var e := UnicodeEscape(u);
    assert e == [BACKSLASH, LETTER_U, Digit(u, 12), Digit(u, 8), Digit(u, 4), Digit(u, 0)];
    var t, k := before + e + rest, |before|;
    assert t[k] == e[0] && t[k + 1] == e[1] && t[k + 2] == e[2] && t[k + 3] == e[3] && t[k + 4] == e[4]
        && t[k + 5] == e[5];
  }

  lemma UnicodeReads(u: Code, rest: seq<Unit>)
    requires u < 0x1_0000 && !Surrogate(u)
    ensures ReadsAs(UnicodeEscape(u), rest, Encode(u))
  {
    UnicodeAtEscape([], u, rest);
    var t := UnicodeEscape(u) + rest;
    assert [] + UnicodeEscape(u) + rest == t;
    hide UnicodeAt, UnicodeEscape, Encode, FourHex;
  }

  lemma SurrogatesInRange(b: Code)
    requires b < 0x10_0000
    ensures IsHigh(HighSurrogate(b)) && HighSurrogate(b) < 0x1_0000
    ensures IsLow(LowSurrogate(b)) && LowSurrogate(b) < 0x1_0000
  {
  }

  lemma SurrogatesCombine(b: Code)
    requires b < 0x10_0000
    ensures Combined(HighSurrogate(b), LowSurrogate(b)) == 0x1_0000 + b
  {
    HighPart(b);
    LowPart(b);
    TenBits(b);
    hide HighSurrogate, LowSurrogate;
  }

  lemma HighPart(b: Code)
    ensures HighSurrogate(b) - 0xD800 == b >> 10
  {
  }

  lemma LowPart(b: Code)
    ensures LowSurrogate(b) - 0xDC00 == b & 0x03FF
  {
  }

  lemma BelowMillion(c: Code)
    requires 0x1_0000 <= c <= 0x10_FFFF
    ensures Base(c) < 0x10_0000 && 0x1_0000 + Base(c) == c
  {
  }

  lemma TenBits(b: Code)
    ensures ((b >> 10) << 10) | (b & 0x03FF) == b
  {
  }

  lemma PairReads(c: Code, rest: seq<Unit>)
    requires 0x1_0000 <= c <= 0x10_FFFF
    ensures ReadsAs(UnicodeEscape(HighSurrogate(Base(c))) + UnicodeEscape(LowSurrogate(Base(c))), rest, Encode(c))
  {
    BelowMillion(c);
    var b := Base(c);
    SurrogatesInRange(b);
    SurrogatesCombine(b);
    hide UnicodeAt, UnicodeEscape, Encode, FourHex, HighSurrogate, LowSurrogate, Combined, Base;
    var h, l := UnicodeEscape(HighSurrogate(b)), UnicodeEscape(LowSurrogate(b));
    UnicodeAtEscape([], HighSurrogate(b), l + rest);
    UnicodeAtEscape(h, LowSurrogate(b), rest);
    assert [] + h + (l + rest) == h + l + rest;
  }

  lemma MalformedRefused(c: Unit, rest: seq<Unit>)
    ensures var text := [BACKSLASH, LETTER_X] + IntToStringHex(Wide(c), 2); Character(text + rest).None?
  {
    var text := [BACKSLASH, LETTER_X] + IntToStringHex(Wide(c), 2);
    assert (text + rest)[0] == BACKSLASH && (text + rest)[1] == LETTER_X;
    hide IntToStringHex;
  }

  lemma RawControlRefused(c: Unit, more: seq<Unit>)
    requires RawControl(c)
    ensures Character([c] + more).None?
  {
  }

  lemma PieceReads(s: seq<Unit>, i: nat, allowNonUtf8: bool, naturalUtf8: bool, rest: seq<Unit>)
    requires i < |s| && PieceAt(s, i, allowNonUtf8, naturalUtf8).Some? && Readable(s, i, naturalUtf8)
    ensures var p := PieceAt(s, i, allowNonUtf8, naturalUtf8).value;
      i + p.size <= |s| && ReadsAs(p.text, rest, s[i..i + p.size])
  {
    hide ReadsAs, UnicodeEscape, Encode, Decode, HighSurrogate, LowSurrogate, Surrogate;
    var c := s[i];
    if ShortEscape(c).Some? {
      ShortIsAscii(c);
      AsciiDecodes(s, i);
      ShortReads(c, rest);
    } else if Printable(c) {
      AsciiDecodes(s, i);
      PlainReads(c, rest);
    } else {
      AcceptedIsShortest(s, i);
      var d := Decode(s, i).value;
      if naturalUtf8 {
        NaturalReads(s, i, rest);
      } else if d.code <= 0xFFFF {
        UnicodeReads(d.code, rest);
      } else {
        PairReads(d.code, rest);
      }
    }
  }

  lemma ShortIsAscii(c: Unit)
    requires ShortEscape(c).Some?
    ensures c < 0x80
  {
  }

  lemma PieceRefused(s: seq<Unit>, i: nat, allowNonUtf8: bool, naturalUtf8: bool, rest: seq<Unit>)
    requires i < |s| && PieceAt(s, i, allowNonUtf8, naturalUtf8).Some? && !Readable(s, i, naturalUtf8)
    ensures var text := PieceAt(s, i, allowNonUtf8, naturalUtf8).value.text;
      text != [] && text[0] != QUOTE && Character(text + rest).None?
  {
    var c := s[i];
    if Decode(s, i).None? {
      if c < 0x80 {
        AsciiDecodes(s, i);
      }
      MalformedRefused(c, rest);
    } else {
      AsciiDecodes(s, i);
      RawControlRefused(c, rest);
    }
    hide Decode;
  }

  // -------------------------------------------------------------- whole strings

  /** From position `i` on, the sequence is a run of characters. */
  predicate WellFormed(s: seq<Unit>, i: nat)
    decreases |s| - i
  {
    i >= |s| ||
    match Decode(s, i)
    case None => false
    case Some(d) =>
      AcceptedIsShortest(s, i);
      WellFormed(s, i + d.size)
  }

  function Flatten(cs: seq<seq<Unit>>): seq<Unit> {
    if cs == [] then [] else cs[0] + Flatten(cs[1..])
  }

  predicate AllCharacters(cs: seq<seq<Unit>>) {
    forall k :: 0 <= k < |cs| ==> Rfc3629(cs[k])
  }

  /** Well-formed text is a concatenation of characters of the grammar. */
  lemma {:induction false} WellFormedSplits(s: seq<Unit>, i: nat) returns (cs: seq<seq<Unit>>)
    requires i <= |s| && WellFormed(s, i)
    ensures AllCharacters(cs) && Flatten(cs) == s[i..]
    decreases |s| - i
  {
    if i == |s| {
      cs := [];
    } else {
      AcceptedIsShortest(s, i);
      var n := Decode(s, i).value.size;
      hide Decode, Encode, Rfc3629;
      var rest := WellFormedSplits(s, i + n);
      cs := [s[i..i + n]] + rest;
      assert cs[1..] == rest && s[i..] == s[i..i + n] + s[i + n..];
    }
  }

  /** And any such concatenation is well-formed. */
  lemma {:induction false} CharactersAreWellFormed(before: seq<Unit>, cs: seq<seq<Unit>>)
    requires AllCharacters(cs)
    ensures WellFormed(before + Flatten(cs), |before|)
    decreases |cs|
  {
    hide Decode, Rfc3629;
    var s := before + Flatten(cs);
    if cs != [] {
      assert s[|before|..|before| + |cs[0]|] == cs[0];
      GrammarIsAccepted(s, |before|, |cs[0]|);
      CharactersAreWellFormed(before + cs[0], cs[1..]);
      assert before + cs[0] + Flatten(cs[1..]) == s;
      if |before| < |s| {
        WellFormedOnward(s, |before|);
      }
    }
  }

  predicate NoRawControl(s: seq<Unit>, i: nat) {
    forall k :: i <= k < |s| ==> !RawControl(s[k])
  }

  /** The text from `i` on can be read back. */
  predicate Faithful(s: seq<Unit>, i: nat, naturalUtf8: bool) {
    WellFormed(s, i) && (naturalUtf8 ==> NoRawControl(s, i))
  }

  /** A character has no control byte unless it is one. */
  lemma ControlsAreFirst(s: seq<Unit>, i: nat)
    requires i < |s| && Decode(s, i).Some?
    ensures i + Decode(s, i).value.size <= |s|
    ensures forall k :: i < k < i + Decode(s, i).value.size ==> !RawControl(s[k])
  {
    AcceptedIsShortest(s, i);
    var n := Decode(s, i).value.size;
    hide Decode, Encode;
    var t := s[i..i + n];
    assert Rfc3629(t);
    forall k | i < k < i + n
      ensures !RawControl(s[k])
    {
      TailNotControl(t, k - i);
    }
  }

  lemma TailNotControl(t: seq<Unit>, k: nat)
    requires Rfc3629(t) && 0 < k < |t|
    ensures !RawControl(t[k])
  {
  }

  lemma FaithfulStep(s: seq<Unit>, i: nat, naturalUtf8: bool)
    requires i < |s|
    ensures Faithful(s, i, naturalUtf8) <==>
      Readable(s, i, naturalUtf8) && Faithful(s, i + Decode(s, i).value.size, naturalUtf8)
  {
    if Decode(s, i).Some? {
      ControlsAreFirst(s, i);
    }
    hide Decode, RawControl;
  }

  lemma WellFormedOnward(s: seq<Unit>, i: nat)
    requires i < |s|
    ensures WellFormed(s, i) <==> Decode(s, i).Some? && WellFormed(s, i + Decode(s, i).value.size)
  {
    hide Decode, Describes;
  }

  lemma BodyOnward(s: seq<Unit>, i: nat, allowNonUtf8: bool, naturalUtf8: bool)
    requires i < |s|
    ensures var p := PieceAt(s, i, allowNonUtf8, naturalUtf8);
      Body(s, i, allowNonUtf8, naturalUtf8).ok <==>
      p.Some? && Body(s, i + p.value.size, allowNonUtf8, naturalUtf8).ok
  {
    hide PieceAt;
  }

  /** It gives up exactly on malformed text, and only if that is not allowed. */
  lemma {:induction false} BodySucceeds(s: seq<Unit>, i: nat, allowNonUtf8: bool, naturalUtf8: bool)
    requires i <= |s|
    ensures Body(s, i, allowNonUtf8, naturalUtf8).ok <==> allowNonUtf8 || WellFormed(s, i)
    decreases |s| - i
  {
    hide Decode, PieceAt, WellFormed, Body;
    if i == |s| {
      BodyEnds(s, allowNonUtf8, naturalUtf8);
    } else {
      SizesAgree(s, i, allowNonUtf8, naturalUtf8);
      WellFormedOnward(s, i);
      BodyOnward(s, i, allowNonUtf8, naturalUtf8);
      var p := PieceAt(s, i, allowNonUtf8, naturalUtf8);
      if p.Some? {
        BodySucceeds(s, i + p.value.size, allowNonUtf8, naturalUtf8);
      }
    }
  }

  lemma SizesAgree(s: seq<Unit>, i: nat, allowNonUtf8: bool, naturalUtf8: bool)
    requires i < |s|
    ensures Decode(s, i).Some? || allowNonUtf8 <==> PieceAt(s, i, allowNonUtf8, naturalUtf8).Some?
    ensures PieceAt(s, i, allowNonUtf8, naturalUtf8).Some? ==>
      var n := PieceAt(s, i, allowNonUtf8, naturalUtf8).value.size; 1 <= n && i + n <= |s|
    ensures Decode(s, i).Some? && PieceAt(s, i, allowNonUtf8, naturalUtf8).Some? ==>
      PieceAt(s, i, allowNonUtf8, naturalUtf8).value.size == Decode(s, i).value.size
  {
    if s[i] < 0x80 {
      AsciiDecodes(s, i);
    } else {
      HighIsNotAscii(s[i]);
    }
    if PieceAt(s, i, allowNonUtf8, naturalUtf8).Some? {
      PieceMoves(s, i, allowNonUtf8, naturalUtf8);
    }
    hide Decode;
  }

  lemma HighIsNotAscii(c: Unit)
    requires c >= 0x80
    ensures ShortEscape(c).None? && !Printable(c)
  {
  }

  /** `EscapeString` returns true exactly for well-formed text, or always when anything is allowed. */
  lemma EscapeSucceeds(s: seq<Unit>, allowNonUtf8: bool, naturalUtf8: bool)
    ensures Escape(s, allowNonUtf8, naturalUtf8).ok <==> allowNonUtf8 || WellFormed(s, 0)
  {
    BodySucceeds(s, 0, allowNonUtf8, naturalUtf8);
  }

  lemma CharactersOnward(text: seq<Unit>, rest: seq<Unit>, bytes: seq<Unit>)
    requires ReadsAs(text, rest, bytes)
    ensures Characters(text + rest) ==
      match Characters(rest)
      case None => None
      case Some(more) => Some(bytes + more)
  {
    hide Character;
    assert (text + rest)[|text|..] == rest && (text + rest)[0] == text[0];
  }

  lemma CharactersRefused(text: seq<Unit>, rest: seq<Unit>)
    requires text != [] && text[0] != QUOTE && Character(text + rest).None?
    ensures Characters(text + rest) == None
  {
    hide Character;
  }

  lemma BodyStep(s: seq<Unit>, i: nat, allowNonUtf8: bool, naturalUtf8: bool) returns (p: Piece)
    requires i < |s| && Body(s, i, allowNonUtf8, naturalUtf8).ok
    ensures PieceAt(s, i, allowNonUtf8, naturalUtf8) == Some(p) && 1 <= p.size && i + p.size <= |s|
    ensures var rest := Body(s, i + p.size, allowNonUtf8, naturalUtf8);
      rest.ok && Body(s, i, allowNonUtf8, naturalUtf8).text == p.text + rest.text
    ensures Readable(s, i, naturalUtf8) ==> Decode(s, i).Some? && Decode(s, i).value.size == p.size
  {
    hide PieceAt, Decode;
    SizesAgree(s, i, allowNonUtf8, naturalUtf8);
    p := PieceAt(s, i, allowNonUtf8, naturalUtf8).value;
  }

  lemma BodyEnds(s: seq<Unit>, allowNonUtf8: bool, naturalUtf8: bool)
    ensures Characters(Body(s, |s|, allowNonUtf8, naturalUtf8).text) == Some(s[|s|..])
    ensures Body(s, |s|, allowNonUtf8, naturalUtf8).ok && WellFormed(s, |s|) && Faithful(s, |s|, naturalUtf8)
  {
    assert Body(s, |s|, allowNonUtf8, naturalUtf8).text == [QUOTE] && s[|s|..] == [];
  }

  lemma ReadOn(s: seq<Unit>, i: nat, p: Piece, rest: seq<Unit>)
    requires i + p.size <= |s| && ReadsAs(p.text, rest, s[i..i + p.size]) && Characters(rest) == Some(s[i + p.size..])
    ensures Characters(p.text + rest) == Some(s[i..])
  {
    hide ReadsAs, Characters;
    CharactersOnward(p.text, rest, s[i..i + p.size]);
    assert s[i..] == s[i..i + p.size] + s[i + p.size..];
  }

  lemma RefusedOn(s: seq<Unit>, i: nat, p: Piece, rest: seq<Unit>)
    requires i + p.size <= |s| && ReadsAs(p.text, rest, s[i..i + p.size]) && Characters(rest).None?
    ensures Characters(p.text + rest) == None
  {
    hide ReadsAs, Characters;
    CharactersOnward(p.text, rest, s[i..i + p.size]);
  }

  lemma {:induction false} BodyReads(s: seq<Unit>, i: nat, allowNonUtf8: bool, naturalUtf8: bool)
    requires i <= |s| && Body(s, i, allowNonUtf8, naturalUtf8).ok
    ensures Characters(Body(s, i, allowNonUtf8, naturalUtf8).text)
         == if Faithful(s, i, naturalUtf8) then Some(s[i..]) else None
    decreases |s| - i
  {
    hide Decode, PieceAt, Faithful, Character, Readable, Characters, ReadsAs, Body;
    if i == |s| {
      BodyEnds(s, allowNonUtf8, naturalUtf8);
    } else {
      var p := BodyStep(s, i, allowNonUtf8, naturalUtf8);
      var rest := Body(s, i + p.size, allowNonUtf8, naturalUtf8).text;
      FaithfulStep(s, i, naturalUtf8);
      if !Readable(s, i, naturalUtf8) {
        PieceRefused(s, i, allowNonUtf8, naturalUtf8, rest);
        CharactersRefused(p.text, rest);
      } else {
        PieceReads(s, i, allowNonUtf8, naturalUtf8, rest);
        BodyReads(s, i + p.size, allowNonUtf8, naturalUtf8);
        if Faithful(s, i + p.size, naturalUtf8) {
          ReadOn(s, i, p, rest);
        } else {
          RefusedOn(s, i, p, rest);
        }
      }
    }
  }

  /**
   * Reading the emitted string as RFC 8259 says gives back the text exactly when the text is
   * well-formed UTF-8 and, where characters are copied as they are, has no control character
   * without a short escape; otherwise the emitted string is not a JSON string.
   */
  lemma EscapeReadsBack(s: seq<Unit>, allowNonUtf8: bool, naturalUtf8: bool)
    requires Escape(s, allowNonUtf8, naturalUtf8).ok
    ensures Unescape(Escape(s, allowNonUtf8, naturalUtf8).text)
         == if WellFormed(s, 0) && (naturalUtf8 ==> NoRawControl(s, 0)) then Some(s) else None
  {
    BodyReads(s, 0, allowNonUtf8, naturalUtf8);
    var body := Body(s, 0, allowNonUtf8, naturalUtf8).text;
    assert ([QUOTE] + body)[1..] == body && s[0..] == s;
  }

  // --------------------------------------------- reading malformed bytes back

  /** A byte written as `\x` and two digits. */
  function ByteEscape(t: seq<Unit>): Option<Unit> {
    if |t| >= 4 && t[0] == BACKSLASH && t[1] == LETTER_X then
      var x :- HexValue(t[2]);
      var y :- HexValue(t[3]);
      Some(Low(16 * x + y))
    else None
  }

  /** RFC 8259 with that escape besides. */
  function LenientCharacter(t: seq<Unit>): Option<Piece>
    requires t != []
  {
    if ByteEscape(t).Some? then Some(Piece([ByteEscape(t).value], 4)) else Character(t)
  }

  function LenientCharacters(t: seq<Unit>): Option<seq<Unit>>
    decreases |t|
  {
    if t == [] then None
    else if t[0] == QUOTE then (if |t| == 1 then Some([]) else None)
    else
      var p :- LenientCharacter(t);
      LenientMoves(t);
      var rest :- LenientCharacters(t[p.size..]);
      Some(p.text + rest)
  }

  lemma LenientMoves(t: seq<Unit>)
    requires t != [] && LenientCharacter(t).Some?
    ensures 1 <= LenientCharacter(t).value.size <= |t|
  {
    hide Character;
    if ByteEscape(t).None? {
      CharacterMoves(t);
    }
  }

  function LenientUnescape(t: seq<Unit>): Option<seq<Unit>> {
    if t == [] || t[0] != QUOTE then None else LenientCharacters(t[1..])
  }

  lemma LenientAgrees(t: seq<Unit>)
    requires t != [] && (Character(t).Some? || t[0] != BACKSLASH)
    ensures LenientCharacter(t) == Character(t)
  {
    hide Decode;
  }

  lemma TwoRead(c: Unit)
    ensures HexValue(Digit(Wide(c), 4)) == Some(Nibble(Wide(c), 4))
    ensures HexValue(Digit(Wide(c), 0)) == Some(Nibble(Wide(c), 0))
    ensures Low(16 * Nibble(Wide(c), 4) + Nibble(Wide(c), 0)) == c
  {
    DigitRead(Nibble(Wide(c), 4));
    DigitRead(Nibble(Wide(c), 0));
    hide HexDigit, HexValue;
  }

  lemma MalformedReads(c: Unit, rest: seq<Unit>)
    ensures var text := [BACKSLASH, LETTER_X] + IntToStringHex(Wide(c), 2);
      |text| == 4 && text[0] != QUOTE && LenientCharacter(text + rest) == Some(Piece([c], 4))
  {
    ByteIsSmall(c);
    TwoDigits(Wide(c));
    TwoRead(c);
    hide IntToStringHex, Digit, HexValue, Nibble, Low, Wide;
    var text := [BACKSLASH, LETTER_X] + IntToStringHex(Wide(c), 2);
    var t := text + rest;
    assert text == [BACKSLASH, LETTER_X, Digit(Wide(c), 4), Digit(Wide(c), 0)];
    assert t[0] == text[0] && t[1] == text[1] && t[2] == text[2] && t[3] == text[3];
  }

  /** What one turn of the loop emits is read back as the bytes it stands for, unless a control was copied. */
  lemma PieceReadsLeniently(s: seq<Unit>, i: nat, allowNonUtf8: bool, naturalUtf8: bool, rest: seq<Unit>)
    requires i < |s| && PieceAt(s, i, allowNonUtf8, naturalUtf8).Some?
    ensures var p := PieceAt(s, i, allowNonUtf8, naturalUtf8).value;
      && 1 <= p.size && i + p.size <= |s| && p.text != [] && p.text[0] != QUOTE
      && LenientCharacter(p.text + rest)
         == if naturalUtf8 && RawControl(s[i]) then None else Some(Piece(s[i..i + p.size], |p.text|))
  {
    hide ReadsAs, Decode, PieceAt, Character, ByteEscape;
    PieceMoves(s, i, allowNonUtf8, naturalUtf8);
    var p := PieceAt(s, i, allowNonUtf8, naturalUtf8).value;
    if Readable(s, i, naturalUtf8) {
      PieceReads(s, i, allowNonUtf8, naturalUtf8, rest);
      ReadsAsLeniently(p.text, rest, s[i..i + p.size]);
    } else if Decode(s, i).None? {
      MalformedPiece(s, i, allowNonUtf8, naturalUtf8);
      MalformedReads(s[i], rest);
    } else {
      ControlPiece(s, i, allowNonUtf8);
      RawControlRefused(s[i], rest);
      LenientAgrees(p.text + rest);
    }
  }

  lemma ReadsAsLeniently(text: seq<Unit>, rest: seq<Unit>, bytes: seq<Unit>)
    requires ReadsAs(text, rest, bytes)
    ensures text != [] && text[0] != QUOTE && LenientCharacter(text + rest) == Some(Piece(bytes, |text|))
  {
    hide Character, ByteEscape;
    LenientAgrees(text + rest);
  }

  lemma MalformedPiece(s: seq<Unit>, i: nat, allowNonUtf8: bool, naturalUtf8: bool)
    requires i < |s| && PieceAt(s, i, allowNonUtf8, naturalUtf8).Some? && Decode(s, i).None?
    ensures PieceAt(s, i, allowNonUtf8, naturalUtf8).value.text
         == [BACKSLASH, LETTER_X] + IntToStringHex(Wide(s[i]), 2)
    ensures PieceAt(s, i, allowNonUtf8, naturalUtf8).value.size == 1 && s[i..i + 1] == [s[i]]
    ensures !RawControl(s[i])
  {
    if s[i] < 0x80 {
      AsciiDecodes(s, i);
    }
    hide Decode, IntToStringHex;
  }

  lemma ControlPiece(s: seq<Unit>, i: nat, allowNonUtf8: bool)
    requires i < |s| && RawControl(s[i])
    ensures PieceAt(s, i, allowNonUtf8, true) == Some(Piece([s[i]], 1))
  {
    AsciiDecodes(s, i);
    hide Decode;
  }

  lemma LenientOnward(text: seq<Unit>, rest: seq<Unit>, p: Option<Piece>)
    requires text != [] && text[0] != QUOTE && LenientCharacter(text + rest) == p
    requires p.Some? ==> p.value.size == |text|
    ensures LenientCharacters(text + rest) ==
      if p.None? || LenientCharacters(rest).None? then None else Some(p.value.text + LenientCharacters(rest).value)
  {
    hide LenientCharacter;
    assert (text + rest)[|text|..] == rest && (text + rest)[0] == text[0];
  }

  lemma NoRawControlSplit(s: seq<Unit>, i: nat, next: nat)
    requires i < next <= |s| && forall k :: i < k < next ==> !RawControl(s[k])
    ensures NoRawControl(s, i) <==> !RawControl(s[i]) && NoRawControl(s, next)
  {
    hide RawControl;
  }

  /** A piece holds no control byte unless it stands for just that one. */
  lemma ControlsAlone(s: seq<Unit>, i: nat, allowNonUtf8: bool, naturalUtf8: bool)
    requires i < |s| && PieceAt(s, i, allowNonUtf8, naturalUtf8).Some?
    ensures var n := PieceAt(s, i, allowNonUtf8, naturalUtf8).value.size;
      1 <= n && i + n <= |s| && forall k :: i < k < i + n ==> !RawControl(s[k])
  {
    SizesAgree(s, i, allowNonUtf8, naturalUtf8);
    if Decode(s, i).Some? {
      ControlsAreFirst(s, i);
    } else {
      MalformedPiece(s, i, allowNonUtf8, naturalUtf8);
    }
    hide Decode, PieceAt, RawControl;
  }

  lemma {:induction false} BodyReadsLeniently(s: seq<Unit>, i: nat, allowNonUtf8: bool, naturalUtf8: bool)
    requires i <= |s| && Body(s, i, allowNonUtf8, naturalUtf8).ok
    ensures LenientCharacters(Body(s, i, allowNonUtf8, naturalUtf8).text)
         == if naturalUtf8 && !NoRawControl(s, i) then None else Some(s[i..])
    decreases |s| - i
  {
    hide Decode, PieceAt, LenientCharacter, LenientCharacters, Body, RawControl, NoRawControl;
    if i == |s| {
      LenientEnds(s, allowNonUtf8, naturalUtf8);
    } else {
      var p := BodyStep(s, i, allowNonUtf8, naturalUtf8);
      var rest := Body(s, i + p.size, allowNonUtf8, naturalUtf8).text;
      PieceReadsLeniently(s, i, allowNonUtf8, naturalUtf8, rest);
      ControlsAlone(s, i, allowNonUtf8, naturalUtf8);
      NoRawControlSplit(s, i, i + p.size);
      LenientOnward(p.text, rest, LenientCharacter(p.text + rest));
      BodyReadsLeniently(s, i + p.size, allowNonUtf8, naturalUtf8);
      assert s[i..] == s[i..i + p.size] + s[i + p.size..];
    }
  }

  lemma LenientEnds(s: seq<Unit>, allowNonUtf8: bool, naturalUtf8: bool)
    ensures LenientCharacters(Body(s, |s|, allowNonUtf8, naturalUtf8).text) == Some(s[|s|..])
    ensures NoRawControl(s, |s|)
  {
    assert Body(s, |s|, allowNonUtf8, naturalUtf8).text == [QUOTE] && s[|s|..] == [];
  }

  /**
   * A reader that also takes `\x` and two digits as a byte gets the text back, malformed bytes included,
   * exactly when no control character was copied as it is.
   */
  lemma EscapeReadsBackLeniently(s: seq<Unit>, allowNonUtf8: bool, naturalUtf8: bool)
    requires Escape(s, allowNonUtf8, naturalUtf8).ok
    ensures LenientUnescape(Escape(s, allowNonUtf8, naturalUtf8).text)
         == if naturalUtf8 && !NoRawControl(s, 0) then None else Some(s)
  {
    BodyReadsLeniently(s, 0, allowNonUtf8, naturalUtf8);
    var body := Body(s, 0, allowNonUtf8, naturalUtf8).text;
    assert ([QUOTE] + body)[1..] == body && s[0..] == s;
  }

  // ---------------------------------------------------------- giving up

  /** From `i`, whole characters lead to `k`. */
  predicate Leads(s: seq<Unit>, i: nat, k: nat)
    decreases |s| - i
  {
    i == k || (i < |s| && Decode(s, i).Some? && (AcceptedIsShortest(s, i); Leads(s, i + Decode(s, i).value.size, k)))
  }

  lemma LeadsOn(s: seq<Unit>, i: nat, k: nat)
    requires i < |s| && Decode(s, i).Some? && Leads(s, i + Decode(s, i).value.size, k)
    ensures Leads(s, i, k)
  {
    hide Decode;
  }

  predicate NoRawControlIn(s: seq<Unit>, i: nat, k: nat)
    requires k <= |s|
  {
    forall j :: i <= j < k ==> !RawControl(s[j])
  }

  lemma NoRawControlInSplit(s: seq<Unit>, i: nat, next: nat, k: nat)
    requires i < next <= k <= |s| && forall j :: i < j < next ==> !RawControl(s[j])
    ensures NoRawControlIn(s, i, k) <==> !RawControl(s[i]) && NoRawControlIn(s, next, k)
  {
    hide RawControl;
  }

  lemma BodyFails(s: seq<Unit>, i: nat, naturalUtf8: bool) returns (p: Option<Piece>)
    requires i <= |s| && !Body(s, i, false, naturalUtf8).ok
    ensures i < |s| && p == PieceAt(s, i, false, naturalUtf8)
    ensures p.None? ==> Decode(s, i).None? && Body(s, i, false, naturalUtf8).text == []
    ensures p.Some? ==>
      && Decode(s, i).Some? && Decode(s, i).value.size == p.value.size && 1 <= p.value.size <= |s| - i
      && !Body(s, i + p.value.size, false, naturalUtf8).ok
      && Body(s, i, false, naturalUtf8).text == p.value.text + Body(s, i + p.value.size, false, naturalUtf8).text
  {
    hide Decode, PieceAt;
    SizesAgree(s, i, false, naturalUtf8);
    p := PieceAt(s, i, false, naturalUtf8);
  }

  lemma {:induction false} BodyGivesUp(s: seq<Unit>, i: nat, naturalUtf8: bool) returns (k: nat)
    requires i <= |s| && !Body(s, i, false, naturalUtf8).ok
    ensures i <= k < |s| && Leads(s, i, k) && Decode(s, k).None?
    ensures LenientCharacters(Body(s, i, false, naturalUtf8).text + [QUOTE])
         == if naturalUtf8 && !NoRawControlIn(s, i, k) then None else Some(s[i..k])
    decreases |s| - i
  {
    hide Decode, PieceAt, LenientCharacter, Body, RawControl, NoRawControlIn, Leads;
    var p := BodyFails(s, i, naturalUtf8);
    if p.None? {
      k := i;
      NothingRead(s, i);
    } else {
      hide LenientCharacters;
      var next := i + p.value.size;
      var rest := Body(s, next, false, naturalUtf8).text;
      k := BodyGivesUp(s, next, naturalUtf8);
      LeadsOn(s, i, k);
      PieceReadsLeniently(s, i, false, naturalUtf8, rest + [QUOTE]);
      ControlsAlone(s, i, false, naturalUtf8);
      NoRawControlInSplit(s, i, next, k);
      LenientOnward(p.value.text, rest + [QUOTE], LenientCharacter(p.value.text + (rest + [QUOTE])));
      assert p.value.text + (rest + [QUOTE]) == Body(s, i, false, naturalUtf8).text + [QUOTE];
      assert s[i..k] == s[i..next] + s[next..k];
    }
  }

  lemma NothingRead(s: seq<Unit>, i: nat)
    requires i <= |s|
    ensures LenientCharacters([] + [QUOTE]) == Some(s[i..i]) && Leads(s, i, i) && NoRawControlIn(s, i, i)
  {
    assert [] + [QUOTE] == [QUOTE] && s[i..i] == [];
  }

  /**
   * Giving up leaves, but for the closing quote, what the characters before the first malformed one are
   * escaped to.
   */
  lemma EscapeGivesUp(s: seq<Unit>, naturalUtf8: bool) returns (k: nat)
    requires !Escape(s, false, naturalUtf8).ok
    ensures k < |s| && Leads(s, 0, k) && Decode(s, k).None?
    ensures LenientUnescape(Escape(s, false, naturalUtf8).text + [QUOTE])
         == if naturalUtf8 && !NoRawControlIn(s, 0, k) then None else Some(s[..k])
  {
    hide Body, LenientCharacters, Leads, Decode, NoRawControlIn;
    k := BodyGivesUp(s, 0, naturalUtf8);
    var body := Body(s, 0, false, naturalUtf8).text;
    assert ([QUOTE] + body + [QUOTE])[1..] == body + [QUOTE] && s[0..k] == s[..k];
  }

  /** The control character 1, copied as it is, makes a string that JSON does not allow. */
  lemma ControlCopied(allowNonUtf8: bool)
    ensures var e := Escape([0x01], allowNonUtf8, true); e.ok && Unescape(e.text) == None
  {
    var s: seq<Unit> := [0x01];
    AsciiDecodes(s, 0);
    assert RawControl(s[0]);
    EscapeSucceeds(s, allowNonUtf8, true);
    OneCharacter(s);
    EscapeReadsBack(s, allowNonUtf8, true);
    hide Escape, Unescape, Decode;
  }

  lemma OneCharacter(s: seq<Unit>)
    requires |s| == 1 && s[0] < 0x80
    ensures WellFormed(s, 0)
  {
    AsciiDecodes(s, 0);
    hide Decode;
  }

  predicate AllPrintable(t: seq<Unit>) {
    forall k :: 0 <= k < |t| ==> Printable(t[k])
  }

  lemma HexPrintable(u: Code, xdigits: nat)
    requires u < 0x1_0000 && (xdigits == 4 || (xdigits == 2 && u < 0x100))
    ensures AllPrintable(IntToStringHex(u, xdigits))
  {
    hide HexDigit, HexDigits, Nibble;
    DigitRead(Nibble(u, 12));
    DigitRead(Nibble(u, 8));
    DigitRead(Nibble(u, 4));
    DigitRead(Nibble(u, 0));
    if xdigits == 4 {
      FourDigits(u);
    } else {
      TwoDigits(u);
    }
    hide IntToStringHex;
  }

  /** The digits are 0 to 9 and A to F. */
  predicate UpperHex(b: Unit) {
    0x30 <= b <= 0x39 || 0x41 <= b <= 0x46
  }

  lemma UpperDigit(u: Code, shift: Code)
    requires shift <= 12
    ensures UpperHex(Digit(u, shift))
  {
    hide Nibble;
  }

  lemma HexIsUpper(u: Code, xdigits: nat)
    requires u < 0x1_0000 && (xdigits == 4 || (xdigits == 2 && u < 0x100))
    ensures var t := IntToStringHex(u, xdigits); |t| == xdigits && forall k :: 0 <= k < xdigits ==> UpperHex(t[k])
  {
    hide Digit, UpperHex, IntToStringHex;
    UpperDigit(u, 12);
    UpperDigit(u, 8);
    UpperDigit(u, 4);
    UpperDigit(u, 0);
    if xdigits == 4 {
      FourDigits(u);
    } else {
      TwoDigits(u);
    }
  }

  lemma PiecePrintable(s: seq<Unit>, i: nat, allowNonUtf8: bool)
    requires i < |s| && PieceAt(s, i, allowNonUtf8, false).Some?
    ensures AllPrintable(PieceAt(s, i, allowNonUtf8, false).value.text)
  {
    hide IntToStringHex, HighSurrogate, LowSurrogate, Encode;
    var c := s[i];
    if ShortEscape(c).None? && !Printable(c) {
      if Decode(s, i).None? {
        ByteIsSmall(c);
        HexPrintable(Wide(c), 2);
      } else {
        AcceptedIsShortest(s, i);
        var u := Decode(s, i).value.code;
        if u <= 0xFFFF {
          HexPrintable(u, 4);
        } else {
          BelowMillion(u);
          SurrogatesInRange(Base(u));
          HexPrintable(HighSurrogate(Base(u)), 4);
          HexPrintable(LowSurrogate(Base(u)), 4);
        }
      }
    }
    hide Decode;
  }

  lemma ByteIsSmall(c: Unit)
    ensures Wide(c) < 0x100
  {
  }

  lemma ConcatPrintable(a: seq<Unit>, b: seq<Unit>)
    requires AllPrintable(a) && AllPrintable(b)
    ensures AllPrintable(a + b)
  {
    hide Printable;
  }

  lemma BodyText(s: seq<Unit>, i: nat, allowNonUtf8: bool, naturalUtf8: bool) returns (next: nat)
    requires i < |s| && PieceAt(s, i, allowNonUtf8, naturalUtf8).Some?
    ensures i < next <= |s|
    ensures Body(s, i, allowNonUtf8, naturalUtf8).text
         == PieceAt(s, i, allowNonUtf8, naturalUtf8).value.text + Body(s, next, allowNonUtf8, naturalUtf8).text
  {
    hide PieceAt;
    PieceMoves(s, i, allowNonUtf8, naturalUtf8);
    next := i + PieceAt(s, i, allowNonUtf8, naturalUtf8).value.size;
  }

  lemma BodyStops(s: seq<Unit>, i: nat, allowNonUtf8: bool, naturalUtf8: bool)
    requires i >= |s| || PieceAt(s, i, allowNonUtf8, naturalUtf8).None?
    ensures AllPrintable(Body(s, i, allowNonUtf8, naturalUtf8).text)
  {
    hide PieceAt;
  }

  lemma {:induction false} BodyPrintable(s: seq<Unit>, i: nat, allowNonUtf8: bool)
    requires i <= |s|
    ensures AllPrintable(Body(s, i, allowNonUtf8, false).text)
    decreases |s| - i
  {
    hide PieceAt, AllPrintable, Body;
    if i < |s| && PieceAt(s, i, allowNonUtf8, false).Some? {
      var next := BodyText(s, i, allowNonUtf8, false);
      PiecePrintable(s, i, allowNonUtf8);
      BodyPrintable(s, next, allowNonUtf8);
      ConcatPrintable(PieceAt(s, i, allowNonUtf8, false).value.text, Body(s, next, allowNonUtf8, false).text);
    } else {
      BodyStops(s, i, allowNonUtf8, false);
    }
  }

  /** Unless characters are copied as they are, all that is emitted is printable ASCII, even on failure. */
  lemma EscapePrintable(s: seq<Unit>, allowNonUtf8: bool)
    ensures var t := Escape(s, allowNonUtf8, false).text; forall k :: 0 <= k < |t| ==> 0x20 <= t[k] <= 0x7E
  {
    BodyPrintable(s, 0, allowNonUtf8);
  }

  /** Printable ASCII but the quote and the backslash. */
  predicate Plain(s: seq<Unit>, i: nat) {
    forall k :: i <= k < |s| ==> 0x20 <= s[k] <= 0x7E && s[k] != 0x22 && s[k] != 0x5C
  }

  lemma PlainPiece(s: seq<Unit>, i: nat, allowNonUtf8: bool, naturalUtf8: bool)
    requires i < |s| && Plain(s, i)
    ensures PieceAt(s, i, allowNonUtf8, naturalUtf8) == Some(Piece([s[i]], 1))
  {
    hide Decode;
  }

  lemma {:induction false} PlainBody(s: seq<Unit>, i: nat, allowNonUtf8: bool, naturalUtf8: bool)
    requires i <= |s| && Plain(s, i)
    ensures Body(s, i, allowNonUtf8, naturalUtf8) == Escaped(true, s[i..] + [0x22])
    decreases |s| - i
  {
    hide PieceAt;
    if i < |s| {
      PlainPiece(s, i, allowNonUtf8, naturalUtf8);
      PlainBody(s, i + 1, allowNonUtf8, naturalUtf8);
      assert s[i..] + [0x22] == [s[i]] + (s[i + 1..] + [0x22]);
    } else {
      assert s[i..] + [0x22] == [0x22];
    }
  }

  /** Such text is only put in quotes. */
  lemma PlainIsQuoted(s: seq<Unit>, allowNonUtf8: bool, naturalUtf8: bool)
    requires Plain(s, 0)
    ensures Escape(s, allowNonUtf8, naturalUtf8) == Escaped(true, [0x22] + s + [0x22])
  {
    hide Body;
    PlainBody(s, 0, allowNonUtf8, naturalUtf8);
    assert s[0..] == s && [0x22] + (s + [0x22]) == [0x22] + s + [0x22];
  }

  // -------------------------------------------------------------------- examples

  lemma OnePiece(s: seq<Unit>, text: seq<Unit>, allowNonUtf8: bool)
    requires s != [] && PieceAt(s, 0, allowNonUtf8, false) == Some(Piece(text, |s|))
    ensures Escape(s, allowNonUtf8, false) == Escaped(true, [0x22] + text + [0x22])
  {
    hide PieceAt;
    assert Body(s, |s|, allowNonUtf8, false) == Escaped(true, [0x22]);
    assert [0x22] + (text + [0x22]) == [0x22] + text + [0x22];
  }

  /** Line feed, tab, return, backspace, form feed, quote and backslash have a letter of their own. */
  lemma ShortEscapes()
    ensures Escape([0x0A], false, false).text == [0x22, 0x5C, 0x6E, 0x22]
    ensures Escape([0x09], false, false).text == [0x22, 0x5C, 0x74, 0x22]
    ensures Escape([0x0D], false, false).text == [0x22, 0x5C, 0x72, 0x22]
    ensures Escape([0x08], false, false).text == [0x22, 0x5C, 0x62, 0x22]
    ensures Escape([0x0C], false, false).text == [0x22, 0x5C, 0x66, 0x22]
    ensures Escape([0x22], false, false).text == [0x22, 0x5C, 0x22, 0x22]
    ensures Escape([0x5C], false, false).text == [0x22, 0x5C, 0x5C, 0x22]
  {
    hide Escape;
    OneShort(0x0A, 0x6E);
    OneShort(0x09, 0x74);
    OneShort(0x0D, 0x72);
    OneShort(0x08, 0x62);
    OneShort(0x0C, 0x66);
    OneShort(0x22, 0x22);
    OneShort(0x5C, 0x5C);
  }

  lemma OneShort(c: Unit, letter: Unit)
    requires ShortEscape(c) == Some(letter)
    ensures Escape([c], false, false).text == [0x22, 0x5C, letter, 0x22]
  {
    hide Escape;
    OnePiece([c], [BACKSLASH, letter], false);
    assert [0x22] + [BACKSLASH, letter] + [0x22] == [0x22, 0x5C, letter, 0x22];
  }

  /** A byte that starts no character, where that is allowed. */
  lemma ByteExample()
    ensures Escape([0xFF], true, false).text == [0x22, 0x5C, 0x78, 0x46, 0x46, 0x22]
  {
    hide Escape, IntToStringHex;
    var s: seq<Unit> := [0xFF];
    assert Decode(s, 0) == None;
    TwoDigits(0xFF);
    assert IntToStringHex(0xFF, 2) == [0x46, 0x46];
    OnePiece(s, [BACKSLASH, LETTER_X] + IntToStringHex(0xFF, 2), true);
    assert [0x22] + ([BACKSLASH, LETTER_X] + [0x46, 0x46]) + [0x22] == [0x22, 0x5C, 0x78, 0x46, 0x46, 0x22];
  }

  /** The euro sign. */
  lemma UnicodeExample()
    ensures Escape([0xE2, 0x82, 0xAC], false, false).text == [0x22, 0x5C, 0x75, 0x32, 0x30, 0x41, 0x43, 0x22]
  {
    hide Escape, IntToStringHex;
    var s: seq<Unit> := [0xE2, 0x82, 0xAC];
    assert Decode(s, 0) == Some(Decoded(0x20AC, 3));
    FourDigits(0x20AC);
    assert IntToStringHex(0x20AC, 4) == [0x32, 0x30, 0x41, 0x43];
    OnePiece(s, UnicodeEscape(0x20AC), false);
    assert [0x22] + ([BACKSLASH, LETTER_U] + [0x32, 0x30, 0x41, 0x43]) + [0x22]
        == [0x22, 0x5C, 0x75, 0x32, 0x30, 0x41, 0x43, 0x22];
  }

  // ------------------------------------------------------------------- the loop

  /** What one turn of the loop appends, and where it leaves the position. */
  method EscapeOne(s: seq<Unit>, i: nat, allowNonUtf8: bool, naturalUtf8: bool)
    returns (ok: bool, text: seq<Unit>, next: nat)
    requires i < |s|
    ensures ok <==> PieceAt(s, i, allowNonUtf8, naturalUtf8).Some?
    ensures ok ==> i < next && PieceAt(s, i, allowNonUtf8, naturalUtf8) == Some(Piece(text, next - i))
    ensures !ok ==> text == []
  {
    hide Decode, IntToStringHex, HighSurrogate, LowSurrogate, Encode, Surrogate;
    var c := s[i];
    if ShortEscape(c).Some? {
      return true, [BACKSLASH, ShortEscape(c).value], i + 1;
    }
    if Printable(c) {
      return true, [c], i + 1;
    }
    var ucc, utf8 := FromUTF8(s, i);
    if ucc.None? {
      if allowNonUtf8 {
        return true, [BACKSLASH, LETTER_X] + IntToStringHex(Wide(c), 2), i + 1;
      }
      return false, [], i;
    }
    AcceptedIsShortest(s, i);
    if naturalUtf8 {
      text := s[i..utf8];
    } else if ucc.value <= 0xFFFF {
      text := UnicodeEscape(ucc.value);
    } else {
      var base := Base(ucc.value);
      text := UnicodeEscape(HighSurrogate(base)) + UnicodeEscape(LowSurrogate(base));
    }
    return true, text, utf8;
  }

  /** Appends the quoted text to `buffer`; on failure what was emitted so far stays. */
  method EscapeString(s: seq<Unit>, buffer: seq<Unit>, allowNonUtf8: bool, naturalUtf8: bool)
    returns (ok: bool, text: seq<Unit>)
    ensures ok == Escape(s, allowNonUtf8, naturalUtf8).ok
    ensures text == buffer + Escape(s, allowNonUtf8, naturalUtf8).text
  {
    hide PieceAt;
    text := buffer + [QUOTE];
    var i := 0;
    while i < |s|
      invariant i <= |s|
      invariant Body(s, i, allowNonUtf8, naturalUtf8).ok == Escape(s, allowNonUtf8, naturalUtf8).ok
      invariant text + Body(s, i, allowNonUtf8, naturalUtf8).text
             == buffer + Escape(s, allowNonUtf8, naturalUtf8).text
    {
      var piece, next;
      ok, piece, next := EscapeOne(s, i, allowNonUtf8, naturalUtf8);
      if !ok {
        return;
      }
      PieceMoves(s, i, allowNonUtf8, naturalUtf8);
      text := text + piece;
      i := next;
    }
    text := text + [QUOTE];
    return true, text;
  }
}
