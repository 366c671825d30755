/**
 * `ToUTF8` and `FromUTF8` of Common/library/flatbuffers/util.h, against sections 3 and 4 of RFC 3629.
 */
module Utf8 {
  import opened Wrappers

  type Unit = bv8
  type Code = bv32

  /** The sequence read, followed by the terminator that the code relies on. */
  function At(s: seq<Unit>, i: nat): Unit {
    if i < |s| then s[i] else 0
  }

  function Low(c: Code): Unit {
    (c & 0xFF) as Unit
  }

  function Wide(b: Unit): Code {
    b as Code
  }

  /** A continuation byte holding six bits of `c`, from bit `shift` on. */
  function Tail(c: Code, shift: Code): Unit
    requires shift <= 24
  {
    Low(((c >> shift) & 0x3F) | 0x80)
  }

  /** The first byte: the mark of the length and the highest bits. */
  function First(mark: Code, c: Code): Unit {
    Low(mark | c)
  }

  // ---------------------------------------------------------------- encoding

  /** How many bytes the code needs. */
  function Length(c: Code): nat {
    if c < 0x80 then 1
    else if c < 0x800 then 2
    else if c < 0x1_0000 then 3
    else if c < 0x20_0000 then 4
    else if c < 0x400_0000 then 5
    else 6
  }

  function Encode(c: Code): (s: seq<Unit>)
    requires c < 0x8000_0000
    ensures |s| == Length(c)
  {
    match Length(c)
    case 1 => [Low(c)]
    case 2 => [First(0xC0, c >> 6), Tail(c, 0)]
    case 3 => [First(0xE0, c >> 12), Tail(c, 6), Tail(c, 0)]
    case 4 => [First(0xF0, c >> 18), Tail(c, 12), Tail(c, 6), Tail(c, 0)]
    case 5 => [First(0xF8, c >> 24), Tail(c, 18), Tail(c, 12), Tail(c, 6), Tail(c, 0)]
    case _ => [First(0xFC, c >> 30), Tail(c, 24), Tail(c, 18), Tail(c, 12), Tail(c, 6), Tail(c, 0)]
  }

  // ---------------------------------------------------------------- decoding

  function LeadingOnes(b: Unit): nat {
    if b < 0x80 then 0
    else if b < 0xC0 then 1
    else if b < 0xE0 then 2
    else if b < 0xF0 then 3
    else if b < 0xF8 then 4
    else if b < 0xFC then 5
    else 6
  }

  predicate IsTail(b: Unit) {
    b & 0xC0 == 0x80
  }

  function Join(c: Code, b: Unit): Code {
    (c << 6) | (Wide(b) & 0x3F)
  }

  predicate Surrogate(c: Code) {
    0xD800 <= c <= 0xDFFF
  }

  function Two(b0: Unit, b1: Unit): Option<Code> {
    var c := Join(Wide(b0 & 0x1F), b1);
    if !IsTail(b1) || c < 0x80 then None else Some(c)
  }

  function Three(b0: Unit, b1: Unit, b2: Unit): Option<Code> {
    var c := Join(Join(Wide(b0 & 0x0F), b1), b2);
    if !IsTail(b1) || !IsTail(b2) || Surrogate(c) || c < 0x800 then None else Some(c)
  }

  function Four(b0: Unit, b1: Unit, b2: Unit, b3: Unit): Option<Code> {
    var c := Join(Join(Join(Wide(b0 & 0x07), b1), b2), b3);
    if !IsTail(b1) || !IsTail(b2) || !IsTail(b3) || c < 0x1_0000 || c > 0x10_FFFF then None else Some(c)
  }

  datatype Decoded = Decoded(code: Code, size: nat)

  /** The code at position `i` and the bytes it takes, or nothing where the encoding is corrupt. */
  function Decode(s: seq<Unit>, i: nat): Option<Decoded> {
    match LeadingOnes(At(s, i))
    case 0 => Some(Decoded(Wide(At(s, i)), 1))
    case 2 =>
      var c :- Two(At(s, i), At(s, i + 1));
      Some(Decoded(c, 2))
    case 3 =>
      var c :- Three(At(s, i), At(s, i + 1), At(s, i + 2));
      Some(Decoded(c, 3))
    case 4 =>
      var c :- Four(At(s, i), At(s, i + 1), At(s, i + 2), At(s, i + 3));
      Some(Decoded(c, 4))
    case _ => None
  }

  // ------------------------------------------- the grammar, section 4 of RFC 3629

  predicate Grammar2(b0: Unit, b1: Unit) {
    0xC2 <= b0 <= 0xDF && 0x80 <= b1 <= 0xBF
  }

  predicate Grammar3(b0: Unit, b1: Unit, b2: Unit) {
    && (|| (b0 == 0xE0 && 0xA0 <= b1 <= 0xBF)
        || (0xE1 <= b0 <= 0xEC && 0x80 <= b1 <= 0xBF)
        || (b0 == 0xED && 0x80 <= b1 <= 0x9F)
        || (0xEE <= b0 <= 0xEF && 0x80 <= b1 <= 0xBF))
    && 0x80 <= b2 <= 0xBF
  }

  predicate Grammar4(b0: Unit, b1: Unit, b2: Unit, b3: Unit) {
    && (|| (b0 == 0xF0 && 0x90 <= b1 <= 0xBF)
        || (0xF1 <= b0 <= 0xF3 && 0x80 <= b1 <= 0xBF)
        || (b0 == 0xF4 && 0x80 <= b1 <= 0x8F))
    && 0x80 <= b2 <= 0xBF && 0x80 <= b3 <= 0xBF
  }

  /** `s` is the UTF-8 form of exactly one character. */
  predicate Rfc3629(s: seq<Unit>) {
    match |s|
    case 1 => s[0] <= 0x7F
    case 2 => Grammar2(s[0], s[1])
    case 3 => Grammar3(s[0], s[1], s[2])
    case 4 => Grammar4(s[0], s[1], s[2], s[3])
    case _ => false
  }

  // ----------------------------------------------------------- bits of each form

  lemma TailRange(b: Unit)
    ensures IsTail(b) <==> 0x80 <= b <= 0xBF
  {
  }

  /** The last continuation byte and what precedes it can be taken apart again. */
  lemma JoinSplits(c: Code, b: Unit)
    requires c < 0x400_0000 && IsTail(b)
    ensures Join(c, b) >> 6 == c && Tail(Join(c, b), 0) == b
  {
  }

  lemma SplitJoins(c: Code)
    ensures Join(c >> 6, Tail(c, 0)) == c && IsTail(Tail(c, 0))
  {
  }

  lemma ShiftTwice(c: Code)
    ensures (c >> 6) >> 6 == c >> 12 && (c >> 12) >> 6 == c >> 18
    ensures Tail(c >> 6, 0) == Tail(c, 6) && Tail(c >> 12, 0) == Tail(c, 12)
  {
  }

  lemma FirstBits(b: Unit)
    ensures LeadingOnes(b) == 2 ==> First(0xC0, Wide(b & 0x1F)) == b && Wide(b & 0x1F) < 0x20
    ensures LeadingOnes(b) == 3 ==> First(0xE0, Wide(b & 0x0F)) == b && Wide(b & 0x0F) < 0x10
    ensures LeadingOnes(b) == 4 ==> First(0xF0, Wide(b & 0x07)) == b && Wide(b & 0x07) < 0x8
  {
  }

  lemma FirstOfCode(c: Code)
    ensures c < 0x20 ==> LeadingOnes(First(0xC0, c)) == 2 && Wide(First(0xC0, c) & 0x1F) == c
    ensures c < 0x10 ==> LeadingOnes(First(0xE0, c)) == 3 && Wide(First(0xE0, c) & 0x0F) == c
    ensures c < 0x8 ==> LeadingOnes(First(0xF0, c)) == 4 && Wide(First(0xF0, c) & 0x07) == c
  {
  }

  lemma Magnitudes(c: Code)
    ensures c < 0x80 <==> c >> 6 < 0x2
    ensures c < 0x800 <==> c >> 6 < 0x20
    ensures Surrogate(c) <==> 0x360 <= c >> 6 <= 0x37F
    ensures c < 0x1_0000 <==> c >> 12 < 0x10
    ensures c <= 0x10_FFFF <==> c >> 12 <= 0x10F
    ensures c < 0x20_0000 <==> c >> 18 < 0x8
  {
  }

  /** The range of the first two bytes decides the range of the code. */
  lemma TwoFirst(b0: Unit, b1: Unit)
    requires IsTail(b1)
    ensures LeadingOnes(b0) == 3 ==> var d := Join(Wide(b0 & 0x0F), b1);
      && d < 0x400
      && (d < 0x20 <==> b0 == 0xE0 && b1 < 0xA0)
      && (0x360 <= d <= 0x37F <==> b0 == 0xED && b1 >= 0xA0)
    ensures LeadingOnes(b0) == 4 ==> var d := Join(Wide(b0 & 0x07), b1);
      && d < 0x200
      && (d < 0x10 <==> b0 == 0xF0 && b1 < 0x90)
      && (d > 0x10F <==> b0 > 0xF4 || (b0 == 0xF4 && b1 >= 0x90))
  {
  }

  lemma SplitsInThree(c: Code)
    ensures Join(Join(c >> 12, Tail(c, 6)), Tail(c, 0)) == c
    ensures IsTail(Tail(c, 0)) && IsTail(Tail(c, 6)) && IsTail(Tail(c, 12))
  {
    SplitJoins(c);
    SplitJoins(c >> 6);
    SplitJoins(c >> 12);
    ShiftTwice(c);
    hide Join, Tail, IsTail;
  }

  lemma SplitsInFour(c: Code)
    ensures Join(Join(Join(c >> 18, Tail(c, 12)), Tail(c, 6)), Tail(c, 0)) == c
  {
    SplitsInThree(c);
    SplitJoins(c >> 12);
    ShiftTwice(c);
    hide Join, Tail, IsTail;
  }

  lemma TwoBits(b0: Unit, b1: Unit)
    ensures LeadingOnes(b0) == 2 && Two(b0, b1).Some? <==> Grammar2(b0, b1)
  {
  }

  lemma TwoEncode(b0: Unit, b1: Unit)
    requires LeadingOnes(b0) == 2 && Two(b0, b1).Some?
    ensures var c := Two(b0, b1).value; 0x80 <= c < 0x800 && Encode(c) == [b0, b1]
  {
  }

  lemma ThreeBits(b0: Unit, b1: Unit, b2: Unit)
    ensures LeadingOnes(b0) == 3 && Three(b0, b1, b2).Some? <==> Grammar3(b0, b1, b2)
  {
    TailRange(b1);
    TailRange(b2);
    if LeadingOnes(b0) == 3 && IsTail(b1) && IsTail(b2) {
      var d := Join(Wide(b0 & 0x0F), b1);
      TwoFirst(b0, b1);
      JoinSplits(d, b2);
      Magnitudes(Join(d, b2));
      hide Join, Surrogate;
    }
  }

  lemma ThreeParts(a: Code, b1: Unit, b2: Unit)
    requires a < 0x200 && IsTail(b1) && IsTail(b2)
    ensures var c := Join(Join(a, b1), b2); c >> 12 == a && Tail(c, 6) == b1 && Tail(c, 0) == b2
  {
    var d := Join(a, b1);
    JoinBelow(a, b1);
    JoinSplits(a, b1);
    JoinSplits(d, b2);
    ShiftTwice(Join(d, b2));
    hide Join, Tail, IsTail;
  }

  lemma ThreeEncode(b0: Unit, b1: Unit, b2: Unit)
    requires LeadingOnes(b0) == 3 && Three(b0, b1, b2).Some?
    ensures var c := Three(b0, b1, b2).value;
      0x800 <= c < 0x1_0000 && !Surrogate(c) && Encode(c) == [b0, b1, b2]
  {
    FirstBits(b0);
    var a := Wide(b0 & 0x0F);
    ThreeParts(a, b1, b2);
    Magnitudes(Join(Join(a, b1), b2));
    hide Join, Surrogate, Tail, First, IsTail, LeadingOnes;
  }

  lemma FourRange(b0: Unit, b1: Unit, b2: Unit, b3: Unit)
    requires LeadingOnes(b0) == 4 && IsTail(b1) && IsTail(b2) && IsTail(b3)
    ensures var c := Join(Join(Join(Wide(b0 & 0x07), b1), b2), b3);
      && (c < 0x1_0000 <==> b0 == 0xF0 && b1 < 0x90)
      && (c > 0x10_FFFF <==> b0 > 0xF4 || (b0 == 0xF4 && b1 >= 0x90))
  {
    var d := Join(Wide(b0 & 0x07), b1);
    TwoFirst(b0, b1);
    ThreeParts(d, b2, b3);
    Magnitudes(Join(Join(d, b2), b3));
    hide Join, Surrogate, Tail, IsTail, LeadingOnes;
  }

  lemma FourBits(b0: Unit, b1: Unit, b2: Unit, b3: Unit)
    ensures LeadingOnes(b0) == 4 && Four(b0, b1, b2, b3).Some? <==> Grammar4(b0, b1, b2, b3)
  {
    TailRange(b1);
    TailRange(b2);
    TailRange(b3);
    if LeadingOnes(b0) == 4 && IsTail(b1) && IsTail(b2) && IsTail(b3) {
      FourRange(b0, b1, b2, b3);
    }
    hide Join, IsTail;
  }

  lemma JoinBelow(c: Code, b: Unit)
    requires c < 0x200
    ensures Join(c, b) < 0x8000 && (c < 0x10 ==> Join(c, b) < 0x400) && (c < 0x8 ==> Join(c, b) < 0x200)
  {
  }

  lemma FourParts(a: Code, b1: Unit, b2: Unit, b3: Unit)
    requires a < 0x8 && IsTail(b1) && IsTail(b2) && IsTail(b3)
    ensures var c := Join(Join(Join(a, b1), b2), b3);
      c >> 18 == a && Tail(c, 12) == b1 && Tail(c, 6) == b2 && Tail(c, 0) == b3
  {
    var e := Join(Join(a, b1), b2);
    ThreeParts(a, b1, b2);
    JoinBelow(a, b1);
    JoinBelow(Join(a, b1), b2);
    JoinSplits(e, b3);
    ShiftTwice(Join(e, b3));
    ShiftTwice(e);
    hide Join, Tail, IsTail;
  }

  lemma FourEncode(b0: Unit, b1: Unit, b2: Unit, b3: Unit)
    requires LeadingOnes(b0) == 4 && Four(b0, b1, b2, b3).Some?
    ensures var c := Four(b0, b1, b2, b3).value;
      0x1_0000 <= c <= 0x10_FFFF && Encode(c) == [b0, b1, b2, b3]
  {
    FirstBits(b0);
    var a := Wide(b0 & 0x07);
    FourParts(a, b1, b2, b3);
    Highest(Join(Join(Join(a, b1), b2), b3));
    hide Join, Surrogate, Tail, First, IsTail, LeadingOnes;
  }

  lemma EncodedTwo(c: Code)
    requires 0x80 <= c < 0x800
    ensures var e := Encode(c); LeadingOnes(e[0]) == 2 && Two(e[0], e[1]) == Some(c)
  {
    Magnitudes(c);
    FirstOfCode(c >> 6);
    SplitJoins(c);
    hide Join, Surrogate, Tail, First, IsTail, LeadingOnes;
  }

  lemma EncodedThree(c: Code)
    requires 0x800 <= c < 0x1_0000 && !Surrogate(c)
    ensures var e := Encode(c); LeadingOnes(e[0]) == 3 && Three(e[0], e[1], e[2]) == Some(c)
  {
    var a := c >> 12;
    Magnitudes(c);
    Highest(c);
    FirstOfCode(a);
    SplitsInThree(c);
    hide Join, Surrogate, Tail, First, IsTail, LeadingOnes;
  }

  lemma EncodedFour(c: Code)
    requires 0x1_0000 <= c <= 0x10_FFFF
    ensures var e := Encode(c); LeadingOnes(e[0]) == 4 && Four(e[0], e[1], e[2], e[3]) == Some(c)
  {
    var a := c >> 18;
    Highest(c);
    FirstOfCode(a);
    SplitsInThree(c);
    SplitsInFour(c);
    hide Join, Surrogate, Tail, First, IsTail, LeadingOnes;
  }

  lemma Highest(c: Code)
    requires c <= 0x10_FFFF
    ensures c < 0x20_0000 && c >> 18 < 0x8 && (c < 0x1_0000 ==> c >> 12 < 0x10)
  {
  }

  // --------------------------------------------------------------- main results

  /** Past the end there is no continuation byte. */
  lemma TailInside(s: seq<Unit>, i: nat)
    requires IsTail(At(s, i))
    ensures i < |s|
  {
  }

  /** `d` describes one character of the grammar at position `i`, in the form the encoder gives it. */
  predicate Describes(s: seq<Unit>, i: nat, d: Decoded) {
    && 1 <= d.size && i + d.size <= |s|
    && Rfc3629(s[i..i + d.size])
    && d.code <= 0x10_FFFF && !Surrogate(d.code)
    && Encode(d.code) == s[i..i + d.size]
  }

  lemma DescribesOne(s: seq<Unit>, i: nat)
    requires i < |s| && s[i] < 0x80
    ensures Describes(s, i, Decoded(Wide(s[i]), 1))
  {
    assert s[i..i + 1] == [s[i]];
  }

  lemma DescribesTwo(s: seq<Unit>, i: nat)
    requires i + 1 < |s| && LeadingOnes(s[i]) == 2 && Two(s[i], s[i + 1]).Some?
    ensures Describes(s, i, Decoded(Two(s[i], s[i + 1]).value, 2))
  {
    assert s[i..i + 2] == [s[i], s[i + 1]];
    TwoBits(s[i], s[i + 1]);
    TwoEncode(s[i], s[i + 1]);
    hide Two, Encode, Grammar2;
  }

  lemma DescribesThree(s: seq<Unit>, i: nat)
    requires i + 2 < |s| && LeadingOnes(s[i]) == 3 && Three(s[i], s[i + 1], s[i + 2]).Some?
    ensures Describes(s, i, Decoded(Three(s[i], s[i + 1], s[i + 2]).value, 3))
  {
    assert s[i..i + 3] == [s[i], s[i + 1], s[i + 2]];
    ThreeBits(s[i], s[i + 1], s[i + 2]);
    ThreeEncode(s[i], s[i + 1], s[i + 2]);
    hide Three, Encode, Grammar3, Surrogate;
  }

  lemma DescribesFour(s: seq<Unit>, i: nat)
    requires i + 3 < |s| && LeadingOnes(s[i]) == 4 && Four(s[i], s[i + 1], s[i + 2], s[i + 3]).Some?
    ensures Describes(s, i, Decoded(Four(s[i], s[i + 1], s[i + 2], s[i + 3]).value, 4))
  {
    assert s[i..i + 4] == [s[i], s[i + 1], s[i + 2], s[i + 3]];
    FourBits(s[i], s[i + 1], s[i + 2], s[i + 3]);
    FourEncode(s[i], s[i + 1], s[i + 2], s[i + 3]);
    hide Four, Encode, Grammar4;
  }

  /**
   * What is accepted lies inside the sequence, is one character of the grammar, and is exactly what
   * the encoder writes for the code: the shortest form.
   */
  lemma AcceptedIsShortest(s: seq<Unit>, i: nat)
    requires i < |s| && Decode(s, i).Some?
    ensures Describes(s, i, Decode(s, i).value)
  {
    hide Describes;
    match LeadingOnes(s[i])
    case 0 =>
      DescribesOne(s, i);
    case 2 =>
      TailInside(s, i + 1);
      DescribesTwo(s, i);
    case 3 =>
      TailInside(s, i + 1);
      TailInside(s, i + 2);
      DescribesThree(s, i);
    case 4 =>
      TailInside(s, i + 1);
      TailInside(s, i + 2);
      TailInside(s, i + 3);
      DescribesFour(s, i);
    case _ =>
  }

  /** Every character of the grammar is accepted, with its own length, whatever follows it. */
  lemma GrammarIsAccepted(s: seq<Unit>, i: nat, n: nat)
    requires i + n <= |s| && Rfc3629(s[i..i + n])
    ensures Decode(s, i).Some? && Decode(s, i).value.size == n
  {
    var t := s[i..i + n];
    hide Two, Three, Four, Grammar2, Grammar3, Grammar4;
    match n
    case 1 =>
    case 2 => TwoBits(t[0], t[1]);
    case 3 => ThreeBits(t[0], t[1], t[2]);
    case 4 => FourBits(t[0], t[1], t[2], t[3]);
    case _ =>
  }

  /** Every Unicode scalar value survives, consuming exactly the bytes written, whatever surrounds them. */
  lemma EncodeThenDecode(c: Code, before: seq<Unit>, after: seq<Unit>)
    requires c <= 0x10_FFFF && !Surrogate(c)
    ensures Decode(before + Encode(c) + after, |before|) == Some(Decoded(c, Length(c)))
  {
    var s := before + Encode(c) + after;
    assert s[|before|..|before| + Length(c)] == Encode(c);
    if c < 0x80 {
      OneBits(c);
    } else if c < 0x800 {
      EncodedTwo(c);
    } else if c < 0x1_0000 {
      EncodedThree(c);
    } else {
      Highest(c);
      EncodedFour(c);
    }
    hide Two, Three, Four, Encode, LeadingOnes, Surrogate;
  }

  lemma OneBits(c: Code)
    requires c < 0x80
    ensures Encode(c) == [Low(c)] && LeadingOnes(Low(c)) == 0 && Wide(Low(c)) == c
  {
  }

  // ------------------------------------------------------------------- the loops

  function MaxBits(i: Code): Code
    requires i < 6
  {
    6 + i * 5 + if i == 0 then 1 else 0
  }

  function FirstByte(c: Code, i: Code): Unit
    requires i < 6
  {
    Low((0xFE << (MaxBits(i) - i * 6)) | (c >> (i * 6)))
  }

  /** The continuation bytes from the `j`th on, the last six bits last. */
  function Tails(c: Code, j: Code): seq<Unit>
    requires j <= 5
    decreases j
  {
    if j == 0 then [] else [Tail(c, (j - 1) * 6)] + Tails(c, j - 1)
  }

  lemma TailsNone(c: Code)
    ensures Tails(c, 0) == []
  {
  }

  lemma TailsFirst(c: Code, j: Code)
    requires j < 5
    ensures Tails(c, j + 1) == [Low(((c >> (j * 6)) & 0x3F) | 0x80)] + Tails(c, j)
  {
  }

  /** The code needs exactly `i` continuation bytes. */
  predicate Needs(c: Code, i: Code) {
    match i
    case 0 => c < 0x80
    case 1 => 0x80 <= c < 0x800
    case 2 => 0x800 <= c < 0x1_0000
    case 3 => 0x1_0000 <= c < 0x20_0000
    case 4 => 0x20_0000 <= c < 0x400_0000
    case 5 => 0x400_0000 <= c < 0x8000_0000
    case _ => false
  }

  lemma FirstByteIs(c: Code, i: Code)
    requires Needs(c, i) && i < 6
    ensures FirstByte(c, i) ==
      match i
      case 0 => Low(c)
      case 1 => First(0xC0, c >> 6)
      case 2 => First(0xE0, c >> 12)
      case 3 => First(0xF0, c >> 18)
      case 4 => First(0xF8, c >> 24)
      case _ => First(0xFC, c >> 30)
  {
  }

  lemma TailsAre(c: Code, i: Code)
    requires i <= 5
    ensures Tails(c, i) ==
      match i
      case 0 => []
      case 1 => [Tail(c, 0)]
      case 2 => [Tail(c, 6), Tail(c, 0)]
      case 3 => [Tail(c, 12), Tail(c, 6), Tail(c, 0)]
      case 4 => [Tail(c, 18), Tail(c, 12), Tail(c, 6), Tail(c, 0)]
      case _ => [Tail(c, 24), Tail(c, 18), Tail(c, 12), Tail(c, 6), Tail(c, 0)]
  {
    if i > 0 {
      TailsAre(c, i - 1);
    }
  }

  lemma BytesAreEncoding(c: Code, i: Code)
    requires i < 6 && Needs(c, i)
    ensures [FirstByte(c, i)] + Tails(c, i) == Encode(c) && Length(c) == i as nat + 1
  {
    FirstByteIs(c, i);
    TailsAre(c, i);
    hide Tail, First, FirstByte, Low;
  }

  /** The bounds tested so far have all been too small. */
  lemma FitsExactly(c: Code, i: Code)
    requires i < 6 && (i == 0 || c >= 1 << MaxBits(i - 1)) && c < 1 << MaxBits(i)
    ensures Needs(c, i)
  {
  }

  /** Appends the encoding of `ucc` to `out` and returns the number of bytes added. */
  method ToUTF8(ucc: Code, out: seq<Unit>) returns (added: nat, result: seq<Unit>)
    requires ucc < 0x8000_0000
    ensures result == out + Encode(ucc) && added == Length(ucc)
  {
    hide Encode, Tail, Tails, FirstByte, Needs, Length;
    added, result := 0, out;
    var i: Code := 0;
    while i < 6
      invariant i <= 6 && result == out
      invariant i == 0 || ucc >= 1 << MaxBits(i - 1)
      decreases 6 - i
    {
      if ucc < 1 << MaxBits(i) {
        FitsExactly(ucc, i);
        result := result + [FirstByte(ucc, i)];
        var j := i;
        while j > 0
          invariant j <= i
          invariant result + Tails(ucc, j) == out + ([FirstByte(ucc, i)] + Tails(ucc, i))
        {
          j := j - 1;
          TailsFirst(ucc, j);
          result := result + [Low(((ucc >> (j * 6)) & 0x3F) | 0x80)];
        }
        TailsNone(ucc);
        BytesAreEncoding(ucc, i);
        return i as nat + 1, result;
      }
      i := i + 1;
    }
  }

  /** The bits of `k` continuation bytes from position `p` on, appended to `c`. */
  function Gathered(s: seq<Unit>, p: nat, c: Code, k: nat): Option<Code>
    decreases k
  {
    if k == 0 then Some(c)
    else if !IsTail(At(s, p)) then None
    else Gathered(s, p + 1, Join(c, At(s, p)), k - 1)
  }

  /** The tests made once all bytes are read. */
  function Checked(c: Code, len: nat): Option<Code> {
    if Surrogate(c) then None
    else if len == 2 then (if c < 0x80 || c > 0x7FF then None else Some(c))
    else if len == 3 then (if c < 0x800 || c > 0xFFFF then None else Some(c))
    else (if c < 0x1_0000 || c > 0x10_FFFF then None else Some(c))
  }

  /** The first byte without its mark. */
  function Payload(b: Unit, len: nat): Code {
    if len == 2 then Wide(b & 0x1F) else if len == 3 then Wide(b & 0x0F) else Wide(b & 0x07)
  }

  lemma CheckedTwo(c: Code, b: Unit)
    requires c < 0x20
    ensures var d := Join(c, b); !Surrogate(d) && d <= 0x7FF
  {
  }

  lemma CheckedThree(c: Code, b: Unit)
    requires c < 0x400
    ensures Join(c, b) <= 0xFFFF
  {
  }

  lemma NotSurrogate(c: Code)
    requires c >= 0x1_0000
    ensures !Surrogate(c)
  {
  }

  lemma GatheredIsDecode(s: seq<Unit>, i: nat, len: nat)
    requires len == LeadingOnes(At(s, i)) && 2 <= len <= 4
    ensures var g := Gathered(s, i + 1, Payload(At(s, i), len), len - 1);
      Decode(s, i) == if g.None? || Checked(g.value, len).None? then None else Some(Decoded(g.value, len))
  {
    var b0, b1, b2, b3 := At(s, i), At(s, i + 1), At(s, i + 2), At(s, i + 3);
    FirstBits(b0);
    var a := Payload(b0, len);
    if len == 2 {
      TwoIs(s, i);
      CheckedTwo(a, b1);
    } else if len == 3 {
      ThreeIs(s, i);
      JoinBelow(a, b1);
      CheckedThree(Join(a, b1), b2);
    } else {
      FourIs(s, i);
      var c := Join(Join(Join(a, b1), b2), b3);
      if c >= 0x1_0000 {
        NotSurrogate(c);
      }
    }
    hide Join, Surrogate, IsTail, LeadingOnes, Gathered;
  }

  lemma TwoIs(s: seq<Unit>, i: nat)
    ensures Gathered(s, i + 1, Wide(At(s, i) & 0x1F), 1) ==
      if IsTail(At(s, i + 1)) then Some(Join(Wide(At(s, i) & 0x1F), At(s, i + 1))) else None
  {
    hide Join, IsTail, At;
  }

  lemma ThreeIs(s: seq<Unit>, i: nat)
    ensures Gathered(s, i + 1, Wide(At(s, i) & 0x0F), 2) ==
      if IsTail(At(s, i + 1)) && IsTail(At(s, i + 2)) then
        Some(Join(Join(Wide(At(s, i) & 0x0F), At(s, i + 1)), At(s, i + 2)))
      else None
  {
    hide Join, IsTail, At;
    assert Gathered(s, i + 2, Join(Wide(At(s, i) & 0x0F), At(s, i + 1)), 1) ==
      if IsTail(At(s, i + 2)) then Some(Join(Join(Wide(At(s, i) & 0x0F), At(s, i + 1)), At(s, i + 2))) else None;
  }

  lemma FourIs(s: seq<Unit>, i: nat)
    ensures Gathered(s, i + 1, Wide(At(s, i) & 0x07), 3) ==
      if IsTail(At(s, i + 1)) && IsTail(At(s, i + 2)) && IsTail(At(s, i + 3)) then
        Some(Join(Join(Join(Wide(At(s, i) & 0x07), At(s, i + 1)), At(s, i + 2)), At(s, i + 3)))
      else None
  {
    hide Join, IsTail, At;
    var d := Join(Wide(At(s, i) & 0x07), At(s, i + 1));
    assert Gathered(s, i + 3, Join(d, At(s, i + 2)), 1) ==
      if IsTail(At(s, i + 3)) then Some(Join(Join(d, At(s, i + 2)), At(s, i + 3))) else None;
    assert Gathered(s, i + 2, d, 2) ==
      if IsTail(At(s, i + 2)) then Gathered(s, i + 3, Join(d, At(s, i + 2)), 1) else None;
  }

  /** The tested bits are the leading ones, and the next one is zero just when the length may be valid. */
  method CountLeading(b: Unit) returns (len: nat)
    ensures len == LeadingOnes(b)
  {
    len := 0;
    var mask: Unit := 0x80;
    while mask >= 0x04
      invariant (mask, len) in {(0x80, 0), (0x40, 1), (0x20, 2), (0x10, 3), (0x08, 4), (0x04, 5), (0x02, 6)}
      invariant len == 0 || b >= LeastWith(len)
      decreases 6 - len
    {
      if b & mask == 0 {
        return;
      }
      len := len + 1;
      mask := mask >> 1;
    }
  }

  /** The least byte with `n` leading ones. */
  function LeastWith(n: nat): Unit {
    match n
    case 0 => 0
    case 1 => 0x80
    case 2 => 0xC0
    case 3 => 0xE0
    case 4 => 0xF0
    case 5 => 0xF8
    case _ => 0xFC
  }

  /** Reads one character from position `pos` and moves past it. */
  method FromUTF8(s: seq<Unit>, pos: nat) returns (ucc: Option<Code>, next: nat)
    ensures ucc.None? <==> Decode(s, pos).None?
    ensures ucc.Some? ==> pos < next && Decode(s, pos) == Some(Decoded(ucc.value, next - pos))
  {
    next := pos;
    var len := CountLeading(At(s, next));
    if NextBit(At(s, next), len) {
      return None, next;
    }
    if len == 0 {
      return Some(Wide(At(s, next))), next + 1;
    }
    if len < 2 || len > 4 {
      return None, next;
    }
    var c := Payload(At(s, next), len);
    next := next + 1;
    var i := 0;
    while i < len - 1
      invariant i <= len - 1 && next == pos + 1 + i
      invariant Gathered(s, next, c, len - 1 - i) == Gathered(s, pos + 1, Payload(At(s, pos), len), len - 1)
    {
      if !IsTail(At(s, next)) {
        GatheredIsDecode(s, pos, len);
        return None, next;
      }
      c := Join(c, At(s, next));
      next := next + 1;
      i := i + 1;
    }
    GatheredIsDecode(s, pos, len);
    return Checked(c, len), next;
  }

  /** The bit after `len` leading ones. */
  predicate NextBit(b: Unit, len: nat) {
    match len
    case 0 => Wide(b) & 0x80 != 0
    case 1 => (Wide(b) << 1) & 0x80 != 0
    case 2 => (Wide(b) << 2) & 0x80 != 0
    case 3 => (Wide(b) << 3) & 0x80 != 0
    case 4 => (Wide(b) << 4) & 0x80 != 0
    case 5 => (Wide(b) << 5) & 0x80 != 0
    case _ => (Wide(b) << 6) & 0x80 != 0
  }

  /** Characters from the examples of section 7 of RFC 3629. */
  lemma Examples()
    ensures Encode(0x41) == [0x41] && Encode(0x391) == [0xCE, 0x91] && Encode(0x2262) == [0xE2, 0x89, 0xA2]
    ensures Encode(0x233B4) == [0xF0, 0xA3, 0x8E, 0xB4]
  {
  }
}
