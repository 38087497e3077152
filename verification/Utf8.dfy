/** Cutting text at a byte budget without splitting a character
    (TruncateRunes in apps/ai-service/internal/decision/state.go). Well-formed
    bytes are those of section 4 of RFC 3629. */
module Utf8 {
  type Byte = b: int | 0 <= b < 256

  /** Not a continuation byte 10xxxxxx. */
  predicate RuneStart(b: Byte) { !(0x80 <= b <= 0xBF) }

  predicate Tail(b: Byte) { 0x80 <= b <= 0xBF }

  /** The length of the well-formed character a string starts with, 0 if none. */
  function CharLength(s: seq<Byte>): (n: nat)
    ensures n <= |s| && n <= 4
    ensures n > 0 ==> RuneStart(s[0]) && forall i :: 1 <= i < n ==> !RuneStart(s[i])
  {
    if |s| == 0 then 0
    else if s[0] <= 0x7F then 1
    else if 0xC2 <= s[0] <= 0xDF then (if |s| >= 2 && Tail(s[1]) then 2 else 0)
    else if 0xE0 <= s[0] <= 0xEF then
      (if |s| >= 3 && Tail(s[1]) && Tail(s[2]) && Second(s[0], s[1]) then 3 else 0)
    else if 0xF0 <= s[0] <= 0xF4 then
      (if |s| >= 4 && Tail(s[1]) && Tail(s[2]) && Tail(s[3]) && Second(s[0], s[1]) then 4 else 0)
    else 0
  }

  /** Second bytes excluded as overlong, as surrogates or as past U+10FFFF. */
  predicate Second(first: Byte, second: Byte) {
    && (first == 0xE0 ==> second >= 0xA0)
    && (first == 0xED ==> second <= 0x9F)
    && (first == 0xF0 ==> second >= 0x90)
    && (first == 0xF4 ==> second <= 0x8F)
  }

  predicate Valid(s: seq<Byte>)
    decreases |s|
  {
    |s| > 0 ==> CharLength(s) > 0 && Valid(s[CharLength(s)..])
  }

  /** The place of the cut, for any bytes: the last rune start at or before the
      budget, or the front. */
  ghost predicate IsCut(s: seq<Byte>, maxBytes: nat, cut: nat) {
    && cut <= |s| && cut <= maxBytes
    && (|s| <= maxBytes ==> cut == |s|)
    && (|s| > maxBytes ==>
          && (cut > 0 ==> RuneStart(s[cut]))
          && forall i :: cut < i <= maxBytes ==> !RuneStart(s[i]))
  }

  method TruncateRunes(value: seq<Byte>, maxBytes: nat) returns (r: seq<Byte>)
    ensures r <= value && IsCut(value, maxBytes, |r|)
    ensures Valid(value) ==> IsWholePrefix(value, maxBytes, |r|)
  {
    if |value| <= maxBytes {
      WholeIsPrefix(value, maxBytes);
      return value;
    }
    var cut := maxBytes;
    while cut > 0 && !RuneStart(value[cut])
      invariant 0 <= cut <= maxBytes < |value|
      invariant forall i :: cut < i <= maxBytes ==> !RuneStart(value[i])
    {
      cut := cut - 1;
    }
    if Valid(value) { CutIsLongest(value, maxBytes, cut); }
    r := value[..cut];
  }

  /** The longest prefix of whole characters within the budget; it gives up at
      most three bytes of the budget. */
  ghost predicate IsWholePrefix(s: seq<Byte>, maxBytes: nat, k: nat) {
    && k <= |s| && k <= maxBytes
    && Valid(s[..k]) && Valid(s[k..])
    && (forall j :: k < j <= |s| && j <= maxBytes ==> !Valid(s[..j]))
    && (|s| > maxBytes ==> maxBytes - k <= 3)
  }

  lemma WholeIsPrefix(s: seq<Byte>, maxBytes: nat)
    requires |s| <= maxBytes
    ensures Valid(s) ==> IsWholePrefix(s, maxBytes, |s|)
  {
    assert s[..|s|] == s && s[|s|..] == [];
  }

  /** A character's length does not depend on what follows it, and a part of a
      character is none. */
  lemma CharLengthPrefix(s: seq<Byte>, k: nat)
    requires k <= |s| && CharLength(s) > 0
    ensures CharLength(s) <= k ==> CharLength(s[..k]) == CharLength(s)
    ensures k < CharLength(s) ==> CharLength(s[..k]) == 0
  {
  }

  /** In well-formed text the rune starts are exactly the places that split it
      into well-formed halves. */
  lemma {:induction false} StartsAreSplits(s: seq<Byte>, k: nat)
    requires Valid(s) && k < |s|
    ensures RuneStart(s[k]) <==> Valid(s[..k])
    ensures RuneStart(s[k]) ==> Valid(s[k..])
    ensures exists i :: 0 <= i <= k && k - i <= 3 && RuneStart(s[i])
    decreases |s|
  {
    var n := CharLength(s);
    CharLengthPrefix(s, k);
    if k == 0 {
      assert s[0..] == s;
    } else if k < n {
      assert RuneStart(s[0]) && k - 0 <= 3;
    } else {
      var rest := s[n..];
      StartsAreSplits(rest, k - n);
      assert s[..k][n..] == rest[..k - n] && s[k..] == rest[k - n..];
      var i :| 0 <= i <= k - n && k - n - i <= 3 && RuneStart(rest[i]);
      assert rest[i] == s[n + i];
    }
  }

  lemma CutIsLongest(s: seq<Byte>, maxBytes: nat, cut: nat)
    requires Valid(s) && maxBytes < |s| && cut <= maxBytes
    requires cut == 0 || RuneStart(s[cut])
    requires forall i :: cut < i <= maxBytes ==> !RuneStart(s[i])
    ensures IsWholePrefix(s, maxBytes, cut)
  {
    StartsAreSplits(s, cut);
    StartsAreSplits(s, maxBytes);
    StartsAreSplits(s, 0);
    var i :| 0 <= i <= maxBytes && maxBytes - i <= 3 && RuneStart(s[i]);
    forall j | cut < j <= |s| && j <= maxBytes ensures !Valid(s[..j]) { StartsAreSplits(s, j); }
  }

  /** The prefix is unique, so every correct cut is this one. */
  lemma WholePrefixIsUnique(s: seq<Byte>, maxBytes: nat, j: nat, k: nat)
    requires IsWholePrefix(s, maxBytes, j) && IsWholePrefix(s, maxBytes, k)
    ensures j == k
  {
  }

  lemma CharLengthJoin(a: seq<Byte>, b: seq<Byte>)
    requires CharLength(a) > 0
    ensures CharLength(a + b) == CharLength(a)
  {
  }

  /** Whole texts join to whole text. */
  lemma {:induction false} ValidJoin(a: seq<Byte>, b: seq<Byte>)
    requires Valid(a) && Valid(b)
    ensures Valid(a + b)
    decreases |a|
  {
    hide CharLength;
    if |a| == 0 {
      assert a + b == b;
    } else {
      var n := CharLength(a);
      CharLengthJoin(a, b);
      ValidJoin(a[n..], b);
      assert (a + b)[n..] == a[n..] + b;
    }
  }

  // ----- Well-formed text is encoded text

  /** A Unicode scalar value. */
  predicate Scalar(c: int) { 0 <= c <= 0x10FFFF && !(0xD800 <= c <= 0xDFFF) }

  /** The bytes of a scalar value (section 3 of RFC 3629). */
  function Encode(c: int): (s: seq<Byte>)
    requires Scalar(c)
    ensures 1 <= |s| <= 4
  {
    if c < 0x80 then [c]
    else if c < 0x800 then [0xC0 + c / 64, 0x80 + c % 64]
    else if c < 0x10000 then [0xE0 + c / 4096, 0x80 + c / 64 % 64, 0x80 + c % 64]
    else [0xF0 + c / 262144, 0x80 + c / 4096 % 64, 0x80 + c / 64 % 64, 0x80 + c % 64]
  }

  function Two(a: int, b: int): int { (a - 0xC0) * 64 + (b - 0x80) }

  function Three(a: int, b: int, c: int): int { (a - 0xE0) * 4096 + (b - 0x80) * 64 + (c - 0x80) }

  function Four(a: int, b: int, c: int, d: int): int {
    (a - 0xF0) * 262144 + (b - 0x80) * 4096 + (c - 0x80) * 64 + (d - 0x80)
  }

  lemma TwoBytes(a: Byte, b: Byte)
    requires 0xC2 <= a <= 0xDF && Tail(b)
    ensures Scalar(Two(a, b)) && Encode(Two(a, b)) == [a, b]
  {
    assert Two(a, b) / 64 == a - 0xC0 && Two(a, b) % 64 == b - 0x80;
  }

  lemma ThreeBytes(a: Byte, b: Byte, c: Byte)
    requires 0xE0 <= a <= 0xEF && Tail(b) && Tail(c) && Second(a, b)
    ensures Scalar(Three(a, b, c)) && Encode(Three(a, b, c)) == [a, b, c]
  {
    var v := Three(a, b, c);
    assert v / 64 == (a - 0xE0) * 64 + (b - 0x80) && v % 64 == c - 0x80;
    assert v / 64 % 64 == b - 0x80;
    assert v / 4096 == a - 0xE0;
  }

  lemma FourBytes(a: Byte, b: Byte, c: Byte, d: Byte)
    requires 0xF0 <= a <= 0xF4 && Tail(b) && Tail(c) && Tail(d) && Second(a, b)
    ensures Scalar(Four(a, b, c, d)) && Encode(Four(a, b, c, d)) == [a, b, c, d]
  {
    var v := Four(a, b, c, d);
    assert v / 64 == (a - 0xF0) * 4096 + (b - 0x80) * 64 + (c - 0x80) && v % 64 == d - 0x80;
    assert v / 64 % 64 == c - 0x80;
    assert v / 4096 == (a - 0xF0) * 64 + (b - 0x80) && v / 4096 % 64 == b - 0x80;
    assert v / 262144 == a - 0xF0;
  }

  /** The scalar value the leading character stands for. */
  function Decode(s: seq<Byte>): int
    requires CharLength(s) > 0
  {
    match CharLength(s)
    case 1 => s[0]
    case 2 => Two(s[0], s[1])
    case 3 => Three(s[0], s[1], s[2])
    case _ => Four(s[0], s[1], s[2], s[3])
  }

  /** A well-formed character is the bytes of a scalar value. */
  lemma DecodedChar(s: seq<Byte>)
    requires CharLength(s) > 0
    ensures Scalar(Decode(s)) && s[..CharLength(s)] == Encode(Decode(s))
  {
    hide Encode, Scalar, Two, Three, Four;
    match CharLength(s)
    case 1 => OneByte(s[0]);
    case 2 => TwoBytes(s[0], s[1]);
    case 3 => ThreeBytes(s[0], s[1], s[2]);
    case _ => FourBytes(s[0], s[1], s[2], s[3]);
  }

  lemma OneByte(a: Byte)
    requires a < 0x80
    ensures Scalar(a) && Encode(a) == [a]
  {}

  /** The bytes of a scalar value are one well-formed character. */
  lemma EncodedChar(s: seq<Byte>, c: int)
    requires Scalar(c) && Encode(c) <= s
    ensures CharLength(s) == |Encode(c)|
  {
    var e := Encode(c);
    EncodeBytes(c);
    hide Encode;
    assert forall i :: 0 <= i < |e| ==> s[i] == e[i];
  }

  /** Which bytes stand where. */
  lemma EncodeBytes(c: int)
    requires Scalar(c)
    ensures var e := Encode(c);
      match |e|
      case 1 => e[0] < 0x80
      case 2 => 0xC2 <= e[0] <= 0xDF && Tail(e[1])
      case 3 => 0xE0 <= e[0] <= 0xEF && Tail(e[1]) && Tail(e[2]) && Second(e[0], e[1])
      case _ => 0xF0 <= e[0] <= 0xF4 && Tail(e[1]) && Tail(e[2]) && Tail(e[3]) && Second(e[0], e[1])
  {
    if 0x10000 <= c {
      FourSecond(c);
    } else if 0x800 <= c {
      ThreeSecond(c);
    }
  }

  lemma ThreeSecond(c: int)
    requires Scalar(c) && 0x800 <= c < 0x10000
    ensures Second(0xE0 + c / 4096, 0x80 + c / 64 % 64)
  {
    assert c / 64 == c / 4096 * 64 + c / 64 % 64;
  }

  lemma FourSecond(c: int)
    requires Scalar(c) && 0x10000 <= c
    ensures 0xF0 + c / 262144 <= 0xF4 && Second(0xF0 + c / 262144, 0x80 + c / 4096 % 64)
  {
    assert c / 4096 == c / 262144 * 64 + c / 4096 % 64;
  }

  /** The bytes of a text. */
  function Encoded(text: seq<int>): (s: seq<Byte>)
    requires IsText(text)
  {
    if text == [] then [] else Encode(text[0]) + Encoded(text[1..])
  }

  predicate IsText(text: seq<int>) { forall i :: 0 <= i < |text| ==> Scalar(text[i]) }

  /** Well-formed bytes are exactly the bytes of some text. */
  lemma ValidExactly(s: seq<Byte>)
    ensures Valid(s) <==> exists text :: IsText(text) && Encoded(text) == s
  {
    if Valid(s) { var text := TextOf(s); }
    forall text | IsText(text) && Encoded(text) == s ensures Valid(s) { EncodedIsValid(text); }
  }

  lemma {:induction false} EncodedIsValid(text: seq<int>)
    requires IsText(text)
    ensures Valid(Encoded(text))
  {
    if text != [] {
      hide CharLength, Encode;
      var s := Encoded(text);
      EncodedChar(s, text[0]);
      EncodedIsValid(text[1..]);
      assert s[|Encode(text[0])|..] == Encoded(text[1..]);
    }
  }

  lemma ValidStep(s: seq<Byte>)
    requires Valid(s) && s != []
    ensures CharLength(s) > 0 && Valid(s[CharLength(s)..])
  {}

  lemma EncodedNone()
    ensures IsText([]) && Encoded([]) == []
  {}

  lemma EncodedMore(c: int, rest: seq<int>)
    requires Scalar(c) && IsText(rest)
    ensures IsText([c] + rest) && Encoded([c] + rest) == Encode(c) + Encoded(rest)
  {
    hide Encode, Scalar;
    assert ([c] + rest)[1..] == rest;
  }

  lemma {:induction false} TextOf(s: seq<Byte>) returns (text: seq<int>)
    requires Valid(s)
    ensures IsText(text) && Encoded(text) == s
    decreases |s|
  {
    if s == [] {
      text := [];
      EncodedNone();
    } else {
      ValidStep(s);
      hide CharLength, Encode, Decode, Encoded, Scalar, Valid;
      var n := CharLength(s);
      DecodedChar(s);
      var rest := TextOf(s[n..]);
      text := [Decode(s)] + rest;
      EncodedMore(Decode(s), rest);
      assert s == s[..n] + s[n..];
    }
  }
}
