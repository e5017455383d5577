/** The UTF-8 validator of the v1 protocol parser, and the encoding it recognises:
    section 4 of RFC 3629, without U+0000 and without noncharacters. */
module Utf8 {
  import opened Common

  /** A Unicode scalar value: a code point that is not a surrogate. */
  predicate IsScalar(c: nat) {
    c <= 0x10FFFF && !(0xD800 <= c <= 0xDFFF)
  }

  /** The 66 noncharacters: U+FDD0..U+FDEF and the last two code points of each plane. */
  predicate IsNoncharacter(c: nat) {
    0xFDD0 <= c <= 0xFDEF ||
    exists plane :: 0 <= plane <= 16 && (c == 0x10000 * plane + 0xFFFE || c == 0x10000 * plane + 0xFFFF)
  }

  predicate IsAllowed(c: nat) {
    IsScalar(c) && c != 0 && !IsNoncharacter(c)
  }

  /** Section 4 of RFC 3629: the octets of one scalar value. */
  function EncodeScalar(c: nat): (bytes: seq<u8>)
    requires IsScalar(c)
    ensures 1 <= |bytes| <= 4
  {
    if c < 0x80 then [c]
    else if c < 0x800 then [0xC0 + c / 64, 0x80 + c % 64]
    else if c < 0x10000 then [0xE0 + c / 4096, 0x80 + c / 64 % 64, 0x80 + c % 64]
    else [0xF0 + c / 262144, 0x80 + c / 4096 % 64, 0x80 + c / 64 % 64, 0x80 + c % 64]
  }

  function EncodeText(text: seq<nat>): (bytes: seq<u8>)
    requires forall i :: 0 <= i < |text| ==> IsScalar(text[i])
  {
    if |text| == 0 then [] else EncodeScalar(text[0]) + EncodeText(text[1..])
  }

  ghost predicate Encodes(text: seq<nat>, bytes: seq<u8>) {
    (forall i :: 0 <= i < |text| ==> IsAllowed(text[i])) && EncodeText(text) == bytes
  }

  /** `bytes` is the encoding of some text the protocol allows. */
  ghost predicate IsText(bytes: seq<u8>) {
    exists text: seq<nat> :: Encodes(text, bytes)
  }

  lemma Digits(c: nat)
    ensures c == 64 * (c / 64) + c % 64
    ensures c / 4096 == c / 64 / 64 && c / 262144 == c / 4096 / 64
  {
  }

  lemma SameLengthInjective(a: nat, b: nat)
    requires IsScalar(a) && IsScalar(b) && EncodeScalar(a) == EncodeScalar(b)
    ensures a == b
  {
    var e, f := EncodeScalar(a), EncodeScalar(b);
    assert e[0] == f[0];
    Digits(a);
    Digits(b);
    if |e| == 2 {
      assert e[1] == f[1];
    } else if |e| == 3 {
      Digits(a / 64);
      Digits(b / 64);
      assert e[1] == f[1] && e[2] == f[2];
      assert a / 64 == b / 64;
    } else if |e| == 4 {
      Digits(a / 64);
      Digits(b / 64);
      Digits(a / 4096);
      Digits(b / 4096);
      assert e[1] == f[1] && e[2] == f[2] && e[3] == f[3];
      assert a / 4096 == b / 4096;
      assert a / 64 == b / 64;
    }
  }

  lemma LengthByFirstByte(c: nat)
    requires IsScalar(c)
    ensures var e := EncodeScalar(c);
            |e| == if e[0] < 0xC0 then 1 else if e[0] < 0xE0 then 2 else if e[0] < 0xF0 then 3 else 4
  {
  }

  /** The encoding is prefix-free: the first scalar value can be read off. */
  lemma EncodeScalarInjective(a: nat, x: seq<u8>, b: nat, y: seq<u8>)
    requires IsScalar(a) && IsScalar(b)
    requires EncodeScalar(a) + x == EncodeScalar(b) + y
    ensures a == b && x == y
  {
    var e, f := EncodeScalar(a), EncodeScalar(b);
    var whole := e + x;
    assert whole[0] == e[0] && whole[0] == f[0];
    LengthByFirstByte(a);
    LengthByFirstByte(b);
    assert e == whole[..|e|] && f == whole[..|f|];
    SameLengthInjective(a, b);
    assert x == whole[|e|..] && y == whole[|f|..];
  }

  lemma FirstScalar(bytes: seq<u8>) returns (c: nat)
    requires IsText(bytes) && bytes != []
    ensures IsAllowed(c) && EncodeScalar(c) <= bytes
    ensures IsText(bytes[|EncodeScalar(c)|..])
  {
    var text: seq<nat> :| Encodes(text, bytes);
    c := text[0];
    assert bytes == EncodeScalar(c) + EncodeText(text[1..]);
    assert bytes[|EncodeScalar(c)|..] == EncodeText(text[1..]);
    assert Encodes(text[1..], bytes[|EncodeScalar(c)|..]);
  }

  /** A text with an allowed first scalar value is a text exactly when the rest is. */
  lemma TextHead(c: nat, rest: seq<u8>)
    requires IsScalar(c)
    ensures IsText(EncodeScalar(c) + rest) <==> IsAllowed(c) && IsText(rest)
  {
    if IsAllowed(c) && IsText(rest) {
      var text: seq<nat> :| Encodes(text, rest);
      assert ([c] + text)[1..] == text;
      assert Encodes([c] + text, EncodeScalar(c) + rest);
    }
    if IsText(EncodeScalar(c) + rest) {
      var whole := EncodeScalar(c) + rest;
      var d := FirstScalar(whole);
      assert whole == EncodeScalar(d) + whole[|EncodeScalar(d)|..];
      EncodeScalarInjective(c, rest, d, whole[|EncodeScalar(d)|..]);
    }
  }

  predicate IsContinuation(value: u8) {
    value / 64 == 2
  }

  /** `IsUnicodeNoncharacter`, with its mask written as a remainder. */
  predicate IsUnicodeNoncharacter(codePoint: nat) {
    0xFDD0 <= codePoint <= 0xFDEF || (codePoint <= 0x10FFFF && codePoint % 0x10000 >= 0xFFFE)
  }

  lemma NoncharacterMask(c: nat)
    requires IsScalar(c)
    ensures IsUnicodeNoncharacter(c) <==> IsNoncharacter(c)
  {
    var plane := c / 0x10000;
    assert c == 0x10000 * plane + c % 0x10000;
  }

  /** The well-formed octet patterns of section 4 of RFC 3629. */
  predicate WellFormedStart(s: seq<u8>)
    requires s != []
  {
    || s[0] <= 0x7F
    || (0xC2 <= s[0] <= 0xDF && |s| >= 2 && IsContinuation(s[1]))
    || (0xE0 <= s[0] <= 0xEF && |s| >= 3 && IsContinuation(s[1]) && IsContinuation(s[2]) &&
        !(s[0] == 0xE0 && s[1] < 0xA0) && !(s[0] == 0xED && s[1] >= 0xA0))
    || (0xF0 <= s[0] <= 0xF4 && |s| >= 4 && IsContinuation(s[1]) && IsContinuation(s[2]) && IsContinuation(s[3]) &&
        !(s[0] == 0xF0 && s[1] < 0x90) && !(s[0] == 0xF4 && s[1] > 0x8F))
  }

  lemma ContinuationOctet(digit: nat)
    ensures IsContinuation(0x80 + digit % 64)
  {
  }

  lemma ScalarWellFormed(c: nat)
    requires IsScalar(c)
    ensures WellFormedStart(EncodeScalar(c))
  {
    ContinuationOctet(c);
    ContinuationOctet(c / 64);
    ContinuationOctet(c / 4096);
    Digits(c);
    Digits(c / 64);
    Digits(c / 4096);
  }

  lemma TextStartsWellFormed(s: seq<u8>)
    requires s != [] && IsText(s)
    ensures WellFormedStart(s)
  {
    var c := FirstScalar(s);
    var e := EncodeScalar(c);
    ScalarWellFormed(c);
    assert s == e + s[|e|..];
  }

  lemma Assemble1(a: u8)
    requires a <= 0x7F
    ensures IsScalar(a) && EncodeScalar(a) == [a]
  {
  }

  lemma Assemble2(a: u8, b: u8)
    requires 0xC2 <= a <= 0xDF && IsContinuation(b)
    ensures var c := (a as int) % 32 * 64 + b % 64; IsScalar(c) && EncodeScalar(c) == [a, b]
  {
  }

  lemma Assemble3(a: u8, b: u8, d: u8)
    requires 0xE0 <= a <= 0xEF && IsContinuation(b) && IsContinuation(d)
    requires !(a == 0xE0 && b < 0xA0) && !(a == 0xED && b >= 0xA0)
    ensures var c := (a as int) % 16 * 4096 + (b as int) % 64 * 64 + d % 64; IsScalar(c) && EncodeScalar(c) == [a, b, d]
  {
    var c := (a as int) % 16 * 4096 + (b as int) % 64 * 64 + d % 64;
    assert c / 64 == (a as int) % 16 * 64 + b % 64;
    Digits(c);
  }

  lemma Assemble4(a: u8, b: u8, d: u8, e: u8)
    requires 0xF0 <= a <= 0xF4 && IsContinuation(b) && IsContinuation(d) && IsContinuation(e)
    requires !(a == 0xF0 && b < 0x90) && !(a == 0xF4 && b > 0x8F)
    ensures var c := (a as int) % 8 * 262144 + (b as int) % 64 * 4096 + (d as int) % 64 * 64 + e % 64;
            IsScalar(c) && EncodeScalar(c) == [a, b, d, e]
  {
    var c := (a as int) % 8 * 262144 + (b as int) % 64 * 4096 + (d as int) % 64 * 64 + e % 64;
    assert c / 64 == (a as int) % 8 * 4096 + (b as int) % 64 * 64 + d % 64;
    assert c / 4096 == (a as int) % 8 * 64 + b % 64;
    Digits(c);
  }

  lemma EmptyIsText()
    ensures IsText([])
  {
    assert Encodes([], []);
  }

  /** The validator accepts exactly the encodings of allowed texts. */
  method IsValidUtf8(value: seq<u8>) returns (ok: bool)
    ensures ok <==> IsText(value)
  {
    hide EncodeScalar, IsText, IsContinuation, IsScalar, IsNoncharacter, IsUnicodeNoncharacter;
    assert value[0..] == value;
    var offset := 0;
    while offset < |value|
      invariant 0 <= offset <= |value|
      invariant IsText(value) <==> IsText(value[offset..])
    {
      ghost var rest := value[offset..];
      if IsText(rest) { TextStartsWellFormed(rest); }

      var first := value[offset];
      var codePoint: nat, width: nat := 0, 0;
      if first <= 0x7F {
        codePoint := first;
        width := 1;
        Assemble1(first);
      } else if 0xC2 <= first <= 0xDF {
        width := 2;
        if |value| - offset < width || !IsContinuation(value[offset + 1]) {
          return false;
        }
        codePoint := (first as int) % 32 * 64 + value[offset + 1] % 64;
        Assemble2(first, value[offset + 1]);
      } else if 0xE0 <= first <= 0xEF {
        width := 3;
        if |value| - offset < width || !IsContinuation(value[offset + 1]) || !IsContinuation(value[offset + 2]) {
          return false;
        }
        var second := value[offset + 1];
        if (first == 0xE0 && second < 0xA0) || (first == 0xED && second >= 0xA0) {
          return false;
        }
        codePoint := (first as int) % 16 * 4096 + (second as int) % 64 * 64 + value[offset + 2] % 64;
        Assemble3(first, second, value[offset + 2]);
      } else if 0xF0 <= first <= 0xF4 {
        width := 4;
        if |value| - offset < width || !IsContinuation(value[offset + 1]) ||
           !IsContinuation(value[offset + 2]) || !IsContinuation(value[offset + 3]) {
          return false;
        }
        var second := value[offset + 1];
        if (first == 0xF0 && second < 0x90) || (first == 0xF4 && second > 0x8F) {
          return false;
        }
        codePoint := (first as int) % 8 * 262144 + (second as int) % 64 * 4096 +
                     (value[offset + 2] as int) % 64 * 64 + value[offset + 3] % 64;
        Assemble4(first, second, value[offset + 2], value[offset + 3]);
      } else {
        return false;
      }

      assert rest == EncodeScalar(codePoint) + rest[width..];
      TextHead(codePoint, rest[width..]);
      NoncharacterMask(codePoint);
      if codePoint == 0 || IsUnicodeNoncharacter(codePoint) {
        return false;
      }
      assert rest[width..] == value[offset + width..];
      offset := offset + width;
    }
    EmptyIsText();
    assert value[offset..] == [];
    return true;
  }
}
