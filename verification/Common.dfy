/** Fixed-width integers, optional values and the saturating deadline arithmetic
    that every state machine of the native core shares. */
module Common {

  type u8 = x: int | 0 <= x < 0x100
  type u16 = x: int | 0 <= x < 0x1_0000
  type u32 = x: int | 0 <= x < 0x1_0000_0000
  type u64 = x: int | 0 <= x < 0x1_0000_0000_0000_0000

  const U32_MAX: u32 := 0xFFFF_FFFF
  const U64_MAX: u64 := 0xFFFF_FFFF_FFFF_FFFF

  datatype Option<+T> = None | Some(value: T)

  datatype Result<+T, +E> = Ok(value: T) | Err(error: E)

  function Min(a: int, b: int): int {
    if a <= b then a else b
  }

  function Max(a: int, b: int): int {
    if a <= b then b else a
  }

  /** `CheckedDeadline` / `SaturatingAdd`: a 64-bit sum that sticks at its maximum. */
  function SaturatingAdd(base: u64, duration: u64): (r: u64)
    ensures r == Min(base + duration, U64_MAX)
  {
    if base > U64_MAX - duration then U64_MAX else base + duration
  }

  /** True when every element is zero: `AllZero` / `IsZero`. */
  predicate AllZero(bytes: seq<u8>) {
    forall i :: 0 <= i < |bytes| ==> bytes[i] == 0
  }
}

/** Slices of slices and of concatenations. */
module Slices {

  lemma SliceOfSlice<T>(s: seq<T>, i: nat, j: nat, k: nat, l: nat)
    requires i <= j <= |s| && k <= l <= j - i
    ensures s[i..j][k..l] == s[i + k..i + l]
  {
    var inner, outer := s[i..j], s[i + k..i + l];
    forall m | 0 <= m < l - k
      ensures inner[k..l][m] == outer[m]
    {
      assert inner[k..l][m] == inner[k + m] == s[i + (k + m)];
    }
  }

  lemma Parts<T>(a: seq<T>, b: seq<T>, c: seq<T>)
    ensures (a + b + c)[|a|..|a| + |b|] == b
    ensures (a + b + c)[..|a|] == a && (a + b + c)[|a| + |b|..] == c
  {
  }
}

/** Big-endian integers of any width, as read by the `ReadU*` loops and written
    by the `WriteU*` / `AppendU*` helpers. */
module BigEndian {
  import opened Common

  function Pow256(width: nat): (r: nat)
    ensures r > 0
  {
    if width == 0 then 1 else 256 * Pow256(width - 1)
  }

  /** The accumulation `value = (value << 8) | byte` over all bytes. */
  function Decode(bytes: seq<u8>): (r: nat)
  {
    if |bytes| == 0 then 0
    else 256 * Decode(bytes[..|bytes| - 1]) + bytes[|bytes| - 1]
  }

  /** The low `width` bytes of `value`, most significant first. */
  function Encode(value: nat, width: nat): (bytes: seq<u8>)
    ensures |bytes| == width
  {
    if width == 0 then [] else Encode(value / 256, width - 1) + [value % 256]
  }

  lemma {:induction false} DecodeBound(bytes: seq<u8>)
    ensures Decode(bytes) < Pow256(|bytes|)
  {
    if |bytes| > 0 {
      DecodeBound(bytes[..|bytes| - 1]);
    }
  }

  lemma {:induction false} DecodeEncode(value: nat, width: nat)
    requires value < Pow256(width)
    ensures Decode(Encode(value, width)) == value
  {
    if width > 0 {
      var bytes := Encode(value, width);
      assert bytes[..width - 1] == Encode(value / 256, width - 1);
      DecodeEncode(value / 256, width - 1);
    }
  }

  lemma {:induction false} EncodeDecode(bytes: seq<u8>)
    ensures Encode(Decode(bytes), |bytes|) == bytes
  {
    if |bytes| > 0 {
      var front := bytes[..|bytes| - 1];
      EncodeDecode(front);
      assert Decode(bytes) / 256 == Decode(front);
      assert bytes == front + [bytes[|bytes| - 1]];
    }
  }

  lemma Widths()
    ensures Pow256(1) == 0x100 && Pow256(2) == 0x1_0000 && Pow256(4) == 0x1_0000_0000
    ensures Pow256(8) == 0x1_0000_0000_0000_0000
  {
    assert Pow256(3) == 256 * Pow256(2);
    assert Pow256(4) == 256 * Pow256(3);
    assert Pow256(5) == 256 * Pow256(4);
    assert Pow256(6) == 256 * Pow256(5);
    assert Pow256(7) == 256 * Pow256(6);
    assert Pow256(8) == 256 * Pow256(7);
  }

  function ReadU16(bytes: seq<u8>): (r: u16)
    requires |bytes| == 2
  {
    DecodeBound(bytes); Widths();
    Decode(bytes)
  }

  function ReadU32(bytes: seq<u8>): (r: u32)
    requires |bytes| == 4
  {
    DecodeBound(bytes); Widths();
    Decode(bytes)
  }

  function ReadU64(bytes: seq<u8>): (r: u64)
    requires |bytes| == 8
  {
    DecodeBound(bytes); Widths();
    Decode(bytes)
  }

  function WriteU16(value: u16): (bytes: seq<u8>)
    ensures |bytes| == 2
  {
    Encode(value, 2)
  }

  function WriteU32(value: u32): (bytes: seq<u8>)
    ensures |bytes| == 4
  {
    Encode(value, 4)
  }

  function WriteU64(value: u64): (bytes: seq<u8>)
    ensures |bytes| == 8
  {
    Encode(value, 8)
  }

  lemma ReadWriteU16(value: u16)
    ensures ReadU16(WriteU16(value)) == value
  {
    Widths();
    DecodeEncode(value, 2);
  }

  lemma WriteReadU16(bytes: seq<u8>)
    requires |bytes| == 2
    ensures WriteU16(ReadU16(bytes)) == bytes
  {
    EncodeDecode(bytes);
  }

  lemma ReadWriteU32(value: u32)
    ensures ReadU32(WriteU32(value)) == value
  {
    Widths();
    DecodeEncode(value, 4);
  }

  lemma WriteReadU32(bytes: seq<u8>)
    requires |bytes| == 4
    ensures WriteU32(ReadU32(bytes)) == bytes
  {
    EncodeDecode(bytes);
  }

  lemma ReadWriteU64(value: u64)
    ensures ReadU64(WriteU64(value)) == value
  {
    Widths();
    DecodeEncode(value, 8);
  }

  lemma WriteReadU64(bytes: seq<u8>)
    requires |bytes| == 8
    ensures WriteU64(ReadU64(bytes)) == bytes
  {
    EncodeDecode(bytes);
  }
}

/** Byte strings in lexicographic order. */
module ByteOrder {
  import opened Common

  /** `std::lexicographical_compare`. */
  predicate BytesLess(a: seq<u8>, b: seq<u8>) {
    |b| > 0 && (|a| == 0 || a[0] < b[0] || (a[0] == b[0] && BytesLess(a[1..], b[1..])))
  }

  lemma {:induction false} BytesTotal(a: seq<u8>, b: seq<u8>)
    ensures !BytesLess(a, a)
    ensures a == b || BytesLess(a, b) || BytesLess(b, a)
    decreases |a|
  {
    if |a| > 0 {
      BytesTotal(a[1..], a[1..]);
    }
    if |a| > 0 && |b| > 0 && a[0] == b[0] {
      BytesTotal(a[1..], b[1..]);
      assert a == [a[0]] + a[1..] && b == [b[0]] + b[1..];
    }
  }

  lemma {:induction false} BytesTransitive(a: seq<u8>, b: seq<u8>, c: seq<u8>)
    requires BytesLess(a, b) && BytesLess(b, c)
    ensures BytesLess(a, c)
  {
    if |a| > 0 && a[0] == b[0] == c[0] {
      BytesTransitive(a[1..], b[1..], c[1..]);
    }
  }
}
