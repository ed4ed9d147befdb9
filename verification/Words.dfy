/** Machine words shared by the two assemblers and the virtual machine:
    bytes, 32-bit signed and unsigned integers, and the two's-complement
    reductions that C and C++ casts perform. */
module Words {
  type byte = x: int | 0 <= x < 0x100
  type int32 = x: int | -0x8000_0000 <= x < 0x8000_0000
  type uint32 = x: int | 0 <= x < 0x1_0000_0000

  const TWO_32: int := 0x1_0000_0000

  predicate IsInt32(x: int) {
    -0x8000_0000 <= x < 0x8000_0000
  }

  /** The value of a 32-bit two's-complement register holding x: what an
      `int32_t` cast or a wrapping 32-bit operation produces. */
  function Wrap32(x: int): (r: int32)
    ensures (x - r) % TWO_32 == 0
    ensures IsInt32(x) ==> r == x
  {
    var u := x % TWO_32;
    assert x == TWO_32 * (x / TWO_32) + u;
    if u < 0x8000_0000 then u else u - TWO_32
  }

  /** `static_cast<uint32_t>(x)`: the same 32 bits read as unsigned. */
  function ToUnsigned(x: int): (r: uint32)
    ensures (x - r) % TWO_32 == 0
    ensures 0 <= x < TWO_32 ==> r == x
  {
    assert x == TWO_32 * (x / TWO_32) + x % TWO_32;
    x % TWO_32
  }

  /** The signed 32-bit word four bytes spell, most significant first, the
      top bit of the first byte being the sign bit. */
  function DecodeBE32(b0: byte, b1: byte, b2: byte, b3: byte): int32 {
    Wrap32(b0 * 0x100_0000 + b1 * 0x1_0000 + b2 * 0x100 + b3)
  }

  /** The four bytes read as a two's-complement word: the unsigned number
      they spell, less 2^32 when the top bit of the first is set, which is
      exactly when the word is negative. */
  lemma {:induction false} DecodeIsTwosComplement(b0: byte, b1: byte, b2: byte, b3: byte)
    ensures DecodeBE32(b0, b1, b2, b3) < 0 <==> b0 >= 0x80
    ensures DecodeBE32(b0, b1, b2, b3) ==
      b0 * 0x100_0000 + b1 * 0x1_0000 + b2 * 0x100 + b3 - (if b0 >= 0x80 then TWO_32 else 0)
  {
    var u := b0 * 0x100_0000 + b1 * 0x1_0000 + b2 * 0x100 + b3;
    assert 0 <= u < TWO_32 && (u < 0x8000_0000 <==> b0 < 0x80);
    assert u % TWO_32 == u;
  }
}

/** A value that may be absent. */
module Wrappers {
  datatype Option<T> = None | Some(value: T)
}

/** Character-sequence helpers that both assemblers use with their own
    notion of which characters to skip. */
module Strings {
  /** The bytes UTF-8 spends on c. */
  function Utf8Width(c: char): nat {
    if c as int < 0x80 then 1 else if c as int < 0x800 then 2 else if c as int < 0x1_0000 then 3 else 4
  }

  /** The length in bytes of s encoded as UTF-8, what a C buffer holding
      s must have room for: at least one byte per character, at most four,
      and exactly one for ASCII text. */
  function Utf8Len(s: string): (n: nat)
    ensures |s| <= n <= 4 * |s|
    ensures (forall i :: 0 <= i < |s| ==> s[i] as int < 0x80) ==> n == |s|
  {
    if s == [] then 0 else Utf8Width(s[0]) + Utf8Len(s[1..])
  }

  /** The length of the longest prefix of s all of whose characters satisfy
      p (SpanLenBounds says so). */
  function SpanLen(p: char -> bool, s: string): (n: nat)
    ensures n <= |s|
    ensures n < |s| ==> !p(s[n])
  {
    if s == [] || !p(s[0]) then 0 else 1 + SpanLen(p, s[1..])
  }

  /** The length of the longest prefix of s none of whose characters
      satisfies p (C's `strcspn`, as SpanLen is its `strspn`). */
  function BreakLen(p: char -> bool, s: string): (n: nat)
    ensures n <= |s|
    ensures n < |s| ==> p(s[n])
  {
    if s == [] || p(s[0]) then 0 else 1 + BreakLen(p, s[1..])
  }

  /** The length of the longest suffix of s all of whose characters satisfy p. */
  function TailSpanLen(p: char -> bool, s: string): (n: nat)
    ensures n <= |s|
    ensures n < |s| ==> !p(s[|s| - n - 1])
  {
    if s == [] || !p(s[|s| - 1]) then 0 else 1 + TailSpanLen(p, s[..|s| - 1])
  }

  /** The span is a prefix of characters satisfying p that ends at the
      first character that does not. */
  lemma {:induction false} SpanLenBounds(p: char -> bool, s: string)
    ensures forall i :: 0 <= i < SpanLen(p, s) ==> p(s[i])
    ensures SpanLen(p, s) < |s| ==> !p(s[SpanLen(p, s)])
    decreases |s|
  {
    if s != [] && p(s[0]) {
      SpanLenBounds(p, s[1..]);
      assert forall i :: 1 <= i < |s| ==> s[i] == s[1..][i - 1];
    }
  }

  /** The break is a prefix of characters not satisfying p that ends at
      the first character that does. */
  lemma {:induction false} BreakLenBounds(p: char -> bool, s: string)
    ensures forall i :: 0 <= i < BreakLen(p, s) ==> !p(s[i])
    ensures BreakLen(p, s) < |s| ==> p(s[BreakLen(p, s)])
    decreases |s|
  {
    if s != [] && !p(s[0]) {
      BreakLenBounds(p, s[1..]);
      assert forall i :: 1 <= i < |s| ==> s[i] == s[1..][i - 1];
    }
  }

  /** The tail span is a suffix of characters satisfying p preceded, if at
      all, by one that does not. */
  lemma {:induction false} TailSpanLenBounds(p: char -> bool, s: string)
    ensures forall i :: |s| - TailSpanLen(p, s) <= i < |s| ==> p(s[i])
    ensures TailSpanLen(p, s) < |s| ==> !p(s[|s| - TailSpanLen(p, s) - 1])
    decreases |s|
  {
    if s != [] && p(s[|s| - 1]) {
      TailSpanLenBounds(p, s[..|s| - 1]);
    }
  }

  /** The text before the first occurrence of sep (all of s when sep does
      not occur): Python's `s.split(sep)[0]`, and what C keeps after
      `*strchr(s, sep) = '\0'`. */
  function BeforeFirst(s: string, sep: char): (r: string)
    ensures |r| <= |s|
  {
    if s == [] || s[0] == sep then [] else [s[0]] + BeforeFirst(s[1..], sep)
  }

  /** The span is n long when its first n characters satisfy p and the
      next one, if any, does not. */
  lemma {:induction false} SpanLenIs(p: char -> bool, s: string, n: nat)
    requires n <= |s| && forall i :: 0 <= i < n ==> p(s[i])
    requires n < |s| ==> !p(s[n])
    ensures SpanLen(p, s) == n
  {
    if n > 0 {
      SpanLenIs(p, s[1..], n - 1);
    }
  }

  /** The break is n long when none of the first n characters satisfies p
      and the next one, if any, does. */
  lemma {:induction false} BreakLenIs(p: char -> bool, s: string, n: nat)
    requires n <= |s| && forall i :: 0 <= i < n ==> !p(s[i])
    requires n < |s| ==> p(s[n])
    ensures BreakLen(p, s) == n
  {
    if n > 0 {
      BreakLenIs(p, s[1..], n - 1);
    }
  }

  /** The text before the first sep is the k characters in front of it. */
  lemma {:induction false} BeforeFirstIs(s: string, sep: char, k: nat)
    requires k <= |s| && forall i :: 0 <= i < k ==> s[i] != sep
    requires k < |s| ==> s[k] == sep
    ensures BeforeFirst(s, sep) == s[..k]
  {
    if k > 0 {
      BeforeFirstIs(s[1..], sep, k - 1);
      assert s[..k] == [s[0]] + s[1..][..k - 1];
    }
  }
}
