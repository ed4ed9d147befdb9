/** The C library string routines asm.c relies on, over NUL-free text:
    `strtok` with its saved position, `strchr`, and `atoi` as glibc
    implements it on a 64-bit target. */
module CText {
  import opened Words
  import opened Wrappers
  import opened Strings

  predicate IsCrLf(c: char) {
    c == '\r' || c == '\n'
  }

  predicate IsBlank(c: char) {
    c == ' '
  }

  predicate IsArgDelim(c: char) {
    c == ' ' || c == ','
  }

  /** `isspace` in the C locale. */
  predicate IsCSpace(c: char) {
    c == ' ' || c == '\t' || c == '\n' || c == '\U{B}' || c == '\U{C}' || c == '\r'
  }

  predicate IsCDigit(c: char) {
    '0' <= c <= '9'
  }

  /** A token `strtok` returns, and the text a following `strtok(NULL, ...)`
      resumes from: the rest after the delimiter that ended the token. */
  datatype Split = Split(token: string, rest: string)

  /** sp is the token that starts at index start of s: every character
      before start is a delimiter, the token is the run of non-delimiters
      from start, and the rest resumes after the delimiter that ends it,
      or is empty at the end of s. */
  predicate TokenAt(s: string, delim: char -> bool, start: nat, sp: Split) {
    var end := start + |sp.token|;
    && start < end <= |s|
    && (forall i :: 0 <= i < start ==> delim(s[i]))
    && sp.token == s[start..end]
    && (forall i :: start <= i < end ==> !delim(s[i]))
    && (if end < |s| then delim(s[end]) && sp.rest == s[end + 1..] else sp.rest == [])
  }

  /** `strtok(s, delims)`: skip leading delimiters; none left means NULL;
      otherwise the token runs to the next delimiter, which is consumed. */
  function Strtok(s: string, delim: char -> bool): (r: Option<Split>)
    ensures r.Some? ==> r.value.token != [] && |r.value.token| + |r.value.rest| <= |s|
  {
    var start := SpanLen(delim, s);
    if start == |s| then None
    else
      var t := s[start..];
      var n := BreakLen(delim, t);
      SpanLenBounds(delim, s);
      Some(Split(t[..n], if n < |t| then t[n + 1..] else []))
  }

  /** `strtok` returns NULL exactly when s is all delimiters; otherwise its
      token is the run of non-delimiters at the first non-delimiter of s,
      and the rest resumes after the delimiter that ends the token. */
  lemma {:induction false} StrtokFinds(s: string, delim: char -> bool)
    ensures Strtok(s, delim).None? <==> forall i :: 0 <= i < |s| ==> delim(s[i])
    ensures Strtok(s, delim).Some? ==> exists start :: TokenAt(s, delim, start, Strtok(s, delim).value)
  {
    var start := SpanLen(delim, s);
    SpanLenBounds(delim, s);
    if start < |s| {
      TokenAfterSpan(s, delim, start, Strtok(s, delim).value);
    }
  }

  /** The token that follows the leading delimiters and ends at the next
      one is the token at that position. */
  lemma {:induction false} TokenAfterSpan(s: string, delim: char -> bool, start: nat, sp: Split)
    requires start < |s| && start == SpanLen(delim, s)
    requires var t, n := s[start..], BreakLen(delim, s[start..]);
      sp == Split(t[..n], if n < |t| then t[n + 1..] else [])
    ensures TokenAt(s, delim, start, sp)
  {
    var t := s[start..];
    var n := BreakLen(delim, t);
    SpanLenBounds(delim, s);
    BreakLenBounds(delim, t);
    assert n > 0;
    forall i | start <= i < start + n
      ensures !delim(s[i])
    {
      assert s[i] == t[i - start];
    }
    assert sp.token == s[start..start + n];
    if n < |t| {
      assert s[start + n] == t[n];
      assert t[n + 1..] == s[start + n + 1..];
    }
  }

  /** The value of a run of decimal digits. */
  function DigitRunValue(s: string): nat
    requires forall i :: 0 <= i < |s| ==> IsCDigit(s[i])
  {
    if s == [] then 0
    else
      assert IsCDigit(s[|s| - 1]);
      10 * DigitRunValue(s[..|s| - 1]) + (s[|s| - 1] as int - '0' as int)
  }

  const LONG_MIN: int := -0x8000_0000_0000_0000
  const LONG_MAX: int := 0x7FFF_FFFF_FFFF_FFFF

  /** The mathematical value `atoi` reads: leading white space, an optional
      sign, then the longest run of digits; 0 when there are no digits. */
  function AtoiValue(s: string): int {
    var t := s[SpanLen(IsCSpace, s)..];
    var neg := t != [] && t[0] == '-';
    var u := if t != [] && (t[0] == '-' || t[0] == '+') then t[1..] else t;
    var n := SpanLen(IsCDigit, u);
    SpanLenBounds(IsCDigit, u);
    var v: int := DigitRunValue(u[..n]);
    if neg then -v else v
  }

  /** `atoi(s)`: glibc's `(int) strtol(s, NULL, 10)`, which saturates at the
      64-bit `long` range and then keeps the low 32 bits. */
  function Atoi(s: string): (r: int32)
    ensures IsInt32(AtoiValue(s)) ==> r == AtoiValue(s)
  {
    var v := AtoiValue(s);
    Wrap32(if v < LONG_MIN then LONG_MIN else if v > LONG_MAX then LONG_MAX else v)
  }

  /** A token with no digit after its optional sign reads as 0. */
  lemma {:induction false} AtoiOfNonNumeric(s: string)
    requires s != [] && !IsCSpace(s[0])
    requires if s[0] == '-' || s[0] == '+' then |s| == 1 || !IsCDigit(s[1]) else !IsCDigit(s[0])
    ensures Atoi(s) == 0
  {
  }
}
