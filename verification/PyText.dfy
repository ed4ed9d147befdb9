/** The Python string operations asm.py relies on: `str.strip`, `str.split()`,
    `str.rstrip(',')`, `str.upper` and `int(str)`. */
module PyText {
  import opened Wrappers
  import opened Strings

  /** `c.isspace()`: the ASCII controls 9-13 and 28-31, the space, and the
      Unicode separators Python also counts as whitespace. */
  predicate IsSpace(c: char) {
    c == ' ' || ('\t' <= c <= '\r') || ('\U{1c}' <= c <= '\U{1f}')
    || c == '\U{85}' || c == '\U{a0}' || c == '\U{1680}'
    || ('\U{2000}' <= c <= '\U{200a}') || c == '\U{2028}' || c == '\U{2029}'
    || c == '\U{202f}' || c == '\U{205f}' || c == '\U{3000}'
  }

  predicate NotSpace(c: char) {
    !IsSpace(c)
  }

  predicate IsComma(c: char) {
    c == ','
  }

  predicate AllSpace(s: string) {
    forall i :: 0 <= i < |s| ==> IsSpace(s[i])
  }

  /** `s.strip()`: s without its leading and trailing whitespace
      (StripTrims says what is cut). */
  function Strip(s: string): string
  {
    var t := s[SpanLen(IsSpace, s)..];
    t[..|t| - TailSpanLen(IsSpace, t)]
  }

  /** `s.strip()` is a slice of s with only whitespace, and all of it,
      cut off on either side, so that neither of its ends is whitespace;
      it is empty exactly when s is all whitespace. */
  lemma {:induction false} StripTrims(s: string)
    ensures exists a: nat, b: nat :: Trims(s, a, b) && Strip(s) == s[a..b]
    ensures Strip(s) == [] <==> AllSpace(s)
    ensures Strip(s) != [] ==> NotSpace(Strip(s)[0]) && NotSpace(Strip(s)[|Strip(s)| - 1])
  {
    var a := SpanLen(IsSpace, s);
    var t := s[a..];
    var b := a + |t| - TailSpanLen(IsSpace, t);
    StripBounds(s, a, b);
    assert Trims(s, a, b) && Strip(s) == s[a..b];
    if a < b {
      assert Strip(s)[0] == s[a] && Strip(s)[|Strip(s)| - 1] == s[b - 1];
    }
  }

  /** s[a..b] is s with whitespace, and only whitespace, cut off its ends. */
  predicate Trims(s: string, a: nat, b: nat) {
    && a <= b <= |s|
    && AllSpace(s[..a]) && AllSpace(s[b..])
    && (a < b ==> NotSpace(s[a]) && NotSpace(s[b - 1]))
  }

  lemma {:induction false} StripBounds(s: string, a: nat, b: nat)
    requires a == SpanLen(IsSpace, s) && b == a + |s[a..]| - TailSpanLen(IsSpace, s[a..])
    ensures Trims(s, a, b)
    ensures a == b <==> AllSpace(s)
  {
    SpanLenBounds(IsSpace, s);
    TailSpanLenBounds(IsSpace, s[a..]);
    TailOfSlice(s, a, b);
    TrimsOfEnds(s, a, b);
  }

  /** The trailing whitespace of s[a..], read in s. */
  lemma {:induction false} TailOfSlice(s: string, a: nat, b: nat)
    requires a <= b <= |s|
    requires forall i :: b - a <= i < |s[a..]| ==> IsSpace(s[a..][i])
    requires a < b ==> !IsSpace(s[a..][b - a - 1])
    ensures forall i :: b <= i < |s| ==> IsSpace(s[i])
    ensures a < b ==> NotSpace(s[b - 1])
  {
    forall i | b <= i < |s| ensures IsSpace(s[i]) {
      assert s[i] == s[a..][i - a];
    }
  }

  /** Whitespace before a and from b on, and none at either end of
      s[a..b]. */
  lemma {:induction false} TrimsOfEnds(s: string, a: nat, b: nat)
    requires a <= b <= |s|
    requires forall i :: 0 <= i < a ==> IsSpace(s[i])
    requires forall i :: b <= i < |s| ==> IsSpace(s[i])
    requires a < b ==> NotSpace(s[a]) && NotSpace(s[b - 1])
    ensures Trims(s, a, b)
    ensures a == b <==> AllSpace(s)
  {
    assert forall i :: 0 <= i < |s[b..]| ==> s[b..][i] == s[b + i];
  }

  /** A word of `s.split()`: non-empty and free of whitespace. */
  predicate IsWord(w: string) {
    w != [] && forall i :: 0 <= i < |w| ==> NotSpace(w[i])
  }

  /** `s.split()`: the maximal runs of non-whitespace characters, in order. */
  function Tokens(s: string): (ts: seq<string>)
    ensures |s| > 0 && NotSpace(s[0]) ==> ts != []
    decreases |s|
  {
    var t := s[SpanLen(IsSpace, s)..];
    if t == [] then []
    else
      var w := t[..SpanLen(NotSpace, t)];
      [w] + Tokens(t[|w|..])
  }

  /** `s.split()` is empty exactly when s is all whitespace. */
  lemma {:induction false} TokensEmpty(s: string)
    ensures Tokens(s) == [] <==> AllSpace(s)
  {
    if SpanLen(IsSpace, s) == |s| {
      SpanAll(s);
    } else {
      assert NotSpace(s[SpanLen(IsSpace, s)]);
    }
  }

  /** Every word of `s.split()` is non-empty and free of whitespace. */
  lemma {:induction false} TokensAreWords(s: string)
    ensures forall k :: 0 <= k < |Tokens(s)| ==> IsWord(Tokens(s)[k])
    decreases |s|
  {
    if SpanLen(IsSpace, s) < |s| {
      var t := s[SpanLen(IsSpace, s)..];
      var n := SpanLen(NotSpace, t);
      TokensOf(s);
      FirstWord(s, t, n);
      TokensAreWords(t[n..]);
      WordsCons(t[..n], Tokens(t[n..]));
    }
  }

  /** The first word of s is a word. */
  lemma {:induction false} FirstWord(s: string, t: string, n: nat)
    requires SpanLen(IsSpace, s) < |s| && t == s[SpanLen(IsSpace, s)..] && n == SpanLen(NotSpace, t)
    ensures IsWord(t[..n])
  {
    SpanLenBounds(IsSpace, s);
    SpanLenBounds(NotSpace, t);
    assert t[0] == s[SpanLen(IsSpace, s)];
  }

  lemma {:induction false} WordsCons(w: string, rest: seq<string>)
    requires IsWord(w) && forall k :: 0 <= k < |rest| ==> IsWord(rest[k])
    ensures forall k :: 0 <= k < |[w] + rest| ==> IsWord(([w] + rest)[k])
  {
  }

  predicate HasSpace(s: string) {
    exists j :: 0 <= j < |s| && IsSpace(s[j])
  }

  /** `s.split()` has more than one word exactly when `s.strip()` holds
      whitespace. */
  lemma {:induction false} TokenCount(s: string)
    ensures |Tokens(s)| > 1 <==> HasSpace(Strip(s))
  {
    if SpanLen(IsSpace, s) == |s| {
      SpanAll(s);
    } else {
      TokenCountSome(s);
    }
  }

  /** TokenCount where s holds a non-whitespace character. */
  lemma {:induction false} TokenCountSome(s: string)
    requires SpanLen(IsSpace, s) < |s|
    ensures |Tokens(s)| > 1 <==> HasSpace(Strip(s))
  {
    var t := s[SpanLen(IsSpace, s)..];
    var e, n := |t| - TailSpanLen(IsSpace, t), SpanLen(NotSpace, t);
    StripOf(s);
    TokensOf(s);
    InnerSpace(t, n, e);
    CountParts(t, e, n, Strip(s), Tokens(s));
  }

  /** TokenCount with the words and the stripped text named. */
  lemma {:induction false} CountParts(t: string, e: nat, n: nat, r: string, ts: seq<string>)
    requires e <= |t| && n <= |t| && r == t[..e] && ts == [t[..n]] + Tokens(t[n..])
    requires !AllSpace(t[n..]) <==> HasSpace(t[..e])
    ensures |ts| > 1 <==> HasSpace(r)
  {
    TokensEmpty(t[n..]);
  }

  /** t with its first word (of length n) taken off still holds a word
      exactly when whitespace comes before t's trailing whitespace (which
      starts at e). */
  lemma {:induction false} InnerSpace(t: string, n: nat, e: nat)
    requires n == SpanLen(NotSpace, t) && e == |t| - TailSpanLen(IsSpace, t)
    ensures !AllSpace(t[n..]) <==> HasSpace(t[..e])
  {
    var u := t[n..];
    SpanLenBounds(NotSpace, t);
    TailSpanLenBounds(IsSpace, t);
    if !AllSpace(u) {
      var k :| 0 <= k < |u| && NotSpace(u[k]);
      assert t[n + k] == u[k];
      assert n < e && IsSpace(t[n]);
      assert t[..e][n] == t[n];
    } else {
      assert forall j :: 0 <= j < e ==> NotSpace(t[j]);
      assert forall j :: 0 <= j < e ==> t[..e][j] == t[j];
    }
  }

  /** Strip(s) is s past its leading whitespace, cut before its trailing. */
  lemma {:induction false} StripOf(s: string)
    ensures var t := s[SpanLen(IsSpace, s)..];
      Strip(s) == t[..|t| - TailSpanLen(IsSpace, t)]
  {
  }

  /** The first word of s and the words after it. */
  lemma {:induction false} TokensOf(s: string)
    requires SpanLen(IsSpace, s) < |s|
    ensures var t := s[SpanLen(IsSpace, s)..]; var n := SpanLen(NotSpace, t);
      Tokens(s) == [t[..n]] + Tokens(t[n..])
  {
  }

  /** When the leading whitespace of s is all of it, s is all whitespace. */
  lemma {:induction false} SpanAll(s: string)
    requires SpanLen(IsSpace, s) == |s|
    ensures AllSpace(s)
  {
    SpanLenBounds(IsSpace, s);
  }

  /** `s.rstrip(',')`: s without all of its trailing commas. */
  function StripTrailingCommas(s: string): (r: string)
  {
    s[..|s| - TailSpanLen(IsComma, s)]
  }

  /** The full upper-case mapping of one character, for every character
      whose upper case is ASCII: the ASCII letters, dotless i, long s,
      sharp s and the Latin ligatures. Any other character is kept. */
  function CharUpper(c: char): string {
    if 'a' <= c <= 'z' then [(c as int - 32) as char]
    else if c == '\U{131}' then "I"
    else if c == '\U{17f}' then "S"
    else if c == '\U{df}' then "SS"
    else if c == '\U{fb00}' then "FF"
    else if c == '\U{fb01}' then "FI"
    else if c == '\U{fb02}' then "FL"
    else if c == '\U{fb03}' then "FFI"
    else if c == '\U{fb04}' then "FFL"
    else if c == '\U{fb05}' || c == '\U{fb06}' then "ST"
    else [c]
  }

  /** `s.upper()`. */
  function Upper(s: string): string {
    if s == [] then [] else CharUpper(s[0]) + Upper(s[1..])
  }

  predicate IsAsciiLetter(c: char) {
    'a' <= c <= 'z' || 'A' <= c <= 'Z'
  }

  /** The upper case of an ASCII letter. */
  function AsciiUpper(c: char): char {
    if 'a' <= c <= 'z' then (c as int - 32) as char else c
  }

  /** t spells n, letter for letter, once its lower-case ASCII letters are
      raised. */
  predicate SameUpToCase(t: string, n: string) {
    |t| == |n| && forall i :: 0 <= i < |t| ==> AsciiUpper(t[i]) == n[i]
  }

  /** On ASCII letters `upper()` raises each letter in place. */
  lemma {:induction false} UpperOfAscii(t: string)
    requires forall i :: 0 <= i < |t| ==> IsAsciiLetter(t[i])
    ensures |Upper(t)| == |t| && forall i :: 0 <= i < |t| ==> Upper(t)[i] == AsciiUpper(t[i])
    decreases |t|
  {
    if t != [] {
      UpperOfAscii(t[1..]);
      assert CharUpper(t[0]) == [AsciiUpper(t[0])];
      forall i | 1 <= i < |t| ensures Upper(t)[i] == AsciiUpper(t[i]) {
        assert t[i] == t[1..][i - 1];
      }
    }
  }

  /** A word of ASCII letters upper-cases to n exactly when it equals n up
      to the case of its letters. */
  lemma {:induction false} UpperIgnoresCase(t: string, n: string)
    requires forall i :: 0 <= i < |t| ==> IsAsciiLetter(t[i])
    ensures Upper(t) == n <==> SameUpToCase(t, n)
  {
    UpperOfAscii(t);
    if SameUpToCase(t, n) {
      assert Upper(t) == n;
    }
  }

  predicate IsDigit(c: char) {
    '0' <= c <= '9'
  }

  /** The digit body `int()` accepts: decimal digits, where a single
      underscore may separate two digits. */
  predicate IsDigitBody(s: string) {
    s != [] && IsDigit(s[0]) && IsDigit(s[|s| - 1]) &&
    forall i :: 0 <= i < |s| ==> IsDigit(s[i]) || (s[i] == '_' && i + 1 < |s| && IsDigit(s[i + 1]))
  }

  /** The number a digit body denotes, underscores ignored. */
  function DigitsValue(s: string): nat {
    if s == [] then 0
    else if IsDigit(s[|s| - 1]) then 10 * DigitsValue(s[..|s| - 1]) + (s[|s| - 1] as int - '0' as int)
    else DigitsValue(s[..|s| - 1])
  }

  /** `int(s)` on a token without whitespace: an optional sign followed by a
      digit body; None where Python raises ValueError. */
  function ParseInt(s: string): Option<int>
  {
    if |s| > 0 && (s[0] == '+' || s[0] == '-') then
      if IsDigitBody(s[1..]) then
        var v: int := DigitsValue(s[1..]);
        Some(if s[0] == '-' then -v else v)
      else None
    else if IsDigitBody(s) then Some(DigitsValue(s))
    else None
  }

  /** The decimal digits of n, most significant first (`str(n)` for n >= 0). */
  function NatDigits(n: nat): (s: string)
    ensures s != [] && forall i :: 0 <= i < |s| ==> IsDigit(s[i])
  {
    var d := [('0' as int + n % 10) as char];
    if n < 10 then d else NatDigits(n / 10) + d
  }

  /** `str(n)`: the canonical decimal spelling of an integer. */
  function Decimal(n: int): string {
    if n < 0 then "-" + NatDigits(-n) else NatDigits(n)
  }

  lemma {:induction false} DigitsValueOfNatDigits(n: nat)
    ensures DigitsValue(NatDigits(n)) == n
    decreases n
  {
    var s := NatDigits(n);
    if n >= 10 {
      DigitsValueOfNatDigits(n / 10);
      assert s[..|s| - 1] == NatDigits(n / 10);
    }
  }

  /** `int(str(n)) == n`: the decimal spelling of an integer parses back to it. */
  lemma {:induction false} ParseDecimal(n: int)
    ensures ParseInt(Decimal(n)) == Some(n)
  {
    var m := if n < 0 then -n else n;
    DigitsValueOfNatDigits(m);
    if n < 0 {
      assert Decimal(n)[1..] == NatDigits(m);
    }
  }

  /** A token `int()` accepts is an optional sign, then digits with single
      underscores between them, ending in a digit; only a leading '-' makes
      its value negative. */
  lemma {:induction false} ParseIntShape(s: string)
    requires ParseInt(s).Some?
    ensures s != [] && IsDigit(s[|s| - 1])
    ensures forall i :: 0 <= i < |s| ==> IsDigit(s[i]) || s[i] == '_' || (i == 0 && (s[0] == '+' || s[0] == '-'))
    ensures ParseInt(s).value < 0 ==> s[0] == '-'
  {
    if |s| > 0 && (s[0] == '+' || s[0] == '-') {
      var t := s[1..];
      assert s[|s| - 1] == t[|t| - 1];
      forall i | 1 <= i < |s| ensures IsDigit(s[i]) || s[i] == '_' {
        assert s[i] == t[i - 1];
        DigitBodyAt(t, i - 1);
      }
    } else {
      forall i | 0 <= i < |s| ensures IsDigit(s[i]) || s[i] == '_' {
        DigitBodyAt(s, i);
      }
    }
  }

  lemma {:induction false} DigitBodyAt(t: string, j: nat)
    requires IsDigitBody(t) && j < |t|
    ensures IsDigit(t[j]) || t[j] == '_'
  {
    assert IsDigit(t[j]) || (t[j] == '_' && j + 1 < |t| && IsDigit(t[j + 1]));
  }
}
