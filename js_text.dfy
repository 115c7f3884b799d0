/** The few JavaScript string operations the source relies on, on `seq<char>`. */
module JsText {
  import opened Common

  /** The characters JavaScript's `trim()` removes and `\s` matches:
      the WhiteSpace and LineTerminator code points of ECMAScript. */
  predicate IsJsWhitespace(c: char) {
    c == ' ' || c == '\t' || c == '\n' || c == '\U{000B}' || c == '\U{000C}' || c == '\r'
    || c == '\U{00A0}' || c == '\U{1680}' || ('\U{2000}' <= c <= '\U{200A}')
    || c == '\U{2028}' || c == '\U{2029}' || c == '\U{202F}' || c == '\U{205F}'
    || c == '\U{3000}' || c == '\U{FEFF}'
  }

  predicate AllWhitespace(s: string) {
    forall i :: 0 <= i < |s| ==> IsJsWhitespace(s[i])
  }

  /** `s.trimStart()`: drops the longest all-whitespace prefix. */
  function TrimStart(s: string): (r: string)
    ensures |r| <= |s| && r == s[|s| - |r|..]
    ensures AllWhitespace(s[..|s| - |r|])
    ensures r == [] || !IsJsWhitespace(r[0])
    decreases |s|
  {
    if s != [] && IsJsWhitespace(s[0]) then
      var r := TrimStart(s[1..]);
      assert s[|s| - |r|..] == s[1..][|s| - 1 - |r|..];
      assert s[..|s| - |r|] == [s[0]] + s[1..][..|s| - 1 - |r|];
      r
    else
      assert s[..0] == [];
      s
  }

  /** `s.trimEnd()`: drops the longest all-whitespace suffix. */
  function TrimEnd(s: string): (r: string)
    ensures |r| <= |s| && r == s[..|r|]
    ensures AllWhitespace(s[|r|..])
    ensures r == [] || !IsJsWhitespace(r[|r| - 1])
    decreases |s|
  {
    if s != [] && IsJsWhitespace(s[|s| - 1]) then
      var init := s[..|s| - 1];
      var r := TrimEnd(init);
      assert s[..|r|] == init[..|r|];
      assert s[|r|..] == init[|r|..] + [s[|s| - 1]];
      r
    else
      assert s[|s|..] == [];
      s
  }

  /** `r` is a slice of `s` with only whitespace on either side of it. */
  predicate StripsOuterWhitespace(s: string, r: string) {
    exists i :: 0 <= i <= |s| - |r| && r == s[i..i + |r|]
                && AllWhitespace(s[..i]) && AllWhitespace(s[i + |r|..])
  }

  /** `s.trim()`: `trimEnd` after `trimStart`. The result is `s` with outer whitespace
      removed, and neither starts nor ends with whitespace. */
  function Trim(s: string): (r: string)
    ensures |r| <= |s|
    ensures StripsOuterWhitespace(s, r)
    ensures r == [] || (!IsJsWhitespace(r[0]) && !IsJsWhitespace(r[|r| - 1]))
  {
    var t := TrimStart(s);
    var r := TrimEnd(t);
    StripsBothEnds(s, t, r);
    r
  }

  /** Dropping whitespace from the front of `s` to get `t`, then from the back of `t` to get
      `r`, strips outer whitespace from `s`. */
  lemma StripsBothEnds(s: string, t: string, r: string)
    requires |t| <= |s| && t == s[|s| - |t|..] && AllWhitespace(s[..|s| - |t|])
    requires |r| <= |t| && r == t[..|r|] && AllWhitespace(t[|r|..])
    ensures StripsOuterWhitespace(s, r)
  {
    var i := |s| - |t|;
    assert s[i..i + |r|] == t[..|r|];
    assert s[i + |r|..] == t[|r|..];
  }

  /** A string trims to nothing exactly when it is all whitespace. */
  lemma TrimEmptyIff(s: string)
    ensures Trim(s) == [] <==> AllWhitespace(s)
  {
    var t := TrimStart(s);
    if Trim(s) == [] {
      assert t[|TrimEnd(t)|..] == t;
      assert s[..|s|] == s;
    }
  }

  /** Trimming a string that starts and ends with a non-whitespace character leaves it alone. */
  lemma TrimUnpadded(s: string)
    requires s != [] && !IsJsWhitespace(s[0]) && !IsJsWhitespace(s[|s| - 1])
    ensures Trim(s) == s
  {
  }

  function DigitChar(d: nat): (c: char)
    requires d < 10
    ensures '0' <= c <= '9' && c as int == '0' as int + d
  {
    ('0' as int + d) as char
  }

  function DigitValue(c: char): (d: nat)
    requires '0' <= c <= '9'
    ensures d < 10 && DigitChar(d) == c
  {
    (c as int - '0' as int) as nat
  }

  predicate IsDecimal(s: string) {
    s != [] && (forall i :: 0 <= i < |s| ==> '0' <= s[i] <= '9') && (s[0] == '0' ==> |s| == 1)
  }

  /** The value of a string of decimal digits, most significant first. */
  function DecimalValue(s: string): nat
    requires forall i :: 0 <= i < |s| ==> '0' <= s[i] <= '9'
    decreases |s|
  {
    if s == [] then 0 else DecimalValue(s[..|s| - 1]) * 10 + DigitValue(s[|s| - 1])
  }

  /** `String(n)` for a non-negative integer: its decimal digits without leading zeros. */
  function NatToDecimal(n: nat): (r: string)
    ensures IsDecimal(r)
    decreases n
  {
    if n < 10 then [DigitChar(n)]
    else
      var r := NatToDecimal(n / 10) + [DigitChar(n % 10)];
      assert r[0] == NatToDecimal(n / 10)[0];
      r
  }

  /** Reading the digits back gives the number: the rendering loses nothing. */
  lemma {:induction false} NatToDecimalRoundTrip(n: nat)
    ensures DecimalValue(NatToDecimal(n)) == n
    decreases n
  {
    if n >= 10 {
      NatToDecimalRoundTrip(n / 10);
      var r := NatToDecimal(n);
      assert r[..|r| - 1] == NatToDecimal(n / 10);
      assert DigitValue(r[|r| - 1]) == n % 10;
      assert n == (n / 10) * 10 + n % 10;
    } else {
      assert NatToDecimal(n)[..0] == [];
    }
  }

  lemma NatToDecimalInjective(m: nat, n: nat)
    ensures NatToDecimal(m) == NatToDecimal(n) ==> m == n
  {
    NatToDecimalRoundTrip(m);
    NatToDecimalRoundTrip(n);
  }

  /** `s.split(sep)[0]`: everything before the first `sep`, or all of `s` when there is none. */
  function BeforeFirst(s: string, sep: char): (r: string)
    ensures |r| <= |s| && r == s[..|r|]
    ensures sep !in r
    ensures |r| < |s| ==> s[|r|] == sep
    decreases |s|
  {
    if s == [] || s[0] == sep then [] else [s[0]] + BeforeFirst(s[1..], sep)
  }

  /** The part before the first separator of `a + [sep] + rest` is `a` when `a` has none. */
  lemma {:induction false} BeforeFirstUpTo(a: string, sep: char, rest: string)
    requires sep !in a
    ensures BeforeFirst(a + [sep] + rest, sep) == a
    decreases |a|
  {
    var s := a + [sep] + rest;
    if a != [] {
      assert s[0] == a[0] && s[1..] == a[1..] + [sep] + rest;
      BeforeFirstUpTo(a[1..], sep, rest);
    }
  }

  /** `a || b` where `a` is a string that may be missing: the empty string is falsy too. */
  function OrElse(a: Option<string>, b: string): (r: string)
    ensures !(a.Some? && a.value != []) ==> r == b
    ensures (a.Some? && a.value != []) ==> r == a.value
  {
    if a.Some? && a.value != [] then a.value else b
  }

  /** `toUpperCase()` on one character; only ASCII letters are mapped. */
  function UpperAscii(c: char): (u: char)
    ensures 'a' <= c <= 'z' ==> 'A' <= u <= 'Z' && u as int == c as int - 32
    ensures !('a' <= c <= 'z') ==> u == c
  {
    if 'a' <= c <= 'z' then (c as int - 32) as char else c
  }
}
