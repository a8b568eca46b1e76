/** String helpers that stand for the JavaScript string and number built-ins the
    application uses: decimal rendering (Number.prototype.toString), two-digit
    padding (padStart(2, '0')), reading a run of decimal digits (Number, parseInt),
    trimming white space (String.prototype.trim), splitting at a separator and
    substring search (String.prototype.includes). */
module Text {
  import opened Options

  predicate IsDigit(c: char) {
    '0' <= c <= '9'
  }

  predicate AllDigits(s: string) {
    forall i :: 0 <= i < |s| ==> IsDigit(s[i])
  }

  function DigitChar(d: nat): (c: char)
    requires d < 10
    ensures IsDigit(c) && c as int - '0' as int == d
  {
    (('0' as int) + d) as char
  }

  function DigitValue(c: char): (d: nat)
    requires IsDigit(c)
    ensures d < 10 && DigitChar(d) == c
  {
    c as int - '0' as int
  }

  /** The decimal rendering of n, without leading zeros. */
  function NatToString(n: nat): (s: string)
    ensures 1 <= |s| && AllDigits(s)
    ensures n < 10 <==> |s| == 1
    decreases n
  {
    if n < 10 then [DigitChar(n)] else NatToString(n / 10) + [DigitChar(n % 10)]
  }

  /** The value of a non-empty or empty run of decimal digits (the empty run is 0). */
  function DigitsValue(s: string): (n: nat)
    requires AllDigits(s)
    decreases |s|
  {
    if s == [] then 0 else DigitsValue(s[..|s| - 1]) * 10 + DigitValue(s[|s| - 1])
  }

  /** Reading back a rendered number gives the number. */
  lemma {:induction false} DigitsValueOfNatToString(n: nat)
    ensures DigitsValue(NatToString(n)) == n
    decreases n
  {
    var s := NatToString(n);
    if n >= 10 {
      DigitsValueOfNatToString(n / 10);
      assert s[..|s| - 1] == NatToString(n / 10);
    }
  }

  /** Rendering is injective: different numbers render differently. */
  lemma NatToStringInjective(a: nat, b: nat)
    requires NatToString(a) == NatToString(b)
    ensures a == b
  {
    DigitsValueOfNatToString(a);
    DigitsValueOfNatToString(b);
  }

  /** padStart(2, '0'): prefix zeros up to length two; longer strings stay as they are. */
  function PadStart2(s: string): (r: string)
    ensures |s| >= 2 ==> r == s
    ensures |s| < 2 ==> |r| == 2 && r[2 - |s|..] == s && (forall i :: 0 <= i < 2 - |s| ==> r[i] == '0')
  {
    if |s| >= 2 then s else if |s| == 1 then ['0'] + s else "00"
  }

  /** n.toString().padStart(2, '0'). */
  function TwoDigits(n: nat): string {
    PadStart2(NatToString(n))
  }

  /** Below 100, the padded rendering is exactly two digits and reads back as n. */
  lemma TwoDigitsShape(n: nat)
    requires n < 100
    ensures |TwoDigits(n)| == 2 && AllDigits(TwoDigits(n))
    ensures TwoDigits(n) == [DigitChar(n / 10), DigitChar(n % 10)]
    ensures DigitsValue(TwoDigits(n)) == n
  {
    var hi, lo := DigitChar(n / 10), DigitChar(n % 10);
    if n >= 10 {
      assert NatToString(n / 10) == [hi];
      assert NatToString(n) == [hi, lo];
    } else {
      assert n / 10 == 0 && n % 10 == n;
      assert NatToString(n) == [lo];
    }
    var t := TwoDigits(n);
    assert t == [hi, lo];
    assert t[..1] == [hi] && [hi][..0] == [];
    assert DigitsValue([hi]) == n / 10;
    assert DigitsValue(t) == n / 10 * 10 + n % 10;
  }

  /** Every two-digit string is the padded rendering of its own value. */
  lemma TwoDigitsOfValue(s: string)
    requires |s| == 2 && AllDigits(s)
    ensures DigitsValue(s) < 100 && TwoDigits(DigitsValue(s)) == s
  {
    var v := DigitsValue(s);
    assert s[..1][..0] == [] && s[..1][0] == s[0];
    assert DigitsValue(s[..1]) == DigitValue(s[0]);
    assert v == DigitValue(s[0]) * 10 + DigitValue(s[1]);
    TwoDigitsShape(v);
    assert v / 10 == DigitValue(s[0]) && v % 10 == DigitValue(s[1]);
  }

  lemma TwoDigitsInjective(a: nat, b: nat)
    requires a < 100 && b < 100 && TwoDigits(a) == TwoDigits(b)
    ensures a == b
  {
    TwoDigitsShape(a);
    TwoDigitsShape(b);
  }

  /** Number(s) for the strings the application stores: the empty string reads as 0,
      a run of digits as its value, anything else as NaN (None). */
  function NumberOf(s: string): (r: Option<nat>)
    ensures AllDigits(s) ==> r == Some(DigitsValue(s))
    ensures !AllDigits(s) ==> r == None
  {
    if AllDigits(s) then Some(DigitsValue(s)) else None
  }

  /** The longest prefix of decimal digits. */
  function LeadingDigits(s: string): (r: string)
    ensures |r| <= |s| && r == s[..|r|] && AllDigits(r)
    ensures |r| < |s| ==> !IsDigit(s[|r|])
  {
    if s == [] || !IsDigit(s[0]) then [] else [s[0]] + LeadingDigits(s[1..])
  }

  /** parseInt(s, 10) for strings without a sign or leading blanks: the value of the
      leading digits, NaN (None) when there are none. */
  function ParseInt(s: string): (r: Option<nat>)
    ensures r.Some? <==> s != [] && IsDigit(s[0])
    ensures AllDigits(s) && s != [] ==> r == Some(DigitsValue(s))
  {
    var d := LeadingDigits(s);
    assert AllDigits(s) ==> d == s by {
      if AllDigits(s) && |d| < |s| {
        assert false;
      }
    }
    if d == [] then None else Some(DigitsValue(d))
  }

  /** s.split(sep): the pieces between separators, in order. */
  function Split(s: string, sep: char): (parts: seq<string>)
    ensures 1 <= |parts|
    ensures forall k :: 0 <= k < |parts| ==> sep !in parts[k]
    decreases |s|
  {
    if s == [] then [[]]
    else
      var rest := Split(s[1..], sep);
      if s[0] == sep then [[]] + rest else [[s[0]] + rest[0]] + rest[1..]
  }

  /** Splitting a separator-free string, the separator and a tail yields the string
      first, followed by the pieces of the tail. */
  lemma {:induction false} SplitConcat(a: string, sep: char, b: string)
    requires sep !in a
    ensures Split(a + [sep] + b, sep) == [a] + Split(b, sep)
    decreases |a|
  {
    if a == [] {
      assert (a + [sep] + b)[1..] == b;
    } else {
      assert (a + [sep] + b)[1..] == a[1..] + [sep] + b;
      SplitConcat(a[1..], sep, b);
      assert [a[0]] + a[1..] == a;
    }
  }

  lemma {:induction false} SplitNoSep(a: string, sep: char)
    requires sep !in a
    ensures Split(a, sep) == [a]
    decreases |a|
  {
    if a != [] {
      SplitNoSep(a[1..], sep);
      assert [a[0]] + a[1..] == a;
    }
  }

  /** s.includes(sub). */
  predicate Contains(s: string, sub: string) {
    exists k | 0 <= k <= |s| :: OccursAt(s, sub, k)
  }

  /** sub occurs in s starting at index k. */
  predicate OccursAt(s: string, sub: string, k: int) {
    0 <= k && k + |sub| <= |s| && s[k..k + |sub|] == sub
  }

  /** The characters String.prototype.trim removes: WhiteSpace and LineTerminator of
      section 12.2 and 12.3 of ECMA-262 (the space separators of Unicode category Zs
      as of Unicode 15). */
  predicate IsJsWhiteSpace(c: char) {
    c == '\t' || c == '\n' || c == '\U{000B}' || c == '\U{000C}' || c == '\r' || c == ' ' ||
    c == '\U{00A0}' || c == '\U{1680}' || ('\U{2000}' <= c <= '\U{200A}') ||
    c == '\U{2028}' || c == '\U{2029}' || c == '\U{202F}' || c == '\U{205F}' ||
    c == '\U{3000}' || c == '\U{FEFF}'
  }

  predicate AllWhiteSpace(s: string) {
    forall i :: 0 <= i < |s| ==> IsJsWhiteSpace(s[i])
  }

  function TrimStart(s: string): (r: string)
    ensures |r| <= |s| && r == s[|s| - |r|..]
    ensures AllWhiteSpace(s[..|s| - |r|])
    ensures r != [] ==> !IsJsWhiteSpace(r[0])
    decreases |s|
  {
    if s != [] && IsJsWhiteSpace(s[0]) then
      var r := TrimStart(s[1..]);
      WhiteSpaceAfterFirst(s, |s| - |r|);
      assert s[1..][|s| - 1 - |r|..] == s[|s| - |r|..];
      r
    else s
  }

  /** A white-space character followed by white space is white space. */
  lemma WhiteSpaceAfterFirst(s: string, k: nat)
    requires 1 <= k <= |s| && IsJsWhiteSpace(s[0]) && AllWhiteSpace(s[1..][..k - 1])
    ensures AllWhiteSpace(s[..k])
  {
    forall i | 1 <= i < k ensures IsJsWhiteSpace(s[i]) {
      assert s[1..][..k - 1][i - 1] == s[i];
    }
  }

  function TrimEnd(s: string): (r: string)
    ensures |r| <= |s| && r == s[..|r|]
    ensures AllWhiteSpace(s[|r|..])
    ensures r != [] ==> !IsJsWhiteSpace(r[|r| - 1])
    decreases |s|
  {
    if s != [] && IsJsWhiteSpace(s[|s| - 1]) then
      var r := TrimEnd(s[..|s| - 1]);
      assert s[|r|..] == s[..|s| - 1][|r|..] + [s[|s| - 1]];
      r
    else s
  }

  /** s.trim(): s without its leading and trailing white space. */
  function Trim(s: string): (r: string)
    ensures exists i, j :: 0 <= i <= j <= |s| && r == s[i..j] && AllWhiteSpace(s[..i]) && AllWhiteSpace(s[j..])
    ensures r != [] ==> !IsJsWhiteSpace(r[0]) && !IsJsWhiteSpace(r[|r| - 1])
  {
    var t := TrimStart(s);
    var r := TrimEnd(t);
    TrimSpan(s, t, r);
    r
  }

  /** The part TrimEnd keeps of what TrimStart kept is a slice of the original string
      with only white space before and after it. */
  lemma TrimSpan(s: string, t: string, r: string)
    requires |t| <= |s| && t == s[|s| - |t|..] && AllWhiteSpace(s[..|s| - |t|])
    requires |r| <= |t| && r == t[..|r|] && AllWhiteSpace(t[|r|..])
    ensures exists i, j :: 0 <= i <= j <= |s| && r == s[i..j] && AllWhiteSpace(s[..i]) && AllWhiteSpace(s[j..])
    ensures r != [] ==> r[0] == t[0]
  {
    var i := |s| - |t|;
    assert r == s[i..i + |r|];
    assert s[i + |r|..] == t[|r|..];
  }

  /** A string trims to the empty string exactly when it is all white space. */
  lemma TrimEmptyIffWhiteSpace(s: string)
    ensures Trim(s) == [] <==> AllWhiteSpace(s)
  {
    var r := Trim(s);
    var i, j :| 0 <= i <= j <= |s| && r == s[i..j] && AllWhiteSpace(s[..i]) && AllWhiteSpace(s[j..]);
    if r == [] {
      forall k | 0 <= k < |s| ensures IsJsWhiteSpace(s[k]) {
        if k < i { assert s[..i][k] == s[k]; } else { assert s[j..][k - j] == s[k]; }
      }
    }
  }
}
