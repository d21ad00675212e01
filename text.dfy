/** The two pieces of Rust's standard library whose exact behaviour the backup
    tool's strings depend on: `str::split_whitespace` (which re-tokenises the
    mysqldump command line) and the decimal `Display` of an integer (which
    prints the database port). */
module Text {
  import opened Common

  /** Rust's `char::is_whitespace`: the Unicode White_Space property. */
  predicate IsWhitespace(c: char)
  {
    ('\U{9}' <= c <= '\U{D}') || c == ' ' || c == '\U{85}' || c == '\U{A0}' ||
    c == '\U{1680}' || ('\U{2000}' <= c <= '\U{200A}') || c == '\U{2028}' ||
    c == '\U{2029}' || c == '\U{202F}' || c == '\U{205F}' || c == '\U{3000}'
  }

  predicate NoWhitespace(s: string)
  {
    forall i :: 0 <= i < |s| ==> !IsWhitespace(s[i])
  }

  /** Length of the run of non-whitespace characters that starts `s`. */
  function WordLength(s: string): (k: nat)
    ensures k <= |s|
    ensures forall i :: 0 <= i < k ==> !IsWhitespace(s[i])
    ensures k < |s| ==> IsWhitespace(s[k])
  {
    if s == [] || IsWhitespace(s[0]) then 0 else 1 + WordLength(s[1..])
  }

  /** `s.split_whitespace().collect::<Vec<_>>()`: the maximal runs of
      non-whitespace characters of `s`, in order. */
  function SplitWhitespace(s: string): (words: seq<string>)
    ensures forall i :: 0 <= i < |words| ==> words[i] != [] && NoWhitespace(words[i])
    decreases |s|
  {
    if s == [] then []
    else if IsWhitespace(s[0]) then SplitWhitespace(s[1..])
    else
      var k := WordLength(s);
      [s[..k]] + SplitWhitespace(s[k..])
  }

  /** A whitespace character is a hard boundary: the words of `a + [c] + b`
      are the words of `a` followed by the words of `b`. */
  lemma {:induction false} SplitAtWhitespace(a: string, c: char, b: string)
    requires IsWhitespace(c)
    ensures SplitWhitespace(a + [c] + b) == SplitWhitespace(a) + SplitWhitespace(b)
    decreases |a|
  {
    var s := a + [c] + b;
    if a == [] {
      assert s[1..] == b;
    } else if IsWhitespace(a[0]) {
      assert s[1..] == a[1..] + [c] + b;
      SplitAtWhitespace(a[1..], c, b);
    } else {
      var k := WordLength(a);
      assert forall i :: 0 <= i < k ==> s[i] == a[i];
      assert k < |s| && IsWhitespace(s[k]) by {
        if k < |a| { assert s[k] == a[k]; } else { assert s[k] == c; }
      }
      WordLengthIs(s, k);
      assert s[..k] == a[..k];
      assert s[k..] == a[k..] + [c] + b;
      SplitAtWhitespace(a[k..], c, b);
    }
  }

  /** `WordLength` is the position of the first whitespace character (or the length). */
  lemma WordLengthIs(s: string, k: nat)
    requires k <= |s|
    requires forall i :: 0 <= i < k ==> !IsWhitespace(s[i])
    requires k < |s| ==> IsWhitespace(s[k])
    ensures WordLength(s) == k
  {
  }

  /** The join the tool performs: two pieces glued by one space. */
  lemma SplitAtSpace(a: string, b: string)
    ensures SplitWhitespace(a + " " + b) == SplitWhitespace(a) + SplitWhitespace(b)
  {
    SplitAtWhitespace(a, ' ', b);
  }

  /** A string without whitespace is one word, or none when it is empty. */
  lemma SplitWord(w: string)
    requires NoWhitespace(w)
    ensures SplitWhitespace(w) == if w == [] then [] else [w]
  {
    if w != [] {
      assert WordLength(w) == |w|;
      assert w[..|w|] == w;
    }
  }

  lemma NoWhitespaceConcat(a: string, b: string)
    requires NoWhitespace(a) && NoWhitespace(b)
    ensures NoWhitespace(a + b)
  {
    var s := a + b;
    forall i | 0 <= i < |s| ensures !IsWhitespace(s[i]) {
      if i < |a| { assert s[i] == a[i]; } else { assert s[i] == b[i - |a|]; }
    }
  }

  predicate IsDigit(c: char)
  {
    '0' <= c <= '9'
  }

  predicate AllDigits(s: string)
  {
    forall i :: 0 <= i < |s| ==> IsDigit(s[i])
  }

  function DigitChar(d: nat): (c: char)
    requires d < 10
    ensures IsDigit(c) && c as int - '0' as int == d
  {
    ('0' as int + d) as char
  }

  /** Decimal digits of `n`, most significant first, without leading zeros. */
  function NatToString(n: nat): (s: string)
    ensures s != [] && AllDigits(s)
    ensures |s| > 1 ==> s[0] != '0'
  {
    if n < 10 then [DigitChar(n)] else NatToString(n / 10) + [DigitChar(n % 10)]
  }

  /** `format!("{}", i)` for a signed integer: a minus sign before the digits
      of a negative value. */
  function IntToString(i: int): (s: string)
    ensures s != [] && NoWhitespace(s)
  {
    var s := if i < 0 then "-" + NatToString(-i) else NatToString(i);
    assert forall k :: 0 < k < |s| ==> IsDigit(s[k]);
    s
  }

  /** Value of a string of decimal digits. */
  function DigitsValue(s: string): nat
    requires AllDigits(s)
  {
    if s == [] then 0 else DigitsValue(s[..|s| - 1]) * 10 + (s[|s| - 1] as int - '0' as int)
  }

  /** Reads back an optionally signed decimal integer: the inverse of `IntToString`. */
  function ParseInt(s: string): Option<int>
  {
    if |s| > 1 && s[0] == '-' && AllDigits(s[1..]) then Some(-(DigitsValue(s[1..]) as int))
    else if s != [] && AllDigits(s) then Some(DigitsValue(s))
    else None
  }

  lemma {:induction false} NatToStringRoundTrip(n: nat)
    ensures DigitsValue(NatToString(n)) == n
  {
    if n >= 10 {
      var s := NatToString(n);
      NatToStringRoundTrip(n / 10);
      assert s[..|s| - 1] == NatToString(n / 10);
    }
  }

  /** Printing an integer loses nothing: parsing the text gives it back. */
  lemma IntToStringRoundTrip(i: int)
    ensures ParseInt(IntToString(i)) == Some(i)
  {
    var s := IntToString(i);
    if i < 0 {
      var digits := NatToString(-i);
      assert s == "-" + digits && s[1..] == digits;
      NatToStringRoundTrip(-i);
      assert ParseInt(s) == Some(-(DigitsValue(digits) as int));
    } else {
      assert s == NatToString(i) && IsDigit(s[0]);
      NatToStringRoundTrip(i);
    }
  }

  /** Distinct integers print differently. */
  lemma IntToStringInjective(i: int, j: int)
    requires IntToString(i) == IntToString(j)
    ensures i == j
  {
    IntToStringRoundTrip(i);
    IntToStringRoundTrip(j);
  }
}
