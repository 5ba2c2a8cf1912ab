/** The string primitives the program relies on: `str.lower()`, `str.strip()`,
    `str.isnumeric()` with `int()`, `str(n)`, `sep.join(xs)` and the ordering
    Python uses to compare two strings. Python's versions are Unicode-aware;
    these work on the ASCII range and leave every other character alone. */
module Text {

  /** `c.isspace()` for ASCII: tab, line feed, vertical tab, form feed,
      carriage return, the four information separators and the space. */
  predicate IsSpace(c: char) {
    9 <= c as int <= 13 || 28 <= c as int <= 32
  }

  predicate AllSpace(s: string) {
    forall k :: 0 <= k < |s| ==> IsSpace(s[k])
  }

  /** Neither end of `s` is white space: what `str.strip()` promises of its result. */
  predicate IsStripped(s: string) {
    |s| == 0 || (!IsSpace(s[0]) && !IsSpace(s[|s| - 1]))
  }

  /** `s.rstrip()`: drops the trailing white space, keeping a prefix of `s`. */
  function TrimRight(s: string): (r: string)
    ensures r <= s
    ensures |r| > 0 ==> !IsSpace(r[|r| - 1])
  {
    if |s| > 0 && IsSpace(s[|s| - 1]) then TrimRight(s[..|s| - 1]) else s
  }

  /** `s.strip()`: drops the leading white space, then the trailing white space. */
  function Strip(s: string): (r: string)
    ensures IsStripped(r)
  {
    if |s| > 0 && IsSpace(s[0]) then Strip(s[1..]) else TrimRight(s)
  }

  /** `TrimRight` removes only white space: `s` is the result followed by it. */
  lemma {:induction false} TrimRightSplit(s: string) returns (post: string)
    ensures AllSpace(post) && s == TrimRight(s) + post
  {
    if |s| > 0 && IsSpace(s[|s| - 1]) {
      var p := TrimRightSplit(s[..|s| - 1]);
      post := p + [s[|s| - 1]];
      assert s == s[..|s| - 1] + [s[|s| - 1]];
    } else {
      post := "";
    }
  }

  /** `Strip` removes only white space at the two ends: `s` is the result
      with white space before and after it. */
  lemma {:induction false} StripSplit(s: string) returns (pre: string, post: string)
    ensures AllSpace(pre) && AllSpace(post) && s == pre + Strip(s) + post
  {
    if |s| > 0 && IsSpace(s[0]) {
      var p, q := StripSplit(s[1..]);
      pre, post := [s[0]] + p, q;
      assert s == [s[0]] + s[1..];
    } else {
      pre := "";
      post := TrimRightSplit(s);
    }
  }

  /** Trailing white space after a piece that does not end in white space is
      exactly what `TrimRight` removes. */
  lemma {:induction false} TrimRightPadding(mid: string, post: string)
    requires AllSpace(post)
    requires |mid| == 0 || !IsSpace(mid[|mid| - 1])
    ensures TrimRight(mid + post) == mid
    decreases |post|
  {
    if |post| > 0 {
      var s := mid + post;
      assert s[..|s| - 1] == mid + post[..|post| - 1];
      TrimRightPadding(mid, post[..|post| - 1]);
    } else {
      assert mid + post == mid;
    }
  }

  /** A string of white space strips to nothing. */
  lemma {:induction false} StripAllSpace(s: string)
    requires AllSpace(s)
    ensures Strip(s) == ""
    decreases |s|
  {
    if |s| > 0 { StripAllSpace(s[1..]); }
  }

  /** White space around a stripped string is exactly what `Strip` removes;
      with `StripSplit`, this says `Strip` is `str.strip()`. */
  lemma {:induction false} StripPadding(pre: string, mid: string, post: string)
    requires AllSpace(pre) && AllSpace(post) && IsStripped(mid)
    ensures Strip(pre + mid + post) == mid
    decreases |pre|
  {
    var s := pre + mid + post;
    if |pre| > 0 {
      assert s[1..] == pre[1..] + mid + post;
      StripPadding(pre[1..], mid, post);
    } else if |mid| == 0 {
      assert s == post;
      StripAllSpace(post);
    } else {
      assert s == mid + post;
      TrimRightPadding(mid, post);
    }
  }

  /** Stripping twice is stripping once. */
  lemma StripIdempotent(s: string)
    ensures Strip(Strip(s)) == Strip(s)
  {
    StripPadding("", Strip(s), "");
    assert "" + Strip(s) + "" == Strip(s);
  }

  function LowerChar(c: char): char {
    if 'A' <= c <= 'Z' then (c as int + 32) as char else c
  }

  /** `s.lower()` on the ASCII range: each capital letter becomes the same
      small letter, and every other character stays where it was. */
  function Lower(s: string): (r: string)
    ensures |r| == |s|
    ensures forall k :: 0 <= k < |r| ==> !('A' <= r[k] <= 'Z')
    ensures forall k :: 0 <= k < |s| && !('A' <= s[k] <= 'Z') ==> r[k] == s[k]
    // a capital becomes its own small letter: same place in the alphabet
    ensures forall k :: 0 <= k < |s| && 'A' <= s[k] <= 'Z' ==>
      'a' <= r[k] <= 'z' && r[k] as int - 'a' as int == s[k] as int - 'A' as int
  {
    seq(|s|, k requires 0 <= k < |s| => LowerChar(s[k]))
  }

  /** Lowering twice is lowering once, so `lower()` of a lowered name
      leaves it as it is. */
  lemma LowerIdempotent(s: string)
    ensures Lower(Lower(s)) == Lower(s)
  {
  }

  predicate IsDigit(c: char) {
    '0' <= c <= '9'
  }

  predicate AllDigits(s: string) {
    forall k :: 0 <= k < |s| ==> IsDigit(s[k])
  }

  /** `s.isnumeric()` on the ASCII range: non-empty and every character a digit. */
  predicate IsNumeric(s: string) {
    |s| > 0 && AllDigits(s)
  }

  function DigitChar(d: nat): (c: char)
    requires d < 10
    ensures IsDigit(c)
  {
    ('0' as int + d) as char
  }

  /** `int(s)` for a string of decimal digits; leading zeros are allowed. */
  function DigitsValue(s: string): nat
    requires AllDigits(s)
  {
    if |s| == 0 then 0
    else 10 * DigitsValue(s[..|s| - 1]) + (s[|s| - 1] as int - '0' as int)
  }

  /** `str(n)` for a natural number: the shortest decimal rendering. */
  function NatToString(n: nat): (r: string)
    ensures IsNumeric(r)
    ensures n > 0 ==> r[0] != '0'
  {
    if n < 10 then [DigitChar(n)] else NatToString(n / 10) + [DigitChar(n % 10)]
  }

  /** `int(str(n)) == n`. */
  lemma {:induction false} NatToStringRoundTrip(n: nat)
    ensures DigitsValue(NatToString(n)) == n
  {
    if n >= 10 {
      var s := NatToString(n);
      assert s[..|s| - 1] == NatToString(n / 10);
      NatToStringRoundTrip(n / 10);
    }
  }

  /** `sep.join(xs)`. */
  function Join(sep: string, xs: seq<string>): (r: string)
    ensures |xs| == 0 ==> r == ""
    ensures |xs| > 0 ==> xs[0] <= r
  {
    if |xs| == 0 then ""
    else if |xs| == 1 then xs[0]
    else xs[0] + sep + Join(sep, xs[1..])
  }

  /** Python's `a <= b` on strings: lexicographic by code point, a proper
      prefix coming first. */
  predicate LexLe(a: string, b: string)
    decreases |a|
  {
    |a| == 0 || (|b| > 0 && (a[0] < b[0] || (a[0] == b[0] && LexLe(a[1..], b[1..]))))
  }

  lemma {:induction false} LexLeReflexive(a: string)
    ensures LexLe(a, a)
    decreases |a|
  {
    if |a| > 0 { LexLeReflexive(a[1..]); }
  }

  lemma {:induction false} LexLeTotal(a: string, b: string)
    ensures LexLe(a, b) || LexLe(b, a)
    decreases |a|
  {
    if |a| > 0 && |b| > 0 && a[0] == b[0] { LexLeTotal(a[1..], b[1..]); }
  }

  lemma {:induction false} LexLeAntisymmetric(a: string, b: string)
    requires LexLe(a, b) && LexLe(b, a)
    ensures a == b
    decreases |a|
  {
    if |a| > 0 {
      LexLeAntisymmetric(a[1..], b[1..]);
      assert a == [a[0]] + a[1..] && b == [b[0]] + b[1..];
    }
  }

  lemma {:induction false} LexLeTransitive(a: string, b: string, c: string)
    requires LexLe(a, b) && LexLe(b, c)
    ensures LexLe(a, c)
    decreases |a|
  {
    if |a| > 0 && a[0] == b[0] && b[0] == c[0] {
      LexLeTransitive(a[1..], b[1..], c[1..]);
    }
  }
}
