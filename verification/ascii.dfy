/**
 * The string primitives the game relies on — Python's `str.lower`, `str.strip`
 * and `str.isalpha` — restricted to ASCII. Characters outside ASCII are left
 * unchanged by `Lower`, are never whitespace and are never letters.
 */
module Ascii {

  /** Python's `str.isspace` on ASCII: tab, line feed, vertical tab, form feed,
      carriage return, the four information separators 0x1C-0x1F, and space. */
  predicate IsWhitespace(c: char) {
    c == ' ' || ('\U{9}' <= c <= '\U{D}') || ('\U{1C}' <= c <= '\U{1F}')
  }

  predicate IsUpper(c: char) {
    'A' <= c <= 'Z'
  }

  predicate IsLower(c: char) {
    'a' <= c <= 'z'
  }

  /** `str.isalpha` on ASCII. */
  predicate IsLetter(c: char) {
    IsUpper(c) || IsLower(c)
  }

  predicate AllWhitespace(s: string) {
    forall i :: 0 <= i < |s| ==> IsWhitespace(s[i])
  }

  predicate AllLower(s: string) {
    forall i :: 0 <= i < |s| ==> IsLower(s[i])
  }

  function LowerChar(c: char): (r: char)
    ensures IsUpper(c) ==> IsLower(r) && r as int - c as int == 32
    ensures !IsUpper(c) ==> r == c
  {
    if IsUpper(c) then (c as int + 32) as char else c
  }

  function UpperChar(c: char): (r: char)
    ensures IsLower(c) ==> IsUpper(r) && c as int - r as int == 32
    ensures !IsLower(c) ==> r == c
  {
    if IsLower(c) then (c as int - 32) as char else c
  }

  /** `str.lower`: every character folded on its own, so length and position are kept. */
  function Lower(s: string): (r: string)
    ensures |r| == |s|
    ensures forall i :: 0 <= i < |s| ==> r[i] == LowerChar(s[i])
  {
    seq(|s|, i requires 0 <= i < |s| => LowerChar(s[i]))
  }

  /** `str.upper`, used to state case-insensitivity. */
  function Upper(s: string): (r: string)
    ensures |r| == |s|
    ensures forall i :: 0 <= i < |s| ==> r[i] == UpperChar(s[i])
  {
    seq(|s|, i requires 0 <= i < |s| => UpperChar(s[i]))
  }

  /** Drops leading whitespace. */
  function TrimStart(s: string): string
  {
    if |s| > 0 && IsWhitespace(s[0]) then TrimStart(s[1..]) else s
  }

  /** Drops trailing whitespace. */
  function TrimEnd(s: string): string
  {
    if |s| > 0 && IsWhitespace(s[|s| - 1]) then TrimEnd(s[..|s| - 1]) else s
  }

  /** `str.strip()` with no argument. */
  function Strip(s: string): string
  {
    TrimEnd(TrimStart(s))
  }

  /** `t` is `s` with a whitespace prefix and a whitespace suffix removed, and
      `t` neither starts nor ends with whitespace: the independent description
      of what `str.strip()` returns. */
  ghost predicate IsStripOf(s: string, t: string) {
    && (|t| > 0 ==> !IsWhitespace(t[0]) && !IsWhitespace(t[|t| - 1]))
    && exists a, b :: s == a + t + b && AllWhitespace(a) && AllWhitespace(b)
  }

  lemma {:induction false} TrimStartSplits(s: string)
    ensures exists a :: s == a + TrimStart(s) && AllWhitespace(a)
    ensures |TrimStart(s)| > 0 ==> !IsWhitespace(TrimStart(s)[0])
    decreases |s|
  {
    if |s| > 0 && IsWhitespace(s[0]) {
      TrimStartSplits(s[1..]);
      var a :| s[1..] == a + TrimStart(s[1..]) && AllWhitespace(a);
      assert s == [s[0]] + a + TrimStart(s);
      assert AllWhitespace([s[0]] + a);
    } else {
      assert s == [] + TrimStart(s);
    }
  }

  lemma {:induction false} TrimEndSplits(s: string)
    ensures exists b :: s == TrimEnd(s) + b && AllWhitespace(b)
    ensures |TrimEnd(s)| > 0 ==> !IsWhitespace(TrimEnd(s)[|TrimEnd(s)| - 1])
    ensures |TrimEnd(s)| > 0 && |s| > 0 ==> TrimEnd(s)[0] == s[0]
    decreases |s|
  {
    if |s| > 0 && IsWhitespace(s[|s| - 1]) {
      var s' := s[..|s| - 1];
      TrimEndSplits(s');
      var b :| s' == TrimEnd(s') + b && AllWhitespace(b);
      assert s == TrimEnd(s) + (b + [s[|s| - 1]]);
      assert AllWhitespace(b + [s[|s| - 1]]);
    } else {
      assert s == TrimEnd(s) + [];
    }
  }

  /** `Strip` meets the independent description of `str.strip()`. */
  lemma StripIsStrip(s: string)
    ensures IsStripOf(s, Strip(s))
  {
    TrimStartSplits(s);
    var a :| s == a + TrimStart(s) && AllWhitespace(a);
    TrimEndSplits(TrimStart(s));
    var b :| TrimStart(s) == Strip(s) + b && AllWhitespace(b);
    assert s == a + Strip(s) + b;
  }

  lemma {:induction false} TrimStartOfWhitespacePrefix(a: string, s: string)
    requires AllWhitespace(a)
    ensures TrimStart(a + s) == TrimStart(s)
    decreases |a|
  {
    if |a| > 0 {
      assert (a + s)[1..] == a[1..] + s;
      TrimStartOfWhitespacePrefix(a[1..], s);
    } else {
      assert a + s == s;
    }
  }

  lemma {:induction false} TrimEndOfWhitespaceSuffix(s: string, b: string)
    requires AllWhitespace(b)
    ensures TrimEnd(s + b) == TrimEnd(s)
    decreases |b|
  {
    if |b| > 0 {
      assert (s + b)[..|s + b| - 1] == s + b[..|b| - 1];
      TrimEndOfWhitespaceSuffix(s, b[..|b| - 1]);
    } else {
      assert s + b == s;
    }
  }

  lemma {:induction false} TrimStartOfWhitespaceSuffix(s: string, b: string)
    requires AllWhitespace(b)
    ensures exists b' :: TrimStart(s + b) == TrimStart(s) + b' && AllWhitespace(b')
    decreases |s|
  {
    if |s| > 0 && IsWhitespace(s[0]) {
      assert (s + b)[1..] == s[1..] + b;
      TrimStartOfWhitespaceSuffix(s[1..], b);
    } else if |s| > 0 {
      assert TrimStart(s + b) == TrimStart(s) + b;
    } else {
      assert s + b == b;
      TrimStartOfWhitespacePrefix(b, []);
      assert b + [] == b;
      assert TrimStart(s + b) == TrimStart(s) + [];
    }
  }

  /** Surrounding whitespace does not change what `str.strip()` returns. */
  lemma StripIgnoresSurroundingWhitespace(a: string, s: string, b: string)
    requires AllWhitespace(a) && AllWhitespace(b)
    ensures Strip(a + s + b) == Strip(s)
  {
    assert a + s + b == a + (s + b);
    TrimStartOfWhitespacePrefix(a, s + b);
    TrimStartOfWhitespaceSuffix(s, b);
    var b' :| TrimStart(s + b) == TrimStart(s) + b' && AllWhitespace(b');
    TrimEndOfWhitespaceSuffix(TrimStart(s), b');
  }

  /** Lowering ignores the case of its input. */
  lemma LowerIgnoresCase(s: string)
    ensures Lower(Upper(s)) == Lower(s)
  {
  }

  lemma LowerWhitespace(c: char)
    ensures IsWhitespace(LowerChar(c)) <==> IsWhitespace(c)
  {
  }

  /** Lowering then stripping, as `verify_solution` does, is the same as
      stripping then lowering. */
  lemma {:induction false} LowerCommutesWithTrimStart(s: string)
    ensures Lower(TrimStart(s)) == TrimStart(Lower(s))
    decreases |s|
  {
    if |s| > 0 && IsWhitespace(s[0]) {
      assert Lower(s)[1..] == Lower(s[1..]);
      LowerCommutesWithTrimStart(s[1..]);
    } else if |s| > 0 {
      assert !IsWhitespace(Lower(s)[0]);
    }
  }

  lemma {:induction false} LowerCommutesWithTrimEnd(s: string)
    ensures Lower(TrimEnd(s)) == TrimEnd(Lower(s))
    decreases |s|
  {
    if |s| > 0 && IsWhitespace(s[|s| - 1]) {
      assert Lower(s)[..|s| - 1] == Lower(s[..|s| - 1]);
      LowerCommutesWithTrimEnd(s[..|s| - 1]);
    } else if |s| > 0 {
      assert !IsWhitespace(Lower(s)[|s| - 1]);
    }
  }

  lemma LowerCommutesWithStrip(s: string)
    ensures Lower(Strip(s)) == Strip(Lower(s))
  {
    LowerCommutesWithTrimStart(s);
    LowerCommutesWithTrimEnd(TrimStart(s));
  }

  /** True when `s` begins with `prefix` (`str.startswith`). */
  predicate StartsWith(s: string, prefix: string) {
    |prefix| <= |s| && s[..|prefix|] == prefix
  }
}
