// String operations the core relies on: lower-casing, substring search,
// trimming, splitting, unsigned parsing and pattern removal.

module Text {
  import opened Errors

  /** Lower-case form of one character; only ASCII letters change. */
  function LowerChar(c: char): (r: char)
    ensures 'A' <= c <= 'Z' ==> r != c && 'a' <= r <= 'z'
    ensures !('A' <= c <= 'Z') ==> r == c
  {
    if 'A' <= c <= 'Z' then (c as int - 'A' as int + 'a' as int) as char else c
  }

  /** Lower-case form of a string, character by character. */
  function ToLower(s: string): (r: string)
    ensures |r| == |s|
    ensures forall i | 0 <= i < |s| :: r[i] == LowerChar(s[i])
  {
    if s == [] then [] else [LowerChar(s[0])] + ToLower(s[1..])
  }

  /** Lower-casing twice is lower-casing once. */
  lemma ToLowerIdempotent(s: string)
    ensures ToLower(ToLower(s)) == ToLower(s)
  {
    assert forall i | 0 <= i < |s| :: LowerChar(LowerChar(s[i])) == LowerChar(s[i]);
  }

  predicate StartsWith(s: string, prefix: string)
  {
    |prefix| <= |s| && s[..|prefix|] == prefix
  }

  predicate EndsWith(s: string, suffix: string)
  {
    |suffix| <= |s| && s[|s| - |suffix|..] == suffix
  }

  /** Substring search: some position of `s` starts an occurrence of `pat`. */
  predicate Contains(s: string, pat: string)
    decreases |s|
  {
    StartsWith(s, pat) || (|s| > 0 && Contains(s[1..], pat))
  }

  lemma {:induction false} ContainsAt(s: string, pat: string, i: nat)
    requires i + |pat| <= |s| && s[i..i + |pat|] == pat
    ensures Contains(s, pat)
    decreases i
  {
    if i > 0 {
      assert s[1..][i - 1..i - 1 + |pat|] == s[i..i + |pat|];
      ContainsAt(s[1..], pat, i - 1);
    }
  }

  lemma {:induction false} ContainsSuffix(s: string, t: string, pat: string)
    requires Contains(t, pat)
    ensures Contains(s + t, pat)
    decreases |s|
  {
    if s != [] {
      assert (s + t)[1..] == s[1..] + t;
      ContainsSuffix(s[1..], t, pat);
      assert Contains((s + t)[1..], pat);
    } else {
      assert s + t == t;
    }
  }

  lemma {:induction false} ContainsPrefix(s: string, t: string, pat: string)
    requires Contains(s, pat)
    ensures Contains(s + t, pat)
    decreases |s|
  {
    if StartsWith(s, pat) {
      assert (s + t)[..|pat|] == s[..|pat|];
    } else {
      assert (s + t)[1..] == s[1..] + t;
      ContainsPrefix(s[1..], t, pat);
    }
  }

  /** Text placed between two others is contained in the whole. */
  lemma ContainsMiddle(a: string, pat: string, b: string)
    ensures Contains(a + pat + b, pat)
  {
    assert pat[0..|pat|] == pat;
    ContainsAt(pat, pat, 0);
    ContainsPrefix(pat, b, pat);
    ContainsSuffix(a, pat + b, pat);
    assert a + pat + b == a + (pat + b);
  }

  /** The characters Rust's `char::is_whitespace` accepts. */
  predicate IsWhitespace(c: char)
  {
    c == ' ' || c == '\t' || c == '\n' || c == '\r' || c == '\U{000B}' || c == '\U{000C}'
    || c == '\U{0085}' || c == '\U{00A0}' || c == '\U{1680}'
    || ('\U{2000}' <= c <= '\U{200A}')
    || c == '\U{2028}' || c == '\U{2029}' || c == '\U{202F}' || c == '\U{205F}' || c == '\U{3000}'
  }

  function TrimStart(s: string): (r: string)
    ensures |r| <= |s| && r == s[|s| - |r|..]
    ensures r == [] || !IsWhitespace(r[0])
    ensures forall i | 0 <= i < |s| - |r| :: IsWhitespace(s[i])
  {
    if s != [] && IsWhitespace(s[0]) then TrimStart(s[1..]) else s
  }

  function TrimEnd(s: string): (r: string)
    ensures |r| <= |s| && r == s[..|r|]
    ensures r == [] || !IsWhitespace(r[|r| - 1])
    ensures forall i | |r| <= i < |s| :: IsWhitespace(s[i])
  {
    if s != [] && IsWhitespace(s[|s| - 1]) then TrimEnd(s[..|s| - 1]) else s
  }

  /**
   * Removes leading and trailing whitespace: the result is a slice of the
   * input with only whitespace before and after it, and it neither starts
   * nor ends with whitespace.
   */
  function Trim(s: string): (r: string)
    ensures r == [] || (!IsWhitespace(r[0]) && !IsWhitespace(r[|r| - 1]))
    ensures |r| <= |s|
    ensures exists a: nat :: WhitespaceAround(s, a, r)
  {
    TrimAround(s);
    TrimEnd(TrimStart(s))
  }

  /** Trimming both ends keeps the slice between the leading and the trailing whitespace. */
  lemma TrimAround(s: string)
    ensures WhitespaceAround(s, |s| - |TrimStart(s)|, TrimEnd(TrimStart(s)))
  {
    var t := TrimStart(s);
    Around(s, |s| - |t|, t, TrimEnd(t));
  }

  /** Whitespace before the suffix t, and whitespace after its prefix r, surround r in s. */
  lemma Around(s: string, a: nat, t: string, r: string)
    requires a <= |s| && t == s[a..] && |r| <= |t| && r == t[..|r|]
    requires forall i | 0 <= i < a :: IsWhitespace(s[i])
    requires forall j | |r| <= j < |t| :: IsWhitespace(t[j])
    ensures WhitespaceAround(s, a, r)
  {
    SuffixPrefix(s, a, t, r);
    SuffixWhitespace(s, a, t, |r|);
  }

  /** A prefix of the suffix from position a is the slice of s from a on. */
  lemma SuffixPrefix(s: string, a: nat, t: string, r: string)
    requires a <= |s| && t == s[a..] && |r| <= |t| && r == t[..|r|]
    ensures a + |r| <= |s| && s[a..a + |r|] == r
  {
  }

  /** Whitespace at the end of the suffix from position a is whitespace at the end of s. */
  lemma SuffixWhitespace(s: string, a: nat, t: string, n: nat)
    requires a <= |s| && t == s[a..] && n <= |t|
    requires forall j | n <= j < |t| :: IsWhitespace(t[j])
    ensures forall i | a + n <= i < |s| :: IsWhitespace(s[i])
  {
    forall i | a + n <= i < |s|
      ensures IsWhitespace(s[i])
    {
      assert s[i] == t[i - a];
    }
  }

  /** `s` is `r`, starting at position a, with only whitespace before and after it. */
  predicate WhitespaceAround(s: string, a: nat, r: string)
  {
    a + |r| <= |s| && s[a..a + |r|] == r
    && (forall i | 0 <= i < a :: IsWhitespace(s[i]))
    && (forall i | a + |r| <= i < |s| :: IsWhitespace(s[i]))
  }

  /** Text without whitespace at either end is its own trim. */
  lemma TrimmedAlready(s: string)
    requires s == [] || (!IsWhitespace(s[0]) && !IsWhitespace(s[|s| - 1]))
    ensures Trim(s) == s
  {
  }

  /** One leading space is trimmed away. */
  lemma TrimLeadingSpace(s: string)
    requires s != [] && !IsWhitespace(s[0]) && !IsWhitespace(s[|s| - 1])
    ensures Trim([' '] + s) == s
  {
    assert ([' '] + s)[1..] == s;
  }

  /** Splits at every occurrence of `sep`; n separators give n + 1 parts. */
  function Split(s: string, sep: char): (parts: seq<string>)
    ensures |parts| >= 1
    ensures forall k | 0 <= k < |parts| :: sep !in parts[k]
    decreases |s|
  {
    if s == [] then [""]
    else
      var rest := Split(s[1..], sep);
      if s[0] == sep then [""] + rest else [[s[0]] + rest[0]] + rest[1..]
  }

  /** Joins parts with `sep` between consecutive ones. */
  function Join(parts: seq<string>, sep: char): string
    requires |parts| >= 1
  {
    if |parts| == 1 then parts[0] else parts[0] + [sep] + Join(parts[1..], sep)
  }

  /** Splitting loses nothing: joining the parts gives back the input. */
  lemma {:induction false} JoinSplit(s: string, sep: char)
    ensures Join(Split(s, sep), sep) == s
    decreases |s|
  {
    if s != [] {
      var rest := Split(s[1..], sep);
      JoinSplit(s[1..], sep);
      if s[0] != sep {
        var parts := Split(s, sep);
        if |rest| == 1 {
          assert parts == [[s[0]] + rest[0]];
          assert s == [s[0]] + s[1..];
        } else {
          assert parts[1..] == rest[1..];
          assert Join(rest, sep) == rest[0] + [sep] + Join(rest[1..], sep);
          assert s == [s[0]] + s[1..];
        }
      } else {
        assert s == [sep] + s[1..];
      }
    }
  }

  /** Splitting text whose first piece holds no separator keeps that piece whole at the front. */
  lemma {:induction false} SplitCons(a: string, t: string, sep: char)
    requires sep !in a
    ensures Split(a + t, sep) == [a + Split(t, sep)[0]] + Split(t, sep)[1..]
    decreases |a|
  {
    if a != [] {
      SplitCons(a[1..], t, sep);
      var x := Split(t, sep);
      assert (a + t)[1..] == a[1..] + t;
      assert (a + t)[0] == a[0] != sep;
      assert [a[0]] + (a[1..] + x[0]) == a + x[0];
    } else {
      var x := Split(t, sep);
      assert a + t == t && a + x[0] == x[0];
      assert x == [x[0]] + x[1..];
    }
  }

  /** Joining separator-free parts and splitting again gives the parts back. */
  lemma {:induction false} SplitJoin(parts: seq<string>, sep: char)
    requires |parts| >= 1 && forall k | 0 <= k < |parts| :: sep !in parts[k]
    ensures Split(Join(parts, sep), sep) == parts
    decreases |parts|
  {
    if |parts| == 1 {
      SplitCons(parts[0], [], sep);
      assert parts[0] + [] == parts[0];
    } else {
      var rest := Join(parts[1..], sep);
      SplitJoin(parts[1..], sep);
      SplitCons(parts[0], [sep] + rest, sep);
      assert Join(parts, sep) == parts[0] + ([sep] + rest);
      assert ([sep] + rest)[1..] == rest;
      assert Split([sep] + rest, sep) == [""] + Split(rest, sep);
      assert parts[0] + "" == parts[0];
      assert parts == [parts[0]] + parts[1..];
    }
  }

  function CountChar(s: string, c: char): nat
  {
    if s == [] then 0 else (if s[0] == c then 1 else 0) + CountChar(s[1..], c)
  }

  /** One part more than there are separators. */
  lemma {:induction false} SplitCount(s: string, sep: char)
    ensures |Split(s, sep)| == CountChar(s, sep) + 1
    decreases |s|
  {
    if s != [] {
      SplitCount(s[1..], sep);
    }
  }

  predicate IsDigit(c: char) { '0' <= c <= '9' }

  function DigitsValue(s: string): nat
    requires forall i | 0 <= i < |s| :: IsDigit(s[i])
  {
    if s == [] then 0
    else
      assert IsDigit(s[|s| - 1]);
      DigitsValue(s[..|s| - 1]) * 10 + (s[|s| - 1] as int - '0' as int)
  }

  const U64_LIMIT: nat := 0x1_0000_0000_0000_0000

  /**
   * Unsigned 64-bit parsing: an optional '+', then one or more decimal digits
   * whose value fits in 64 bits; anything else fails.
   */
  function ParseU64(s: string): (r: Option<nat>)
    ensures r.Some? ==> r.value < U64_LIMIT
    ensures r.Some? ==> s != [] && s != "+"
    ensures s != [] && (forall i | 0 <= i < |s| :: IsDigit(s[i])) && DigitsValue(s) < U64_LIMIT
            ==> r == Some(DigitsValue(s))
    ensures var start := if s != [] && s[0] == '+' then 1 else 0;
            r.Some? <==> start < |s| && (forall i | start <= i < |s| :: IsDigit(s[i]))
                         && DigitsValue(s[start..]) < U64_LIMIT
    ensures var start := if s != [] && s[0] == '+' then 1 else 0;
            r.Some? ==> r.value == DigitsValue(s[start..])
  {
    var digits := if s != [] && s[0] == '+' then s[1..] else s;
    if digits != [] && (forall i | 0 <= i < |digits| :: IsDigit(digits[i])) && DigitsValue(digits) < U64_LIMIT
    then Some(DigitsValue(digits))
    else None
  }

  /** Parse with fallback: the value parsed, or 0 when parsing fails. */
  function ParseU64OrZero(s: string): (r: nat)
    ensures r < U64_LIMIT
    ensures ParseU64(s).None? ==> r == 0
    ensures ParseU64(s).Some? ==> r == ParseU64(s).value
  {
    match ParseU64(s)
    case Some(v) => v
    case None => 0
  }

  /**
   * Removes every occurrence of a non-empty pattern, scanning left to right
   * over non-overlapping matches, as replacing it by "" does.
   */
  function RemoveAll(s: string, pat: string): (r: string)
    requires pat != []
    ensures |r| <= |s|
    ensures !Contains(s, pat) ==> r == s
    decreases |s|
  {
    if |s| < |pat| then s
    else if s[..|pat|] == pat then RemoveAll(s[|pat|..], pat)
    else [s[0]] + RemoveAll(s[1..], pat)
  }

  /** Decimal rendering of a natural number, most significant digit first. */
  function NatToString(n: nat): (s: string)
    ensures s != [] && forall i | 0 <= i < |s| :: IsDigit(s[i])
    ensures DigitsValue(s) == n
    decreases n
  {
    var d := [('0' as int + n % 10) as char];
    if n < 10 then
      assert DigitsValue(d) == DigitsValue(d[..0]) * 10 + n % 10;
      d
    else
      var s := NatToString(n / 10) + d;
      assert s[..|s| - 1] == NatToString(n / 10);
      s
  }
}
