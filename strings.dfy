/**
  Character classes and string helpers with the meaning Python's `str` methods and
  `re` character classes give them in the scraper. Only ASCII letters are cased and
  only ASCII letters, digits and `_` are word characters (see README, "Left out").
*/
module Strings {
  import opened Wrappers

  /** `str.isspace()`, which is also what `\s` matches in a `str` pattern. */
  predicate IsSpace(c: char) {
    c == ' ' || ('\t' <= c <= '\r') || ('\U{1c}' <= c <= '\U{1f}') || c == '\U{85}' || c == '\U{a0}'
    || c == '\U{1680}' || ('\U{2000}' <= c <= '\U{200a}') || c == '\U{2028}' || c == '\U{2029}'
    || c == '\U{202f}' || c == '\U{205f}' || c == '\U{3000}'
  }

  predicate IsUpper(c: char) { 'A' <= c <= 'Z' }
  predicate IsLower(c: char) { 'a' <= c <= 'z' }
  predicate IsAsciiLetter(c: char) { IsUpper(c) || IsLower(c) }
  predicate IsDigit(c: char) { '0' <= c <= '9' }

  /** The `\w` class. */
  predicate IsWordChar(c: char) { IsAsciiLetter(c) || IsDigit(c) || c == '_' }

  function LowerChar(c: char): char { if IsUpper(c) then (c as int + 32) as char else c }
  function UpperChar(c: char): char { if IsLower(c) then (c as int - 32) as char else c }

  /** `str.lower()`. */
  function Lower(s: string): string { seq(|s|, i requires 0 <= i < |s| => LowerChar(s[i])) }

  /** `str.title()`: a letter is upper-cased after a non-letter and lower-cased after a letter. */
  function TitleFrom(s: string, previousCased: bool): string
    decreases |s|
  {
    if s == [] then []
    else [if previousCased then LowerChar(s[0]) else UpperChar(s[0])] + TitleFrom(s[1..], IsAsciiLetter(s[0]))
  }

  function Title(s: string): string { TitleFrom(s, false) }

  predicate StartsWith(s: string, prefix: string) { |prefix| <= |s| && s[..|prefix|] == prefix }
  predicate EndsWith(s: string, suffix: string) { |suffix| <= |s| && s[|s| - |suffix|..] == suffix }

  /** `sub in s`. */
  predicate Contains(s: string, sub: string)
    decreases |s|
  {
    StartsWith(s, sub) || (s != [] && Contains(s[1..], sub))
  }

  /** `s.find(c)`: the first index of `c`, or -1. */
  function FindChar(s: string, c: char): (r: int)
    ensures -1 <= r < |s|
    ensures r >= 0 ==> s[r] == c && c !in s[..r]
    ensures r == -1 <==> c !in s
    decreases |s|
  {
    if s == [] then -1
    else if s[0] == c then 0
    else
      var k := FindChar(s[1..], c);
      assert s[1..][..k + 1] == s[1..k + 2] by { }
      if k == -1 then -1 else k + 1
  }

  /** `s.rfind(c)`: the last index of `c`, or -1. */
  function RFindChar(s: string, c: char): (r: int)
    ensures -1 <= r < |s|
    ensures r >= 0 ==> s[r] == c && c !in s[r + 1..]
    ensures r == -1 <==> c !in s
    decreases |s|
  {
    if s == [] then -1
    else if s[|s| - 1] == c then |s| - 1
    else RFindChar(s[..|s| - 1], c)
  }

  /** The index of the first occurrence of `sub` in `s`, as `s.split(sub, 1)` finds it. */
  function IndexOf(s: string, sub: string): (r: Option<nat>)
    ensures r.Some? ==> r.value + |sub| <= |s| && s[r.value..r.value + |sub|] == sub
    ensures r.Some? ==> forall j :: 0 <= j < r.value ==> !StartsWith(s[j..], sub)
    ensures r.None? <==> !Contains(s, sub)
    decreases |s|
  {
    if StartsWith(s, sub) then Some(0)
    else if s == [] then None
    else match IndexOf(s[1..], sub)
      case None => None
      case Some(i) =>
        assert forall j :: 1 <= j <= i ==> s[j..] == s[1..][j - 1..];
        Some(i + 1)
  }

  /** The last occurrence of `c` is found when nothing after it is a `c`. */
  lemma {:induction false} RFindCharAt(a: string, c: char, b: string)
    requires c !in b
    ensures RFindChar(a + [c] + b, c) == |a|
    decreases |b|
  {
    if b != [] {
      var s := a + [c] + b;
      assert s[..|s| - 1] == a + [c] + b[..|b| - 1];
      RFindCharAt(a, c, b[..|b| - 1]);
    }
  }

  /** `sub in a + sub + b`. */
  lemma {:induction false} ContainsInside(a: string, sub: string, b: string)
    ensures Contains(a + sub + b, sub)
    decreases |a|
  {
    if a == [] {
      assert (a + sub + b)[..|sub|] == sub;
    } else {
      assert (a + sub + b)[1..] == a[1..] + sub + b;
      ContainsInside(a[1..], sub, b);
    }
  }

  /** How many leading characters of `s` satisfy `p`. */
  function LeadingCount(s: string, p: char -> bool): (n: nat)
    ensures n <= |s|
    ensures forall i :: 0 <= i < n ==> p(s[i])
    ensures n < |s| ==> !p(s[n])
    decreases |s|
  {
    if s != [] && p(s[0]) then 1 + LeadingCount(s[1..], p) else 0
  }

  /** How many trailing characters of `s` satisfy `p`. */
  function TrailingCount(s: string, p: char -> bool): (n: nat)
    ensures n <= |s|
    ensures forall i :: |s| - n <= i < |s| ==> p(s[i])
    ensures n < |s| ==> !p(s[|s| - n - 1])
    decreases |s|
  {
    if s != [] && p(s[|s| - 1]) then 1 + TrailingCount(s[..|s| - 1], p) else 0
  }

  /** Drops the leading characters that satisfy `p` (`lstrip`). */
  function TrimLeft(s: string, p: char -> bool): (r: string)
    ensures |r| <= |s| && r == s[|s| - |r|..]
    ensures r == [] || !p(r[0])
    ensures (s == [] || !p(s[0])) ==> r == s
  {
    s[LeadingCount(s, p)..]
  }

  /** Drops the trailing characters that satisfy `p` (`rstrip`). */
  function TrimRight(s: string, p: char -> bool): (r: string)
    ensures |r| <= |s| && r == s[..|r|]
    ensures r == [] || !p(r[|r| - 1])
    ensures (s == [] || !p(s[|s| - 1])) ==> r == s
  {
    s[..|s| - TrailingCount(s, p)]
  }

  /** `str.strip()` with no argument. */
  function Strip(s: string): string { TrimRight(TrimLeft(s, IsSpace), IsSpace) }

  /** Neither end of a stripped string is white space, and stripping adds nothing. */
  lemma StripTrimmed(s: string)
    ensures |Strip(s)| <= |s|
    ensures Strip(s) == [] || (!IsSpace(Strip(s)[0]) && !IsSpace(Strip(s)[|Strip(s)| - 1]))
  {
  }

  /** Characters at the ends of `s` that are not white space survive `strip()`. */
  lemma StripUnpadded(s: string)
    requires s != [] && !IsSpace(s[0]) && !IsSpace(s[|s| - 1])
    ensures Strip(s) == s
  {
    assert TrimLeft(s, IsSpace) == s;
  }

  /** A character missing from `s` is missing from every slice of it. */
  lemma NotInSlice(s: string, c: char, i: nat, j: nat)
    requires c !in s && i <= j <= |s|
    ensures c !in s[i..j]
  {
    forall k | 0 <= k < j - i
      ensures s[i..j][k] != c
    {
      assert s[i..j][k] == s[i + k];
    }
  }

  /** A character missing from `s` is missing from `s.strip()`. */
  lemma NotInStrip(s: string, c: char)
    requires c !in s
    ensures c !in Strip(s)
  {
    var left := TrimLeft(s, IsSpace);
    NotInSlice(s, c, |s| - |left|, |s|);
    assert left == s[|s| - |left|..|s|];
    var right := TrimRight(left, IsSpace);
    NotInSlice(left, c, 0, |right|);
    assert right == left[0..|right|];
  }

  lemma StripIdempotent(s: string)
    ensures Strip(Strip(s)) == Strip(s)
  {
    var left := TrimLeft(s, IsSpace);
    var t := Strip(s);
    if t != [] {
      assert t[0] == left[0];
      StripUnpadded(t);
    }
  }

  /** Keeps only the characters that satisfy `p`. */
  function Filter(s: string, p: char -> bool): (r: string)
    ensures forall i :: 0 <= i < |r| ==> p(r[i]) && r[i] in s
    ensures (forall i :: 0 <= i < |s| ==> p(s[i])) ==> r == s
    decreases |s|
  {
    if s == [] then []
    else (if p(s[0]) then [s[0]] else []) + Filter(s[1..], p)
  }

  /** Filtering distributes over concatenation. */
  lemma {:induction false} FilterAppend(a: string, b: string, p: char -> bool)
    ensures Filter(a + b, p) == Filter(a, p) + Filter(b, p)
    decreases |a|
  {
    if a == [] {
      assert a + b == b;
    } else {
      assert (a + b)[0] == a[0] && (a + b)[1..] == a[1..] + b;
      FilterAppend(a[1..], b, p);
    }
  }

  /** Nothing survives a filter that rejects every character. */
  lemma {:induction false} FilterNone(s: string, p: char -> bool)
    requires forall i :: 0 <= i < |s| ==> !p(s[i])
    ensures Filter(s, p) == []
    decreases |s|
  {
    if s != [] {
      assert forall i :: 0 <= i < |s[1..]| ==> s[1..][i] == s[i + 1];
      FilterNone(s[1..], p);
    }
  }

  /** Filtering by `p` first changes nothing for a `q` that implies `p`. */
  lemma {:induction false} FilterFilter(s: string, p: char -> bool, q: char -> bool)
    requires forall i :: 0 <= i < |s| && q(s[i]) ==> p(s[i])
    ensures Filter(Filter(s, p), q) == Filter(s, q)
    decreases |s|
  {
    if s != [] {
      assert forall i :: 0 <= i < |s[1..]| ==> s[1..][i] == s[i + 1];
      FilterFilter(s[1..], p, q);
      var head: string := if p(s[0]) then [s[0]] else [];
      FilterAppend(head, Filter(s[1..], p), q);
      if head != [] {
        assert [s[0]][1..] == [];
      }
    }
  }

  /** A tail that `q` rejects in full leaves only the head's selection. */
  lemma FilterDropTail(a: string, b: string, q: char -> bool)
    requires forall i :: 0 <= i < |b| ==> !q(b[i])
    ensures Filter(a + b, q) == Filter(a, q)
  {
    FilterAppend(a, b, q);
    FilterNone(b, q);
    assert Filter(a, q) + [] == Filter(a, q);
  }

  /** Dropping leading characters that `q` rejects keeps what `q` selects. */
  lemma {:induction false} TrimLeftFilter(s: string, p: char -> bool, q: char -> bool)
    requires forall i :: 0 <= i < |s| && p(s[i]) ==> !q(s[i])
    ensures Filter(TrimLeft(s, p), q) == Filter(s, q)
    decreases |s|
  {
    if s != [] && p(s[0]) {
      var t := s[1..];
      assert TrimLeft(s, p) == TrimLeft(t, p) by {
        assert t[LeadingCount(t, p)..] == s[1 + LeadingCount(t, p)..];
      }
      forall i | 0 <= i < |t| && p(t[i]) ensures !q(t[i]) {
        assert t[i] == s[i + 1];
      }
      TrimLeftFilter(t, p, q);
      assert !q(s[0]);
    }
  }

  /** Dropping trailing characters that `q` rejects keeps what `q` selects. */
  lemma {:induction false} TrimRightFilter(s: string, p: char -> bool, q: char -> bool)
    requires forall i :: 0 <= i < |s| && p(s[i]) ==> !q(s[i])
    ensures Filter(TrimRight(s, p), q) == Filter(s, q)
    decreases |s|
  {
    if s != [] && p(s[|s| - 1]) {
      var t := s[..|s| - 1];
      assert TrimRight(s, p) == TrimRight(t, p) by {
        assert t[..|t| - TrailingCount(t, p)] == s[..|s| - 1 - TrailingCount(t, p)];
      }
      forall i | 0 <= i < |t| && p(t[i]) ensures !q(t[i]) {
        assert t[i] == s[i];
      }
      TrimRightFilter(t, p, q);
      assert s == t + [s[|s| - 1]];
      FilterDropTail(t, [s[|s| - 1]], q);
    }
  }

  /** Collapsing runs of a class `q` rejects into a replacement `q` rejects keeps what `q` selects. */
  lemma {:induction false} CollapseFilter(s: string, inClass: char -> bool, r: char, inRun: bool, q: char -> bool)
    requires !q(r) && forall i :: 0 <= i < |s| && inClass(s[i]) ==> !q(s[i])
    ensures Filter(CollapseRuns(s, inClass, r, inRun), q) == Filter(s, q)
    decreases |s|
  {
    if s != [] {
      assert forall i :: 0 <= i < |s[1..]| ==> s[1..][i] == s[i + 1];
      var head: string := if inClass(s[0]) then (if inRun then [] else [r]) else [s[0]];
      var rest := CollapseRuns(s[1..], inClass, r, inClass(s[0]));
      assert CollapseRuns(s, inClass, r, inRun) == head + rest;
      CollapseFilter(s[1..], inClass, r, inClass(s[0]), q);
      FilterAppend(head, rest, q);
      assert Filter(s, q) == (if q(s[0]) then [s[0]] else []) + Filter(s[1..], q);
      if head != [] {
        assert [head[0]][1..] == [];
        assert head == [head[0]];
      }
    }
  }

  /** No two neighbouring characters of `s` are both `r`. */
  predicate NoDoubled(s: string, r: char)
  {
    forall i, j :: 0 <= i < |s| && 0 <= j < |s| && j == i + 1 ==> !(s[i] == r && s[j] == r)
  }

  /**
    `re.sub("[C]+", r, s)`: every maximal run of characters of the class `inClass` becomes
    one `r`. `inRun` says that the character before `s` was already part of a run.
  */
  function CollapseRuns(s: string, inClass: char -> bool, r: char, inRun: bool): (t: string)
    ensures |t| <= |s|
    ensures t == [] <==> s == [] || (inRun && forall i :: 0 <= i < |s| ==> inClass(s[i]))
    ensures forall i :: 0 <= i < |t| ==> t[i] == r || (!inClass(t[i]) && t[i] in s)
    ensures inRun && inClass(r) && t != [] ==> t[0] != r
    ensures inClass(r) ==> NoDoubled(t, r)
    ensures !inRun && (forall i :: 0 <= i < |s| ==> !inClass(s[i])) ==> t == s
    decreases |s|
  {
    if s == [] then []
    else if inClass(s[0]) then
      var rest := CollapseRuns(s[1..], inClass, r, true);
      assert (forall i :: 0 <= i < |s[1..]| ==> inClass(s[1..][i])) ==> forall i :: 0 <= i < |s| ==> inClass(s[i]) by {
        if forall i :: 0 <= i < |s[1..]| ==> inClass(s[1..][i]) {
          forall i | 0 <= i < |s| ensures inClass(s[i]) { if i > 0 { assert s[i] == s[1..][i - 1]; } }
        }
      }
      (if inRun then [] else [r]) + rest
    else
      var rest := CollapseRuns(s[1..], inClass, r, false);
      assert !inClass(s[0]);
      [s[0]] + rest
  }

  /** A decimal digit as a character. */
  function DigitChar(d: nat): char
    requires d < 10
  {
    ('0' as int + d) as char
  }

  /** `str(n)` for a non-negative integer. */
  function NatToString(n: nat): (r: string)
    ensures |r| >= 1
    ensures forall i :: 0 <= i < |r| ==> IsDigit(r[i])
    decreases n
  {
    if n < 10 then [DigitChar(n)] else NatToString(n / 10) + [DigitChar(n % 10)]
  }

  /** `int(s)` for a string of decimal digits. */
  function ParseDecimal(s: string): nat
    requires forall i :: 0 <= i < |s| ==> IsDigit(s[i])
    decreases |s|
  {
    if s == [] then 0
    else
      assert IsDigit(s[|s| - 1]);
      ParseDecimal(s[..|s| - 1]) * 10 + (s[|s| - 1] as int - '0' as int)
  }

  /** Reading back the decimal rendering of `n` gives `n`. */
  lemma {:induction false} ParseNatToString(n: nat)
    ensures ParseDecimal(NatToString(n)) == n
    decreases n
  {
    if n >= 10 {
      var s := NatToString(n);
      assert s[..|s| - 1] == NatToString(n / 10);
      ParseNatToString(n / 10);
    }
  }

  /** Distinct numbers render differently. */
  lemma NatToStringInjective(a: nat, b: nat)
    requires NatToString(a) == NatToString(b)
    ensures a == b
  {
    ParseNatToString(a);
    ParseNatToString(b);
  }

  /** `f"{n:04d}"`: at least four digits, padded on the left with zeros. */
  function ZeroPad4(n: nat): (r: string)
    ensures |r| >= 4
    ensures forall i :: 0 <= i < |r| ==> IsDigit(r[i])
    ensures n >= 1000 ==> r == NatToString(n)
    ensures n < 10000 ==> |r| == 4
    ensures ParseDecimal(r) == n
  {
    var d := NatToString(n);
    ParseNatToString(n);
    assert n >= 1000 ==> |d| >= 4 by { if n >= 1000 { FourDigits(n); } }
    assert n < 10000 ==> |d| <= 4 by { if n < 10000 { AtMostFourDigits(n); } }
    if |d| >= 4 then d
    else
      var zeros := seq(4 - |d|, _ => '0');
      ParseZeroPrefix(zeros, d);
      zeros + d
  }

  lemma {:induction false} ParseZeroPrefix(zeros: string, d: string)
    requires forall i :: 0 <= i < |zeros| ==> zeros[i] == '0'
    requires forall i :: 0 <= i < |d| ==> IsDigit(d[i])
    ensures ParseDecimal(zeros + d) == ParseDecimal(d)
    decreases |d|
  {
    if d == [] {
      assert zeros + d == zeros;
      AllZerosParse(zeros);
    } else {
      assert (zeros + d)[..|zeros + d| - 1] == zeros + d[..|d| - 1];
      ParseZeroPrefix(zeros, d[..|d| - 1]);
    }
  }

  lemma {:induction false} AllZerosParse(zeros: string)
    requires forall i :: 0 <= i < |zeros| ==> zeros[i] == '0'
    ensures ParseDecimal(zeros) == 0
    decreases |zeros|
  {
    if zeros != [] { AllZerosParse(zeros[..|zeros| - 1]); }
  }

  /** Below 10000 a number has at most four digits. */
  lemma AtMostFourDigits(n: nat)
    requires n < 10000
    ensures |NatToString(n)| <= 4
  {
    var a := n / 10;
    var b := a / 10;
    var c := b / 10;
    assert c < 10;
    if n >= 10 {
      assert NatToString(n) == NatToString(a) + [DigitChar(n % 10)];
      if a >= 10 {
        assert NatToString(a) == NatToString(b) + [DigitChar(a % 10)];
        if b >= 10 {
          assert NatToString(b) == NatToString(c) + [DigitChar(b % 10)];
        }
      }
    }
  }

  lemma FourDigits(n: nat)
    requires n >= 1000
    ensures |NatToString(n)| >= 4
  {
    assert |NatToString(n / 1000)| >= 1;
    assert NatToString(n / 100) == NatToString(n / 100 / 10) + [DigitChar(n / 100 % 10)];
    assert NatToString(n / 10) == NatToString(n / 10 / 10) + [DigitChar(n / 10 % 10)];
  }
}
