/** The handful of Python `str` operations the extractor and the graph layer
    rely on, over `seq<char>`.  Casing and whitespace are ASCII (see README). */
module PyStr {
  import opened Wrappers

  // ---------------------------------------------------------------- search

  /** `sub` occurs in `s` starting at index `i`. */
  predicate OccursAt(s: string, sub: string, i: nat) {
    i + |sub| <= |s| && s[i..i + |sub|] == sub
  }

  /** Index of the first occurrence of `sub` in `s` at or after `from` (`str.find`). */
  function FindFrom(s: string, sub: string, from: nat): (r: Option<nat>)
    ensures r.Some? ==> from <= r.value && OccursAt(s, sub, r.value)
    ensures r.Some? ==> forall j :: from <= j < r.value ==> !OccursAt(s, sub, j)
    ensures r.None? ==> forall j :: from <= j ==> !OccursAt(s, sub, j)
    decreases |s| - from
  {
    if from + |sub| > |s| then None
    else if s[from..from + |sub|] == sub then Some(from)
    else FindFrom(s, sub, from + 1)
  }

  function Find(s: string, sub: string): Option<nat> {
    FindFrom(s, sub, 0)
  }

  /** Python's `sub in s`. */
  predicate Contains(s: string, sub: string) {
    Find(s, sub).Some?
  }

  lemma ContainsIff(s: string, sub: string)
    ensures Contains(s, sub) <==> exists i :: OccursAt(s, sub, i)
  {
  }

  predicate StartsWith(s: string, prefix: string) {
    |prefix| <= |s| && s[..|prefix|] == prefix
  }

  predicate EndsWith(s: string, suffix: string) {
    |suffix| <= |s| && s[|s| - |suffix|..] == suffix
  }

  // ---------------------------------------------------------------- split and join

  /** Python's `s.split(sep)` for a non-empty separator. */
  function Split(s: string, sep: string): (parts: seq<string>)
    requires |sep| > 0
    ensures |parts| >= 1
    ensures Find(s, sep).None? ==> parts == [s]
    ensures Find(s, sep).Some? ==> parts[0] == s[..Find(s, sep).value]
    decreases |s|
  {
    match Find(s, sep)
    case None => [s]
    case Some(i) => [s[..i]] + Split(s[i + |sep|..], sep)
  }

  /** `s.split(sep)[-1]`: the text after the last separator. */
  function LastSegment(s: string, sep: string): string
    requires |sep| > 0
  {
    var parts := Split(s, sep);
    parts[|parts| - 1]
  }

  /** `sep.join(parts)`. */
  function Join(sep: string, parts: seq<string>): string {
    if |parts| == 0 then ""
    else if |parts| == 1 then parts[0]
    else parts[0] + sep + Join(sep, parts[1..])
  }

  /** Splitting and joining again with the same separator gives the text back. */
  lemma {:induction false} JoinSplit(s: string, sep: string)
    requires |sep| > 0
    ensures Join(sep, Split(s, sep)) == s
    decreases |s|
  {
    match Find(s, sep)
    case None =>
    case Some(i) =>
      var rest := s[i + |sep|..];
      JoinSplit(rest, sep);
      assert Split(s, sep) == [s[..i]] + Split(rest, sep);
      assert s == s[..i] + sep + rest;
  }

  /** No part of a split contains the separator. */
  lemma {:induction false} SplitPartsAvoidSep(s: string, sep: string)
    requires |sep| > 0
    ensures forall k :: 0 <= k < |Split(s, sep)| ==> !Contains(Split(s, sep)[k], sep)
    decreases |s|
  {
    match Find(s, sep)
    case None =>
    case Some(i) =>
      var rest := s[i + |sep|..];
      SplitPartsAvoidSep(rest, sep);
      PrefixAvoids(s, sep, i);
      SplitFound(s, sep, i);
      NoneContainsCons(s[..i], Split(rest, sep), sep);
  }

  /** Splitting at the first separator. */
  lemma SplitFound(s: string, sep: string, i: nat)
    requires |sep| > 0 && Find(s, sep) == Some(i)
    ensures i + |sep| <= |s| && Split(s, sep) == [s[..i]] + Split(s[i + |sep|..], sep)
  {
  }

  lemma NoneContainsCons(x: string, parts: seq<string>, sep: string)
    requires !Contains(x, sep) && forall k :: 0 <= k < |parts| ==> !Contains(parts[k], sep)
    ensures forall k :: 0 <= k < |[x] + parts| ==> !Contains(([x] + parts)[k], sep)
  {
    forall k | 0 <= k < |[x] + parts| ensures !Contains(([x] + parts)[k], sep) {
      if k > 0 {
        assert ([x] + parts)[k] == parts[k - 1];
      }
    }
  }

  lemma PrefixAvoids(s: string, sub: string, i: nat)
    requires |sub| > 0 && Find(s, sub) == Some(i)
    ensures !Contains(s[..i], sub)
  {
    assert FindFrom(s, sub, 0) == Some(i);
    var p := s[..i];
    forall j | 0 <= j ensures !OccursAt(p, sub, j) {
      if OccursAt(p, sub, j) {
        assert p[j..j + |sub|] == s[j..j + |sub|];
        assert OccursAt(s, sub, j);
      }
    }
  }

  // ---------------------------------------------------------------- replace

  /** Python's `s.replace(pat, rep)` for a non-empty `pat`: every occurrence,
      left to right, without overlaps. */
  function Replace(s: string, pat: string, rep: string): string
    requires |pat| > 0
    decreases |s|
  {
    match Find(s, pat)
    case None => s
    case Some(i) => s[..i] + rep + Replace(s[i + |pat|..], pat, rep)
  }

  /** Replacing by something no longer never lengthens the text, and
      shortens it as soon as `pat` occurs. */
  lemma {:induction false} ReplaceShrinks(s: string, pat: string, rep: string)
    requires |pat| > 0 && |rep| <= |pat|
    ensures |Replace(s, pat, rep)| <= |s|
    ensures Contains(s, pat) && |rep| < |pat| ==> |Replace(s, pat, rep)| < |s|
    decreases |s|
  {
    match Find(s, pat)
    case None =>
    case Some(i) =>
      ReplaceShrinks(s[i + |pat|..], pat, rep);
  }

  /** No character from `bad` anywhere in `s`. */
  predicate Avoids(s: string, bad: set<char>) {
    forall i :: 0 <= i < |s| ==> s[i] !in bad
  }

  lemma AvoidsConcat(a: string, b: string, bad: set<char>)
    requires Avoids(a, bad) && Avoids(b, bad)
    ensures Avoids(a + b, bad)
  {
    forall i | 0 <= i < |a + b| ensures (a + b)[i] !in bad {
      if i >= |a| { assert (a + b)[i] == b[i - |a|]; }
    }
  }

  /** Replacing a single character `c` removes it: the result holds only
      characters of `s` other than `c`, and characters of `rep`. */
  lemma {:induction false} ReplaceCharAvoids(s: string, c: char, rep: string, bad: set<char>)
    requires Avoids(s, bad - {c}) && Avoids(rep, bad)
    ensures Avoids(Replace(s, [c], rep), bad)
    decreases |s|
  {
    match Find(s, [c])
    case None =>
      forall i | 0 <= i < |s| ensures s[i] !in bad {
        assert !OccursAt(s, [c], i);
        assert s[i..i + 1] == [s[i]];
      }
    case Some(i) =>
      var rest := s[i + 1..];
      assert Avoids(rest, bad - {c}) by {
        forall k | 0 <= k < |rest| ensures rest[k] !in bad - {c} { assert rest[k] == s[i + 1 + k]; }
      }
      ReplaceCharAvoids(rest, c, rep, bad);
      var pre := s[..i];
      assert Avoids(pre, bad) by {
        forall k | 0 <= k < |pre| ensures pre[k] !in bad {
          assert !OccursAt(s, [c], k);
          assert s[k..k + 1] == [s[k]];
        }
      }
      AvoidsConcat(pre, rep, bad);
      AvoidsConcat(pre + rep, Replace(rest, [c], rep), bad);
  }

  // ---------------------------------------------------------------- strip

  /** The characters `str.strip()` removes (ASCII whitespace and the
      information separators `str.isspace` also accepts). */
  const Whitespace: set<char> :=
    {' ', '\t', '\n', '\r', '\U{B}', '\U{C}', '\U{1C}', '\U{1D}', '\U{1E}', '\U{1F}'}

  /** First index whose character is not in `cs`, or |s|. */
  function LeftIndex(s: string, cs: set<char>, from: nat): (l: nat)
    requires from <= |s|
    ensures from <= l <= |s|
    ensures forall k :: from <= k < l ==> s[k] in cs
    ensures l < |s| ==> s[l] !in cs
    decreases |s| - from
  {
    if from == |s| || s[from] !in cs then from else LeftIndex(s, cs, from + 1)
  }

  /** One past the last index (at or after `lo`) whose character is not in `cs`, or `lo`. */
  function RightIndex(s: string, cs: set<char>, lo: nat, hi: nat): (r: nat)
    requires lo <= hi <= |s|
    ensures lo <= r <= hi
    ensures forall k :: r <= k < hi ==> s[k] in cs
    ensures r > lo ==> s[r - 1] !in cs
    decreases hi
  {
    if hi == lo || s[hi - 1] !in cs then hi else RightIndex(s, cs, lo, hi - 1)
  }

  /** Python's `s.strip(chars)`: drop characters of `cs` at both ends. */
  function StripChars(s: string, cs: set<char>): (r: string)
    ensures |r| > 0 ==> r[0] !in cs && r[|r| - 1] !in cs
    ensures |r| <= |s|
  {
    var l := LeftIndex(s, cs, 0);
    var r := RightIndex(s, cs, l, |s|);
    s[l..r]
  }

  /** Python's `s.strip()`. */
  function Strip(s: string): string {
    StripChars(s, Whitespace)
  }

  /** Stripping only removes characters, so whatever `s` avoids the result avoids. */
  lemma StripCharsAvoids(s: string, cs: set<char>, bad: set<char>)
    requires Avoids(s, bad)
    ensures Avoids(StripChars(s, cs), bad)
  {
    var l := LeftIndex(s, cs, 0);
    var r := RightIndex(s, cs, l, |s|);
    assert StripChars(s, cs) == s[l..r];
    forall k | 0 <= k < r - l ensures s[l..r][k] !in bad { assert s[l..r][k] == s[l + k]; }
  }

  /** Text without characters in `cs` at its ends is left as it is. */
  lemma StripCharsKeeps(s: string, cs: set<char>)
    requires |s| == 0 || (s[0] !in cs && s[|s| - 1] !in cs)
    ensures StripChars(s, cs) == s
  {
  }

  /** Stripping twice is stripping once. */
  lemma StripCharsIdempotent(s: string, cs: set<char>)
    ensures StripChars(StripChars(s, cs), cs) == StripChars(s, cs)
  {
    StripCharsKeeps(StripChars(s, cs), cs);
  }

  // ---------------------------------------------------------------- case

  predicate IsUpper(c: char) { 'A' <= c <= 'Z' }
  predicate IsLower(c: char) { 'a' <= c <= 'z' }
  /** A "cased" character in Python's sense, restricted to ASCII. */
  predicate IsCased(c: char) { IsUpper(c) || IsLower(c) }

  function LowerChar(c: char): (d: char)
    ensures IsCased(c) <==> IsCased(d)
    ensures !IsCased(c) ==> d == c
    ensures !IsUpper(d)
  {
    if IsUpper(c) then (c as int + 32) as char else c
  }

  function UpperChar(c: char): (d: char)
    ensures IsCased(c) <==> IsCased(d)
    ensures !IsCased(c) ==> d == c
    ensures !IsLower(d)
  {
    if IsLower(c) then (c as int - 32) as char else c
  }

  /** Python's `s.lower()` on ASCII letters. */
  function Lower(s: string): (r: string)
    ensures |r| == |s|
    ensures forall i :: 0 <= i < |s| ==> r[i] == LowerChar(s[i])
  {
    seq(|s|, i requires 0 <= i < |s| => LowerChar(s[i]))
  }

  /** Python's `s.title()` on ASCII letters: a letter becomes upper case when
      the character before it is not a letter, lower case otherwise. */
  function TitleFrom(s: string, afterCased: bool): (r: string)
    ensures |r| == |s|
    decreases |s|
  {
    if |s| == 0 then ""
    else
      var c := s[0];
      [if !IsCased(c) then c else if afterCased then LowerChar(c) else UpperChar(c)]
      + TitleFrom(s[1..], IsCased(c))
  }

  function Title(s: string): string {
    TitleFrom(s, false)
  }

  /** The title-cased character at every position, stated without recursion. */
  lemma {:induction false} TitleAt(s: string, afterCased: bool, i: nat)
    requires i < |s|
    ensures var prevCased := if i == 0 then afterCased else IsCased(s[i - 1]);
            TitleFrom(s, afterCased)[i]
            == if !IsCased(s[i]) then s[i] else if prevCased then LowerChar(s[i]) else UpperChar(s[i])
    decreases i
  {
    if i > 0 {
      TitleAt(s[1..], IsCased(s[0]), i - 1);
      assert s[1..][i - 1] == s[i];
    }
  }

  /** Casing changes letters only, so a set of non-letters stays avoided. */
  lemma CaseAvoids(s: string, bad: set<char>)
    requires Avoids(s, bad)
    requires forall c :: c in bad ==> !IsCased(c)
    ensures Avoids(Lower(s), bad) && Avoids(Title(s), bad)
  {
    forall i | 0 <= i < |s| ensures Title(s)[i] !in bad {
      TitleAt(s, false, i);
    }
  }

  // ---------------------------------------------------------------- integers

  predicate IsDigit(c: char) { '0' <= c <= '9' }

  function DigitChar(d: nat): char
    requires d < 10
  {
    ('0' as int + d) as char
  }

  /** Python's `str(n)` for a non-negative int. */
  function NatToString(n: nat): (s: string)
    ensures |s| > 0 && forall i :: 0 <= i < |s| ==> IsDigit(s[i])
  {
    if n < 10 then [DigitChar(n)] else NatToString(n / 10) + [DigitChar(n % 10)]
  }

  /** Python's `str(i)`. */
  function IntToString(i: int): string {
    if i < 0 then "-" + NatToString(-i) else NatToString(i)
  }

  /** The number a run of decimal digits denotes. */
  function DigitsValue(s: string): nat
    requires forall i :: 0 <= i < |s| ==> IsDigit(s[i])
  {
    if |s| == 0 then 0
    else
      assert IsDigit(s[|s| - 1]);
      10 * DigitsValue(s[..|s| - 1]) + (s[|s| - 1] as int - '0' as int)
  }

  lemma {:induction false} DigitsOfNat(n: nat)
    ensures DigitsValue(NatToString(n)) == n
  {
    if n >= 10 {
      DigitsOfNat(n / 10);
      var s := NatToString(n);
      assert s[..|s| - 1] == NatToString(n / 10);
    }
  }

  /** Distinct numbers have distinct decimal texts. */
  lemma NatToStringInjective(a: nat, b: nat)
    requires NatToString(a) == NatToString(b)
    ensures a == b
  {
    DigitsOfNat(a);
    DigitsOfNat(b);
  }

  /** Digits with `_` only between two digits, as Python's `int()` accepts. */
  predicate WellUnderscored(s: string) {
    |s| > 0 && IsDigit(s[0]) && IsDigit(s[|s| - 1])
    && (forall i :: 0 <= i < |s| ==> IsDigit(s[i]) || s[i] == '_')
    && (forall i :: 0 <= i < |s| - 1 ==> !(s[i] == '_' && s[i + 1] == '_'))
  }

  function DropUnderscores(s: string): (r: string)
    ensures forall i :: 0 <= i < |r| ==> r[i] != '_'
    ensures (forall i :: 0 <= i < |s| ==> IsDigit(s[i]) || s[i] == '_') ==> forall i :: 0 <= i < |r| ==> IsDigit(r[i])
  {
    if |s| == 0 then "" else (if s[0] == '_' then "" else [s[0]]) + DropUnderscores(s[1..])
  }

  /** The unsigned part of `int(s)`: digits, `_` allowed between digits. */
  function ParseUnsigned(body: string): Option<nat> {
    if WellUnderscored(body) then Some(DigitsValue(DropUnderscores(body))) else None
  }

  /** Python's `int(s)` on ASCII text: surrounding whitespace, an optional sign,
      then decimal digits; anything else raises (None here). */
  function ParseInt(s: string): (r: Option<int>)
  {
    var t := Strip(s);
    if |t| == 0 then None
    else if t[0] == '-' then
      match ParseUnsigned(t[1..])
      case None => None
      case Some(v) => Some(0 - v as int)
    else
      match ParseUnsigned(if t[0] == '+' then t[1..] else t)
      case None => None
      case Some(v) => Some(v)
  }

  lemma NoUnderscore(s: string)
    requires forall i :: 0 <= i < |s| ==> IsDigit(s[i])
    ensures DropUnderscores(s) == s
  {
    if |s| > 0 { NoUnderscore(s[1..]); }
  }

  lemma DigitsWellUnderscored(s: string)
    requires |s| > 0 && forall i :: 0 <= i < |s| ==> IsDigit(s[i])
    ensures WellUnderscored(s)
    ensures s[0] !in Whitespace && s[|s| - 1] !in Whitespace
  {
    assert IsDigit(s[0]) && IsDigit(s[|s| - 1]);
  }

  lemma ParseUnsignedDigits(n: nat)
    ensures ParseUnsigned(NatToString(n)) == Some(n)
  {
    var digits := NatToString(n);
    DigitsWellUnderscored(digits);
    NoUnderscore(digits);
    DigitsOfNat(n);
  }

  lemma StripIntToString(i: int)
    ensures Strip(IntToString(i)) == IntToString(i)
  {
    var s := IntToString(i);
    var digits := NatToString(if i < 0 then -i else i);
    DigitsWellUnderscored(digits);
    assert s[0] !in Whitespace && s[|s| - 1] !in Whitespace;
    StripCharsKeeps(s, Whitespace);
  }

  /** `int(str(i)) == i`. */
  lemma ParseIntToString(i: int)
    ensures ParseInt(IntToString(i)) == Some(i)
  {
    var n: nat := if i < 0 then -i else i;
    var digits := NatToString(n);
    ParseUnsignedDigits(n);
    StripIntToString(i);
    var s := IntToString(i);
    assert IsDigit(digits[0]);
    if i < 0 {
      assert s[1..] == digits;
    } else {
      assert s == digits;
    }
  }
}
