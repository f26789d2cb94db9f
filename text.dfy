/** Text helpers shared by both halves of the system: the pieces of Go's
    `strings`, `strconv` and `path/filepath` packages, and Python's `str(int)`
    and `','.join`, written as functions on `seq<char>`. */
module Text {
  import opened Wrappers

  // ---------------------------------------------------------------------
  // Characters
  // ---------------------------------------------------------------------

  /** Go's `unicode.IsSpace`: the ASCII white space, NEL, NBSP and the
      Unicode space separators. */
  predicate IsSpace(c: char) {
    var n := c as int;
    (9 <= n <= 13) || n == 32 || n == 0x85 || n == 0xA0 || n == 0x1680
    || (0x2000 <= n <= 0x200A) || n == 0x2028 || n == 0x2029 || n == 0x202F
    || n == 0x205F || n == 0x3000
  }

  predicate IsDigit(c: char) {
    '0' <= c <= '9'
  }

  predicate AllDigits(s: string) {
    forall i :: 0 <= i < |s| ==> IsDigit(s[i])
  }

  function UpperChar(c: char): char {
    if 'a' <= c <= 'z' then (c as int - 32) as char else c
  }

  function LowerChar(c: char): char {
    if 'A' <= c <= 'Z' then (c as int + 32) as char else c
  }

  /** `strings.ToUpper` on the ASCII letters. */
  function ToUpper(s: string): (r: string)
    ensures |r| == |s|
    ensures forall i :: 0 <= i < |s| ==> r[i] == UpperChar(s[i])
  {
    seq(|s|, i requires 0 <= i < |s| => UpperChar(s[i]))
  }

  /** `strings.ToLower` on the ASCII letters. */
  function ToLower(s: string): (r: string)
    ensures |r| == |s|
    ensures forall i :: 0 <= i < |s| ==> r[i] == LowerChar(s[i])
  {
    seq(|s|, i requires 0 <= i < |s| => LowerChar(s[i]))
  }

  /** Lower-casing leaves no ASCII capital, moves each capital to its small
      letter, keeps every other character, and forgets nothing upper-casing
      can see. */
  lemma ToLowerCases(s: string)
    ensures forall i :: 0 <= i < |s| ==> !('A' <= ToLower(s)[i] <= 'Z')
    ensures forall i :: 0 <= i < |s| ==> ('A' <= s[i] <= 'Z' ==> ToLower(s)[i] as int == s[i] as int + 32)
    ensures forall i :: 0 <= i < |s| ==> (!('A' <= s[i] <= 'Z') ==> ToLower(s)[i] == s[i])
    ensures ToUpper(ToLower(s)) == ToUpper(s)
  {
  }

  /** Upper-casing leaves no ASCII small letter, moves each small letter to
      its capital, keeps every other character, and forgets nothing
      lower-casing can see. */
  lemma ToUpperCases(s: string)
    ensures forall i :: 0 <= i < |s| ==> !('a' <= ToUpper(s)[i] <= 'z')
    ensures forall i :: 0 <= i < |s| ==> ('a' <= s[i] <= 'z' ==> ToUpper(s)[i] as int == s[i] as int - 32)
    ensures forall i :: 0 <= i < |s| ==> (!('a' <= s[i] <= 'z') ==> ToUpper(s)[i] == s[i])
    ensures ToLower(ToUpper(s)) == ToLower(s)
  {
  }

  lemma ToUpperConcat(a: string, b: string)
    ensures ToUpper(a + b) == ToUpper(a) + ToUpper(b)
  {
  }

  lemma ToLowerIdempotent(s: string)
    ensures ToLower(ToLower(s)) == ToLower(s)
  {
  }

  // ---------------------------------------------------------------------
  // Prefixes, containment, trimming, replacing
  // ---------------------------------------------------------------------

  predicate HasPrefix(s: string, p: string) {
    |p| <= |s| && s[..|p|] == p
  }

  predicate HasSuffix(s: string, p: string) {
    |p| <= |s| && s[|s| - |p|..] == p
  }

  /** `strings.Contains`: `sub` occurs in `s` at some position. */
  predicate Contains(s: string, sub: string)
    decreases |s|
  {
    HasPrefix(s, sub) || (|s| > 0 && Contains(s[1..], sub))
  }

  /** `strings.TrimPrefix`. */
  function TrimPrefix(s: string, p: string): (r: string)
    ensures HasPrefix(s, p) ==> s == p + r
    ensures !HasPrefix(s, p) ==> r == s
  {
    if HasPrefix(s, p) then s[|p|..] else s
  }

  function TrimLeftSpace(s: string): (r: string)
    ensures |r| <= |s| && r == s[|s| - |r|..]
    ensures forall i :: 0 <= i < |s| - |r| ==> IsSpace(s[i])
    ensures r == [] || !IsSpace(r[0])
  {
    if |s| > 0 && IsSpace(s[0]) then
      var r := TrimLeftSpace(s[1..]);
      assert s[|s| - |r|..] == s[1..][|s| - 1 - |r|..];
      assert forall i :: 1 <= i < |s| - |r| ==> s[i] == s[1..][i - 1];
      r
    else s
  }

  function TrimRightSpace(s: string): (r: string)
    ensures |r| <= |s| && r == s[..|r|]
    ensures forall i :: |r| <= i < |s| ==> IsSpace(s[i])
    ensures r == [] || !IsSpace(r[|r| - 1])
  {
    if |s| > 0 && IsSpace(s[|s| - 1]) then
      var r := TrimRightSpace(s[..|s| - 1]);
      assert s[..|r|] == s[..|s| - 1][..|r|];
      assert forall i :: |r| <= i < |s| - 1 ==> s[i] == s[..|s| - 1][i];
      r
    else s
  }

  /** `strings.TrimSpace`: the result is a slice of `s` with only white
      space cut off either end, and it neither starts nor ends with white
      space. */
  function TrimSpace(s: string): (r: string)
    ensures exists i, j :: 0 <= i <= j <= |s| && r == s[i..j]
                           && (forall k :: 0 <= k < i ==> IsSpace(s[k]))
                           && (forall k :: j <= k < |s| ==> IsSpace(s[k]))
    ensures r == [] || (!IsSpace(r[0]) && !IsSpace(r[|r| - 1]))
  {
    var l := TrimLeftSpace(s);
    var r := TrimRightSpace(l);
    TrimBothEnds(s, l, r);
    r
  }

  /** Cutting white space off the left and then off the right leaves the
      slice of `s` between the two cut ends. */
  lemma TrimBothEnds(s: string, l: string, r: string)
    requires |l| <= |s| && l == s[|s| - |l|..] && forall k :: 0 <= k < |s| - |l| ==> IsSpace(s[k])
    requires |r| <= |l| && r == l[..|r|] && forall k :: |r| <= k < |l| ==> IsSpace(l[k])
    ensures exists i, j :: 0 <= i <= j <= |s| && r == s[i..j]
                           && (forall k :: 0 <= k < i ==> IsSpace(s[k]))
                           && (forall k :: j <= k < |s| ==> IsSpace(s[k]))
  {
    var i := |s| - |l|;
    assert r == s[i..i + |r|];
    forall k | i + |r| <= k < |s|
      ensures IsSpace(s[k])
    {
      assert s[k] == l[k - i];
    }
    assert 0 <= i <= i + |r| <= |s| && r == s[i..i + |r|];
  }

  predicate AllSpace(s: string) {
    forall k :: 0 <= k < |s| ==> IsSpace(s[k])
  }

  lemma {:induction false} AllSpaceTrimLeft(s: string)
    requires AllSpace(s)
    ensures TrimLeftSpace(s) == []
    decreases |s|
  {
    if |s| > 0 {
      AllSpaceTrimLeft(s[1..]);
    }
  }

  /** A string is blank after trimming exactly when it is all white space. */
  lemma TrimSpaceEmpty(s: string)
    ensures TrimSpace(s) == [] <==> AllSpace(s)
  {
    if AllSpace(s) {
      AllSpaceTrimLeft(s);
    }
  }

  lemma {:induction false} LeftSpaceSkip(pre: string, s: string)
    requires AllSpace(pre)
    ensures TrimLeftSpace(pre + s) == TrimLeftSpace(s)
    decreases |pre|
  {
    if |pre| > 0 {
      assert (pre + s)[0] == pre[0];
      assert (pre + s)[1..] == pre[1..] + s;
      LeftSpaceSkip(pre[1..], s);
    } else {
      assert pre + s == s;
    }
  }

  lemma {:induction false} LeftSpaceAppend(s: string, post: string)
    ensures TrimLeftSpace(s + post)
            == if TrimLeftSpace(s) == [] then TrimLeftSpace(post) else TrimLeftSpace(s) + post
    decreases |s|
  {
    if |s| > 0 {
      assert (s + post)[0] == s[0];
      assert (s + post)[1..] == s[1..] + post;
      LeftSpaceAppend(s[1..], post);
    } else {
      assert s + post == post;
    }
  }

  lemma {:induction false} RightSpaceSkip(s: string, post: string)
    requires AllSpace(post)
    ensures TrimRightSpace(s + post) == TrimRightSpace(s)
    decreases |post|
  {
    if |post| > 0 {
      assert (s + post)[|s + post| - 1] == post[|post| - 1];
      assert (s + post)[..|s + post| - 1] == s + post[..|post| - 1];
      RightSpaceSkip(s, post[..|post| - 1]);
    } else {
      assert s + post == s;
    }
  }

  /** Surrounding white space does not change what `TrimSpace` returns. */
  lemma TrimSpaceSurrounded(pre: string, s: string, post: string)
    requires AllSpace(pre) && AllSpace(post)
    ensures TrimSpace(pre + s + post) == TrimSpace(s)
  {
    assert pre + s + post == pre + (s + post);
    LeftSpaceSkip(pre, s + post);
    LeftSpaceAppend(s, post);
    if TrimLeftSpace(s) == [] {
      AllSpaceTrimLeft(post);
    } else {
      RightSpaceSkip(TrimLeftSpace(s), post);
    }
  }

  /** `strings.ReplaceAll` for a non-empty pattern: every non-overlapping
      occurrence, scanning left to right, is replaced. */
  function ReplaceAll(s: string, pat: string, rep: string): string
    requires |pat| > 0
    decreases |s|
  {
    if |s| < |pat| then s
    else if s[..|pat|] == pat then rep + ReplaceAll(s[|pat|..], pat, rep)
    else [s[0]] + ReplaceAll(s[1..], pat, rep)
  }

  /** A pattern that does not occur leaves the text unchanged. */
  lemma {:induction false} ReplaceAllAbsent(s: string, pat: string, rep: string)
    requires |pat| > 0 && !Contains(s, pat)
    ensures ReplaceAll(s, pat, rep) == s
    decreases |s|
  {
    if |s| >= |pat| {
      assert !HasPrefix(s, pat);
      ReplaceAllAbsent(s[1..], pat, rep);
    }
  }

  // ---------------------------------------------------------------------
  // Joining and splitting
  // ---------------------------------------------------------------------

  /** `strings.Join` and Python's `sep.join`. */
  function Join(xs: seq<string>, sep: string): string {
    if |xs| == 0 then "" else if |xs| == 1 then xs[0] else xs[0] + sep + Join(xs[1..], sep)
  }

  function IndexOf(s: string, c: char): (i: nat)
    requires c in s
    ensures i < |s| && s[i] == c && c !in s[..i]
  {
    if s[0] == c then 0 else 1 + IndexOf(s[1..], c)
  }

  /** Cut `s` at every occurrence of `sep` (Python's `str.split(sep)`). */
  function Split(s: string, sep: char): (r: seq<string>)
    ensures |r| >= 1
    decreases |s|
  {
    if sep !in s then [s]
    else
      var i := IndexOf(s, sep);
      [s[..i]] + Split(s[i + 1..], sep)
  }

  lemma {:induction false} IndexOfFirst(a: string, sep: char, b: string)
    requires sep !in a
    ensures IndexOf(a + [sep] + b, sep) == |a|
    decreases |a|
  {
    if |a| > 0 {
      assert (a + [sep] + b)[0] == a[0];
      assert (a + [sep] + b)[1..] == a[1..] + [sep] + b;
      IndexOfFirst(a[1..], sep, b);
    }
  }

  /** Splitting a joined list gives the list back when no element holds the
      separator. */
  lemma {:induction false} SplitJoin(xs: seq<string>, sep: char)
    requires |xs| >= 1
    requires forall k :: 0 <= k < |xs| ==> sep !in xs[k]
    ensures Split(Join(xs, [sep]), sep) == xs
  {
    if |xs| > 1 {
      var rest := Join(xs[1..], [sep]);
      var s := xs[0] + [sep] + rest;
      assert s[|xs[0]|] == sep;
      IndexOfFirst(xs[0], sep, rest);
      assert s[..|xs[0]|] == xs[0];
      assert s[|xs[0]| + 1..] == rest;
      SplitJoin(xs[1..], sep);
    }
  }

  // ---------------------------------------------------------------------
  // Decimal integers: strconv.Itoa / fmt "%d" / Python str(int), and
  // strconv.Atoi
  // ---------------------------------------------------------------------

  const MinInt64: int := -0x8000_0000_0000_0000
  const MaxInt64: int := 0x7FFF_FFFF_FFFF_FFFF

  function DigitChar(d: nat): (c: char)
    requires d < 10
    ensures IsDigit(c)
  {
    ('0' as int + d) as char
  }

  function DigitValue(c: char): nat
    requires IsDigit(c)
  {
    c as int - '0' as int
  }

  function NatToDigits(n: nat): (r: string)
    ensures |r| >= 1 && AllDigits(r)
  {
    if n < 10 then [DigitChar(n)] else NatToDigits(n / 10) + [DigitChar(n % 10)]
  }

  function DigitsValue(s: string): nat
    requires AllDigits(s)
  {
    if s == [] then 0 else DigitsValue(s[..|s| - 1]) * 10 + DigitValue(s[|s| - 1])
  }

  /** Decimal text of an integer, with a leading '-' when negative. */
  function Itoa(n: int): (r: string)
    ensures |r| >= 1
    ensures ',' !in r
  {
    if n < 0 then "-" + NatToDigits(-n) else NatToDigits(n)
  }

  /** `strconv.Atoi`: an optional sign and at least one decimal digit, and
      the value must fit a 64-bit int. */
  function Atoi(s: string): (r: Option<int>)
    ensures r.Some? ==> MinInt64 <= r.value <= MaxInt64
    ensures r.Some? ==> |s| >= 1
  {
    var signed := |s| > 0 && (s[0] == '+' || s[0] == '-');
    var body := if signed then s[1..] else s;
    if body == [] || !AllDigits(body) then None
    else
      var v: int := if signed && s[0] == '-' then -(DigitsValue(body) as int) else DigitsValue(body);
      if MinInt64 <= v <= MaxInt64 then Some(v) else None
  }

  lemma {:induction false} DigitsRoundTrip(n: nat)
    ensures DigitsValue(NatToDigits(n)) == n
  {
    if n >= 10 {
      var s := NatToDigits(n);
      assert s[..|s| - 1] == NatToDigits(n / 10);
      DigitsRoundTrip(n / 10);
    }
  }

  lemma AtoiNegative(d: string)
    requires |d| >= 1 && AllDigits(d) && DigitsValue(d) <= -MinInt64
    ensures Atoi("-" + d) == Some(-(DigitsValue(d) as int))
  {
    assert ("-" + d)[1..] == d;
  }

  lemma AtoiUnsigned(d: string)
    requires |d| >= 1 && AllDigits(d) && DigitsValue(d) <= MaxInt64
    ensures Atoi(d) == Some(DigitsValue(d) as int)
  {
    assert IsDigit(d[0]);
  }

  /** Parsing the decimal text of a 64-bit integer gives the integer back. */
  lemma AtoiItoa(n: int)
    requires MinInt64 <= n <= MaxInt64
    ensures Atoi(Itoa(n)) == Some(n)
  {
    if n < 0 {
      DigitsRoundTrip(-n);
      AtoiNegative(NatToDigits(-n));
    } else {
      DigitsRoundTrip(n);
      AtoiUnsigned(NatToDigits(n));
    }
  }

  function DecimalIds(ids: seq<int>): (r: seq<string>)
    ensures |r| == |ids| && forall i :: 0 <= i < |ids| ==> r[i] == Itoa(ids[i])
  {
    seq(|ids|, i requires 0 <= i < |ids| => Itoa(ids[i]))
  }

  /** The ids in decimal, joined by commas: Python's
      `','.join(map(str, ids))` and Go's `strings.Join` of `%d` texts. */
  function IdList(ids: seq<int>): string {
    Join(DecimalIds(ids), ",")
  }

  /** Cutting the id list at its commas and parsing each piece gives the
      ids back. */
  lemma IdListRoundTrip(ids: seq<int>)
    requires |ids| >= 1
    requires forall i :: 0 <= i < |ids| ==> MinInt64 <= ids[i] <= MaxInt64
    ensures |Split(IdList(ids), ',')| == |ids|
    ensures forall i :: 0 <= i < |ids| ==> Atoi(Split(IdList(ids), ',')[i]) == Some(ids[i])
  {
    SplitJoin(DecimalIds(ids), ',');
    forall i | 0 <= i < |ids| ensures Atoi(DecimalIds(ids)[i]) == Some(ids[i]) {
      AtoiItoa(ids[i]);
    }
  }

  // ---------------------------------------------------------------------
  // Lexicographic order (Go's string comparison: UTF-8 byte order, which
  // agrees with code point order)
  // ---------------------------------------------------------------------

  predicate LexLe(a: string, b: string) {
    |a| == 0 || (|b| > 0 && (a[0] < b[0] || (a[0] == b[0] && LexLe(a[1..], b[1..]))))
  }

  lemma {:induction false} LexLeTotal(a: string, b: string)
    ensures LexLe(a, b) || LexLe(b, a)
  {
    if |a| > 0 && |b| > 0 && a[0] == b[0] {
      LexLeTotal(a[1..], b[1..]);
    }
  }

  lemma {:induction false} LexLeAntisymmetric(a: string, b: string)
    requires LexLe(a, b) && LexLe(b, a)
    ensures a == b
  {
    if |a| > 0 && |b| > 0 {
      LexLeAntisymmetric(a[1..], b[1..]);
      assert a == [a[0]] + a[1..];
      assert b == [b[0]] + b[1..];
    }
  }

  lemma {:induction false} LexLeTransitive(a: string, b: string, c: string)
    requires LexLe(a, b) && LexLe(b, c)
    ensures LexLe(a, c)
  {
    if |a| > 0 && a[0] == b[0] && b[0] == c[0] {
      LexLeTransitive(a[1..], b[1..], c[1..]);
    }
  }

  // ---------------------------------------------------------------------
  // Paths (filepath with '/' as the separator)
  // ---------------------------------------------------------------------

  function AfterLast(s: string, c: char): (r: string)
    ensures c !in r
    ensures HasSuffix(s, r)
    decreases |s|
  {
    if c !in s then s
    else if s[|s| - 1] == c then []
    else AfterLast(s[..|s| - 1], c) + [s[|s| - 1]]
  }

  function TrimRightChar(s: string, c: char): string {
    if |s| > 0 && s[|s| - 1] == c then TrimRightChar(s[..|s| - 1], c) else s
  }

  /** `filepath.Base`: the last element of the path, "." for the empty path. */
  function Base(path: string): string {
    if path == "" then "."
    else
      var p := TrimRightChar(path, '/');
      if p == "" then "/" else AfterLast(p, '/')
  }

  /** `filepath.Join(dir, name)` for a clean directory and a plain file name:
      exactly one '/' between them. */
  function JoinPath(dir: string, name: string): string {
    if dir == "" then name
    else if dir[|dir| - 1] == '/' then dir + name
    else dir + "/" + name
  }
}
