/**
  String helpers shared by the account rules, the middleware predicates and the
  client-side authoring logic: ASCII lower-casing, whitespace trimming, splitting at
  a separator, decimal rendering of naturals, and the two textual substitutions the
  authoring scripts perform on form-field names.

  Unicode case mapping is out of scope: letters are the ASCII letters, and
  lower-casing leaves every other character alone. Whitespace is each
  language's own set, since Python's `str.strip()` and JavaScript's
  `String.prototype.trim()` do not remove the same characters.
 */
module Text {

  /** Whose whitespace a trim removes. */
  datatype Runtime = Python | JavaScript

  /**
    Python's `str.isspace()`, which `str.strip()` removes: the ASCII controls
    U+0009 to U+000D and U+001C to U+001F, the space, U+0085, and the Unicode
    space separators and line and paragraph separators.
    JavaScript's `trim()` removes the WhiteSpace and LineTerminator characters of
    ECMAScript: U+0009 to U+000D, the space separators, U+2028, U+2029 and the
    byte-order mark U+FEFF, but not U+001C to U+001F or U+0085.
   */
  predicate IsSpace(rt: Runtime, c: char) {
    || ('\t' <= c <= '\r') || c == ' ' || c == '\U{00A0}' || c == '\U{1680}'
    || ('\U{2000}' <= c <= '\U{200A}') || c == '\U{2028}' || c == '\U{2029}'
    || c == '\U{202F}' || c == '\U{205F}' || c == '\U{3000}'
    || (rt == Python && (('\U{001C}' <= c <= '\U{001F}') || c == '\U{0085}'))
    || (rt == JavaScript && c == '\U{FEFF}')
  }

  predicate IsUpper(c: char) { 'A' <= c <= 'Z' }

  predicate IsDigit(c: char) { '0' <= c <= '9' }

  predicate AllDigits(s: string) { forall i :: 0 <= i < |s| ==> IsDigit(s[i]) }

  /** ASCII lower-casing of one character; every other character is left alone. */
  function LowerChar(c: char): (d: char)
    ensures !IsUpper(d)
    ensures IsSpace(Python, d) <==> IsSpace(Python, c)
    ensures IsSpace(JavaScript, d) <==> IsSpace(JavaScript, c)
    ensures IsDigit(d) <==> IsDigit(c)
    ensures !IsUpper(c) ==> d == c
  {
    if IsUpper(c) then (c as int + 32) as char else c
  }

  /** `s.lower()` / `s.toLowerCase()` restricted to ASCII. */
  function Lower(s: string): (r: string)
    ensures |r| == |s|
    ensures forall i :: 0 <= i < |s| ==> r[i] == LowerChar(s[i])
  {
    seq(|s|, i requires 0 <= i < |s| => LowerChar(s[i]))
  }

  predicate NoUpper(s: string) { forall i :: 0 <= i < |s| ==> !IsUpper(s[i]) }

  /** Lower-casing leaves no upper-case letter and is a no-op on a string that has none. */
  lemma LowerNormalises(s: string)
    ensures NoUpper(Lower(s))
    ensures NoUpper(s) ==> Lower(s) == s
    ensures Lower(Lower(s)) == Lower(s)
  {
  }

  /** Drops leading whitespace: the result is a suffix of `s`, everything cut was whitespace. */
  function TrimStart(rt: Runtime, s: string): (r: string)
    ensures |r| <= |s| && r == s[|s| - |r|..]
    ensures forall i :: 0 <= i < |s| - |r| ==> IsSpace(rt, s[i])
    ensures r == [] || !IsSpace(rt, r[0])
    decreases |s|
  {
    if |s| > 0 && IsSpace(rt, s[0]) then TrimStart(rt, s[1..]) else s
  }

  /** Drops trailing whitespace: the result is a prefix of `s`, everything cut was whitespace. */
  function TrimEnd(rt: Runtime, s: string): (r: string)
    ensures r <= s
    ensures forall i :: |r| <= i < |s| ==> IsSpace(rt, s[i])
    ensures r == [] || !IsSpace(rt, r[|r| - 1])
    decreases |s|
  {
    if |s| > 0 && IsSpace(rt, s[|s| - 1]) then TrimEnd(rt, s[..|s| - 1]) else s
  }

  /** A string with no whitespace at either end. */
  predicate Trimmed(rt: Runtime, s: string) {
    s == [] || (!IsSpace(rt, s[0]) && !IsSpace(rt, s[|s| - 1]))
  }

  /** `r` sits at offset `a` of `s` with only whitespace before and after it. */
  predicate Window(rt: Runtime, s: string, r: string, a: int) {
    0 <= a <= |s| - |r| && r == s[a..a + |r|]
    && (forall i :: 0 <= i < a ==> IsSpace(rt, s[i]))
    && (forall i :: a + |r| <= i < |s| ==> IsSpace(rt, s[i]))
  }

  /** Python's `str.strip()` or JavaScript's `trim()`: removes that language's whitespace at both ends. */
  function Strip(rt: Runtime, s: string): (r: string)
    ensures Trimmed(rt, r)
    ensures exists a :: Window(rt, s, r, a)
  {
    TrimBothWindow(rt, s, TrimStart(rt, s), TrimEnd(rt, TrimStart(rt, s)));
    TrimEnd(rt, TrimStart(rt, s))
  }

  /**
    Cutting whitespace off the front of `s`, leaving `t`, and then off the back of
    `t`, leaving `r`, leaves a window of `s`.
   */
  lemma TrimBothWindow(rt: Runtime, s: string, t: string, r: string)
    requires |t| <= |s| && t == s[|s| - |t|..] && forall i :: 0 <= i < |s| - |t| ==> IsSpace(rt, s[i])
    requires r <= t && forall i :: |r| <= i < |t| ==> IsSpace(rt, t[i])
    ensures Window(rt, s, r, |s| - |t|)
  {
    var a := |s| - |t|;
    assert r == s[a..a + |r|];
    forall i | a + |r| <= i < |s| ensures IsSpace(rt, s[i]) {
      assert s[i] == t[i - a];
    }
  }

  /** A string that is already trimmed is its own strip. */
  lemma StripTrimmed(rt: Runtime, s: string)
    requires Trimmed(rt, s)
    ensures Strip(rt, s) == s
  {
  }

  /** `strip()` is idempotent. */
  lemma StripIdempotent(rt: Runtime, s: string)
    ensures Strip(rt, Strip(rt, s)) == Strip(rt, s)
  {
    StripTrimmed(rt, Strip(rt, s));
  }

  /** A string is blank after trimming iff every character is whitespace. */
  lemma StripEmptyIffAllSpace(rt: Runtime, s: string)
    ensures Strip(rt, s) == [] <==> forall i :: 0 <= i < |s| ==> IsSpace(rt, s[i])
  {
    if Strip(rt, s) != [] {
      var a :| Window(rt, s, Strip(rt, s), a);
      assert s[a] == Strip(rt, s)[0];
    }
  }

  /** The e-mail normalisation the signup form and the login view apply: `strip().lower()`. */
  function NormalizeEmail(s: string): (r: string)
    ensures NoUpper(r) && Trimmed(Python, r)
    ensures |r| <= |s|
  {
    var t := Strip(Python, s);
    var r := Lower(t);
    assert Trimmed(Python, r) by {
      if r != [] {
        assert r[0] == LowerChar(t[0]) && r[|r| - 1] == LowerChar(t[|t| - 1]);
      }
    }
    r
  }

  /** Normalising an already normalised address changes nothing. */
  lemma {:induction false} NormalizeIdempotent(s: string)
    ensures NormalizeEmail(NormalizeEmail(s)) == NormalizeEmail(s)
  {
    var n := NormalizeEmail(s);
    StripTrimmed(Python, n);
    LowerNormalises(n);
  }

  predicate AllSpace(rt: Runtime, s: string) { forall i :: 0 <= i < |s| ==> IsSpace(rt, s[i]) }

  lemma {:induction false} TrimStartPadded(rt: Runtime, p: string, r: string)
    requires AllSpace(rt, p) && r != [] && !IsSpace(rt, r[0])
    ensures TrimStart(rt, p + r) == r
    decreases |p|
  {
    if |p| > 0 {
      assert (p + r)[1..] == p[1..] + r;
      TrimStartPadded(rt, p[1..], r);
    } else {
      assert p + r == r;
    }
  }

  lemma {:induction false} TrimEndPadded(rt: Runtime, r: string, q: string)
    requires AllSpace(rt, q) && r != [] && !IsSpace(rt, r[|r| - 1])
    ensures TrimEnd(rt, r + q) == r
    decreases |q|
  {
    if |q| > 0 {
      assert (r + q)[..|r + q| - 1] == r + q[..|q| - 1];
      TrimEndPadded(rt, r, q[..|q| - 1]);
    } else {
      assert r + q == r;
    }
  }

  /** Whatever whitespace surrounds a trimmed string, stripping recovers exactly it. */
  lemma StripUnique(rt: Runtime, p: string, r: string, q: string)
    requires AllSpace(rt, p) && AllSpace(rt, q) && Trimmed(rt, r)
    ensures Strip(rt, p + r + q) == r
  {
    var s := p + r + q;
    if r == [] {
      assert s == p + q;
      assert AllSpace(rt, s);
      StripEmptyIffAllSpace(rt, s);
    } else {
      assert s == p + (r + q);
      TrimStartPadded(rt, p, r + q);
      TrimEndPadded(rt, r, q);
    }
  }

  lemma LowerTrimmed(rt: Runtime, t: string)
    requires Trimmed(rt, t)
    ensures Trimmed(rt, Lower(t))
  {
    var lt := Lower(t);
    if lt != [] {
      assert lt[0] == LowerChar(t[0]) && lt[|lt| - 1] == LowerChar(t[|t| - 1]);
    }
  }

  lemma Regroup(a: string, b: string, c: string, d: string, e: string)
    ensures a + (b + c + d) + e == (a + b) + c + (d + e)
  {
  }

  lemma LowerConcat(a: string, b: string)
    ensures Lower(a + b) == Lower(a) + Lower(b)
  {
  }

  /** A window splits its string into whitespace, the window, and whitespace. */
  lemma WindowSplit(rt: Runtime, s: string, r: string, a: int)
    requires Window(rt, s, r, a)
    ensures s == s[..a] + r + s[a + |r|..]
    ensures AllSpace(rt, s[..a]) && AllSpace(rt, s[a + |r|..])
  {
    var w := s[a + |r|..];
    forall i | 0 <= i < |w| ensures IsSpace(rt, w[i]) {
      assert w[i] == s[a + |r| + i];
    }
  }

  lemma LowerAllSpace(rt: Runtime, s: string)
    requires AllSpace(rt, s)
    ensures AllSpace(rt, Lower(s))
  {
  }

  lemma AllSpaceConcat(rt: Runtime, a: string, b: string)
    requires AllSpace(rt, a) && AllSpace(rt, b)
    ensures AllSpace(rt, a + b)
  {
  }

  /** Lower-casing a padded trimmed string and padding it again still strips to the lowered core. */
  lemma LowerPaddedStrip(rt: Runtime, pre: string, p: string, t: string, q: string, post: string)
    requires AllSpace(rt, pre) && AllSpace(rt, p) && AllSpace(rt, q) && AllSpace(rt, post) && Trimmed(rt, t)
    ensures Strip(rt, pre + Lower(p + t + q) + post) == Lower(t)
  {
    LowerConcat(p + t, q);
    LowerConcat(p, t);
    LowerAllSpace(rt, p);
    LowerAllSpace(rt, q);
    AllSpaceConcat(rt, pre, Lower(p));
    AllSpaceConcat(rt, Lower(q), post);
    Regroup(pre, Lower(p), Lower(t), Lower(q), post);
    LowerTrimmed(rt, t);
    StripUnique(rt, pre + Lower(p), Lower(t), Lower(q) + post);
  }

  /** Two addresses that differ only in case or surrounding whitespace normalise alike. */
  lemma NormalizeIgnoresCaseAndPadding(s: string, pre: string, post: string)
    requires AllSpace(Python, pre) && AllSpace(Python, post)
    ensures NormalizeEmail(pre + Lower(s) + post) == NormalizeEmail(s)
  {
    var t := Strip(Python, s);
    var a :| Window(Python, s, t, a);
    WindowSplit(Python, s, t, a);
    LowerPaddedStrip(Python, pre, s[..a], t, s[a + |t|..], post);
    LowerNormalises(t);
  }

  /** `s.split(c)[0]`: the part of `s` before the first `c`, or all of `s`. */
  function BeforeFirst(s: string, c: char): (r: string)
    ensures r <= s
    ensures c !in r
    ensures |r| < |s| ==> s[|r|] == c
  {
    if |s| == 0 then []
    else if s[0] == c then []
    else [s[0]] + BeforeFirst(s[1..], c)
  }

  /** Cut at a separator whose head holds none. */
  lemma {:induction false} BeforeFirstUpTo(a: string, b: string, c: char)
    requires c !in a
    ensures BeforeFirst(a + [c] + b, c) == a
    decreases |a|
  {
    if |a| > 0 {
      assert (a + [c] + b)[1..] == a[1..] + [c] + b;
      BeforeFirstUpTo(a[1..], b, c);
    }
  }

  /** `s.split(c)` for a one-character separator: the pieces between the separators, at least one. */
  function Split(s: string, c: char): (r: seq<string>)
    ensures |r| >= 1
    ensures r[0] == BeforeFirst(s, c)
    decreases |s|
  {
    var head := BeforeFirst(s, c);
    if |head| == |s| then [s] else [head] + Split(s[|head| + 1..], c)
  }

  /** Splitting after a head free of the separator peels the head off. */
  lemma SplitPeel(a: string, b: string, c: char)
    requires c !in a
    ensures Split(a + [c] + b, c) == [a] + Split(b, c)
  {
    BeforeFirstUpTo(a, b, c);
    assert (a + [c] + b)[|a| + 1..] == b;
  }

  /** Decimal digit for `0 <= d < 10`. */
  function DigitChar(d: nat): (c: char)
    requires d < 10
    ensures IsDigit(c) && c as int - '0' as int == d
  {
    ('0' as int + d) as char
  }

  function DigitValue(c: char): (d: nat)
    requires IsDigit(c)
    ensures d < 10 && DigitChar(d) == c
  {
    c as int - '0' as int
  }

  /** `String(n)` / `str(n)` for a natural number: no sign, no leading zero. */
  function NatToString(n: nat): (r: string)
    ensures |r| > 0 && AllDigits(r)
    ensures |r| > 1 ==> r[0] != '0'
    decreases n
  {
    if n < 10 then [DigitChar(n)] else NatToString(n / 10) + [DigitChar(n % 10)]
  }

  /** The value of a string of decimal digits, most significant first. */
  function DigitsValue(s: string): nat
    requires AllDigits(s)
    decreases |s|
  {
    if |s| == 0 then 0 else 10 * DigitsValue(s[..|s| - 1]) + DigitValue(s[|s| - 1])
  }

  /** Rendering then reading back a natural gives it back. */
  lemma {:induction false} NatToStringRoundTrip(n: nat)
    ensures DigitsValue(NatToString(n)) == n
    decreases n
  {
    var r := NatToString(n);
    if n < 10 {
      assert r[..|r| - 1] == [];
    } else {
      NatToStringRoundTrip(n / 10);
      assert r[..|r| - 1] == NatToString(n / 10);
    }
  }

  /** Rendering is injective: distinct naturals give distinct strings. */
  lemma NatToStringInjective(m: nat, n: nat)
    requires NatToString(m) == NatToString(n)
    ensures m == n
  {
    NatToStringRoundTrip(m);
    NatToStringRoundTrip(n);
  }

  /** `f"{n:02}"` for `0 <= n < 100`: exactly two digits, zero-padded. */
  function PadTwo(n: nat): (r: string)
    requires n < 100
    ensures |r| == 2 && AllDigits(r)
    ensures DigitsValue(r) == n
  {
    var r := [DigitChar(n / 10), DigitChar(n % 10)];
    assert r[..1] == [DigitChar(n / 10)] && r[..1][..0] == [];
    assert DigitsValue(r[..1]) == n / 10;
    r
  }

  // ---------------------------------------------------------------------------
  // Substring occurrences and global replacement (`s.replace(/pat/g, rep)`).

  predicate OccursAt(s: string, pat: string, i: int) {
    0 <= i && i + |pat| <= |s| && s[i..i + |pat|] == pat
  }

  /** `s.includes(pat)`. */
  predicate Contains(s: string, pat: string) {
    exists i :: 0 <= i <= |s| && OccursAt(s, pat, i)
  }

  /**
    JavaScript's global replace with a literal pattern: scans left to right and
    replaces each non-overlapping occurrence of `pat` by `rep`.
   */
  function ReplaceAll(s: string, pat: string, rep: string): string
    requires |pat| > 0
    decreases |s|
  {
    if |s| == 0 then []
    else if pat <= s then rep + ReplaceAll(s[|pat|..], pat, rep)
    else [s[0]] + ReplaceAll(s[1..], pat, rep)
  }

  /** Replacement with nothing to replace is the identity. */
  lemma {:induction false} ReplaceAllAbsent(s: string, pat: string, rep: string)
    requires |pat| > 0 && !Contains(s, pat)
    ensures ReplaceAll(s, pat, rep) == s
    decreases |s|
  {
    if |s| > 0 {
      assert !OccursAt(s, pat, 0);
      assert !(pat <= s);
      assert !Contains(s[1..], pat) by {
        forall i | OccursAt(s[1..], pat, i) ensures false {
          assert s[i + 1..i + 1 + |pat|] == s[1..][i..i + |pat|];
          assert OccursAt(s, pat, i + 1);
        }
      }
      ReplaceAllAbsent(s[1..], pat, rep);
    }
  }

  /**
    A prefix in which no occurrence of `pat` starts is copied unchanged; the
    replacement then carries on from where that prefix ends.
   */
  lemma {:induction false} ReplaceAllSkipsClean(a: string, t: string, pat: string, rep: string)
    requires |pat| > 0
    requires forall i :: 0 <= i < |a| ==> !OccursAt(a + t, pat, i)
    ensures ReplaceAll(a + t, pat, rep) == a + ReplaceAll(t, pat, rep)
    decreases |a|
  {
    if |a| == 0 {
      assert a + t == t;
    } else {
      var s := a + t;
      assert !(pat <= s) by {
        if pat <= s { assert s[0..|pat|] == pat; assert OccursAt(s, pat, 0); }
      }
      assert s[1..] == a[1..] + t;
      forall i | 0 <= i < |a[1..]| ensures !OccursAt(a[1..] + t, pat, i) {
        if OccursAt(a[1..] + t, pat, i) {
          assert s[i + 1..i + 1 + |pat|] == (a[1..] + t)[i..i + |pat|];
          assert OccursAt(s, pat, i + 1);
        }
      }
      ReplaceAllSkipsClean(a[1..], t, pat, rep);
      assert ReplaceAll(s, pat, rep) == [s[0]] + ReplaceAll(s[1..], pat, rep);
      assert a == [a[0]] + a[1..];
    }
  }

  /**
    The form-template case: a name `a + pat + b` with exactly that one occurrence
    becomes `a + rep + b`.
   */
  lemma ReplaceAllSingle(a: string, b: string, pat: string, rep: string)
    requires |pat| > 0
    requires forall i :: 0 <= i < |a| ==> !OccursAt(a + pat + b, pat, i)
    requires !Contains(b, pat)
    ensures ReplaceAll(a + pat + b, pat, rep) == a + rep + b
  {
    assert a + pat + b == a + (pat + b);
    ReplaceAllSkipsClean(a, pat + b, pat, rep);
    ReplaceAllLeading(b, pat, rep);
  }

  /** An occurrence at the very start, and none after it, is replaced once. */
  lemma ReplaceAllLeading(b: string, pat: string, rep: string)
    requires |pat| > 0 && !Contains(b, pat)
    ensures ReplaceAll(pat + b, pat, rep) == rep + b
  {
    assert pat <= pat + b && (pat + b)[|pat|..] == b;
    ReplaceAllAbsent(b, pat, rep);
  }

  /** No character of `rep` occurs in `pat`. */
  predicate Foreign(rep: string, pat: string) {
    forall j :: 0 <= j < |rep| ==> rep[j] !in pat
  }

  /**
    A stretch of the output written only with characters of `pat` was copied from
    the input unchanged (used to show that no occurrence survives).
   */
  lemma {:induction false} ReplaceAllPatternCharsCopied(t: string, pat: string, rep: string, j: nat)
    requires |pat| > 0 && |rep| > 0 && Foreign(rep, pat)
    requires j <= |ReplaceAll(t, pat, rep)|
    requires forall k :: 0 <= k < j ==> ReplaceAll(t, pat, rep)[k] in pat
    ensures j <= |t| && ReplaceAll(t, pat, rep)[..j] == t[..j]
    ensures j > 0 ==> !(pat <= t)
    decreases |t|
  {
    var r := ReplaceAll(t, pat, rep);
    if j > 0 {
      assert r[0] in pat;
      assert |rep| > 0 ==> rep[0] !in pat;
      if pat <= t {
        assert false;
      } else {
        var tail := ReplaceAll(t[1..], pat, rep);
        assert r == [t[0]] + tail;
        assert forall k :: 0 <= k < j - 1 ==> tail[k] == r[k + 1];
        ReplaceAllPatternCharsCopied(t[1..], pat, rep, j - 1);
        assert r[..j] == [t[0]] + ReplaceAll(t[1..], pat, rep)[..j - 1];
      }
    }
  }

  /** Prepending a replacement text cannot create an occurrence of the pattern. */
  lemma NoOccurrenceAcrossReplacement(rep: string, tail: string, pat: string)
    requires |pat| > 0 && Foreign(rep, pat) && !Contains(tail, pat)
    ensures !Contains(rep + tail, pat)
  {
    var r := rep + tail;
    forall i | 0 <= i <= |r| ensures !OccursAt(r, pat, i) {
      if i < |rep| {
        assert r[i] == rep[i] && rep[i] !in pat;
      } else if i + |pat| <= |r| {
        assert r[i..i + |pat|] == tail[i - |rep|..i - |rep| + |pat|];
        assert !OccursAt(tail, pat, i - |rep|);
      }
    }
  }

  lemma CopiedHeadStartsNoOccurrence(s: string, pat: string, rep: string)
    requires |pat| > 0 && |rep| > 0 && Foreign(rep, pat)
    requires |s| > 0 && !(pat <= s)
    ensures !OccursAt([s[0]] + ReplaceAll(s[1..], pat, rep), pat, 0)
  {
    var tail := ReplaceAll(s[1..], pat, rep);
    if OccursAt([s[0]] + tail, pat, 0) {
      forall k | 0 <= k < |pat| - 1 ensures tail[k] in pat {
        assert tail[k] == ([s[0]] + tail)[k + 1] == pat[k + 1];
      }
      ReplaceAllPatternCharsCopied(s[1..], pat, rep, |pat| - 1);
      HeadMatch(s, tail, pat);
    }
  }

  /**
    If `pat` starts `[s[0]] + tail` and the first `|pat| - 1` characters of `tail`
    are those of `s[1..]`, then `pat` starts `s`.
   */
  lemma HeadMatch(s: string, tail: string, pat: string)
    requires |s| > 0 && |pat| > 0 && OccursAt([s[0]] + tail, pat, 0)
    requires |pat| - 1 <= |s| - 1 && tail[..|pat| - 1] == s[1..][..|pat| - 1]
    ensures pat <= s
  {
    var r := [s[0]] + tail;
    forall k | 0 <= k < |pat| ensures s[k] == pat[k] {
      if k > 0 {
        assert s[k] == s[1..][..|pat| - 1][k - 1] == tail[k - 1] == r[k];
      }
    }
  }

  /** An occurrence past a prepended character is an occurrence in the rest. */
  lemma OccursPastHead(c: char, tail: string, pat: string, i: int)
    requires 1 <= i
    ensures OccursAt([c] + tail, pat, i) <==> OccursAt(tail, pat, i - 1)
  {
    var r := [c] + tail;
    if i + |pat| <= |r| {
      assert r[i..i + |pat|] == tail[i - 1..i - 1 + |pat|];
    }
  }

  /** Prepending a character at which no occurrence starts cannot create one. */
  lemma NoOccurrencePastHead(c: char, tail: string, pat: string)
    requires !Contains(tail, pat) && !OccursAt([c] + tail, pat, 0)
    ensures !Contains([c] + tail, pat)
  {
    forall i | 1 <= i <= |tail| + 1 ensures !OccursAt([c] + tail, pat, i) {
      OccursPastHead(c, tail, pat, i);
    }
  }

  /** Copying a character at which no occurrence starts cannot create one either. */
  lemma NoOccurrenceAcrossCopy(s: string, pat: string, rep: string)
    requires |pat| > 0 && |rep| > 0 && Foreign(rep, pat)
    requires |s| > 0 && !(pat <= s)
    requires !Contains(ReplaceAll(s[1..], pat, rep), pat)
    ensures !Contains([s[0]] + ReplaceAll(s[1..], pat, rep), pat)
  {
    CopiedHeadStartsNoOccurrence(s, pat, rep);
    NoOccurrencePastHead(s[0], ReplaceAll(s[1..], pat, rep), pat);
  }

  /**
    When the replacement shares no character with the pattern, no occurrence of the
    pattern is left after replacing (the `__prefix__` placeholder is gone).
   */
  lemma {:induction false} ReplaceAllRemovesPattern(s: string, pat: string, rep: string)
    requires |pat| > 0 && |rep| > 0 && Foreign(rep, pat)
    ensures !Contains(ReplaceAll(s, pat, rep), pat)
    decreases |s|
  {
    if |s| == 0 {
      assert ReplaceAll(s, pat, rep) == [];
    } else if pat <= s {
      ReplaceAllRemovesPattern(s[|pat|..], pat, rep);
      NoOccurrenceAcrossReplacement(rep, ReplaceAll(s[|pat|..], pat, rep), pat);
    } else {
      ReplaceAllRemovesPattern(s[1..], pat, rep);
      NoOccurrenceAcrossCopy(s, pat, rep);
    }
  }

  // ---------------------------------------------------------------------------
  // `name.replace(/\d+/, n)`: only the first run of digits is rewritten.

  /** Index of the first digit of `s` at or after `i`, or `|s|` when there is none. */
  function FirstDigitFrom(s: string, i: nat): (j: nat)
    requires i <= |s|
    ensures i <= j <= |s|
    ensures forall k :: i <= k < j ==> !IsDigit(s[k])
    ensures j < |s| ==> IsDigit(s[j])
    decreases |s| - i
  {
    if i == |s| || IsDigit(s[i]) then i else FirstDigitFrom(s, i + 1)
  }

  function FirstDigit(s: string): nat {
    FirstDigitFrom(s, 0)
  }

  /** Where the run of digits starting at `i` ends. */
  function RunEnd(s: string, i: nat): (j: nat)
    requires i <= |s|
    ensures i <= j <= |s|
    ensures forall k :: i <= k < j ==> IsDigit(s[k])
    ensures j < |s| ==> !IsDigit(s[j])
    decreases |s| - i
  {
    if i == |s| || !IsDigit(s[i]) then i else RunEnd(s, i + 1)
  }

  /**
    The JavaScript `name.replace(/\d+/, n)`: the first maximal run of digits is
    replaced by `n`, everything else is kept; a name without digits is unchanged.
   */
  function ReplaceFirstDigitRun(s: string, n: string): string {
    var i := FirstDigit(s);
    if i == |s| then s else s[..i] + n + s[RunEnd(s, i)..]
  }

  /** A name without digits is left as it is. */
  lemma ReplaceFirstDigitRunNoDigit(s: string, n: string)
    requires forall k :: 0 <= k < |s| ==> !IsDigit(s[k])
    ensures ReplaceFirstDigitRun(s, n) == s
  {
  }

  /**
    A name made of a digit-free head, a non-empty run of digits and a tail that
    does not start with a digit keeps its head and tail and gets `n` for the run.
   */
  lemma ReplaceFirstDigitRunShape(a: string, d: string, b: string, n: string)
    requires forall k :: 0 <= k < |a| ==> !IsDigit(a[k])
    requires |d| > 0 && AllDigits(d)
    requires b == [] || !IsDigit(b[0])
    ensures ReplaceFirstDigitRun(a + d + b, n) == a + n + b
  {
    var s := a + d + b;
    FirstDigitAt(s, |a|);
    RunEndAt(s, |a|, |a| + |d|);
    assert s[..|a|] == a;
    assert s[|a| + |d|..] == b;
  }

  lemma FirstDigitAt(s: string, i: nat)
    requires i < |s| && IsDigit(s[i])
    requires forall k :: 0 <= k < i ==> !IsDigit(s[k])
    ensures FirstDigit(s) == i
  {
  }

  lemma RunEndAt(s: string, i: nat, j: nat)
    requires i <= j <= |s|
    requires forall k :: i <= k < j ==> IsDigit(s[k])
    requires j < |s| ==> !IsDigit(s[j])
    ensures RunEnd(s, i) == j
  {
  }

  /**
    Renumbering a name twice with the same index is the same as once: after the
    first pass the first digit run is exactly the index.
   */
  lemma ReplaceFirstDigitRunIdempotent(s: string, n: string)
    requires |n| > 0 && AllDigits(n)
    ensures ReplaceFirstDigitRun(ReplaceFirstDigitRun(s, n), n) == ReplaceFirstDigitRun(s, n)
  {
    var i := FirstDigit(s);
    if i < |s| {
      var j := RunEnd(s, i);
      var a, b := s[..i], s[j..];
      assert forall k :: 0 <= k < |a| ==> a[k] == s[k];
      assert b == [] || b[0] == s[j];
      ReplaceFirstDigitRunShape(a, n, b, n);
    }
  }
}
