/**
  `getCSRFToken`, written out identically in the e-mail verification, password
  reset verification and logout scripts: the cookie string is split into
  entries at "; ", the first entry starting with "csrftoken=" is taken, and
  the piece after its first '=' (up to the next '=') is the token; without
  such an entry, or with an empty piece, the token is "".
 */
module Cookies {
  import opened Wrappers
  import opened Text

  const ENTRY_SEPARATOR: string := "; "
  const CSRF_PREFIX: string := "csrftoken="

  lemma OccursAtShift(s: string, sep: string, k: nat)
    requires 1 <= k && |s| > 0
    ensures OccursAt(s, sep, k) <==> OccursAt(s[1..], sep, k - 1)
  {
    assert s == [s[0]] + s[1..];
    OccursPastHead(s[0], s[1..], sep, k);
  }

  /** Where the first occurrence of `sep` in `s` begins, `|s|` when there is none. */
  function FirstOccurrence(s: string, sep: string): (i: nat)
    requires |sep| > 0
    ensures i <= |s|
    ensures forall k :: 0 <= k < i ==> !OccursAt(s, sep, k)
    ensures i < |s| ==> OccursAt(s, sep, i)
    decreases |s|
  {
    if |s| == 0 || sep <= s then 0
    else
      var i := 1 + FirstOccurrence(s[1..], sep);
      assert forall k :: 1 <= k <= i ==> (OccursAt(s, sep, k) <==> OccursAt(s[1..], sep, k - 1)) by {
        forall k | 1 <= k <= i { OccursAtShift(s, sep, k); }
      }
      i
  }

  /** `s.split(sep)` for a literal separator of one or more characters. */
  function SplitOn(s: string, sep: string): (r: seq<string>)
    requires |sep| > 0
    ensures |r| >= 1
    decreases |s|
  {
    var i := FirstOccurrence(s, sep);
    if i == |s| then [s] else [s[..i]] + SplitOn(s[i + |sep|..], sep)
  }

  /** `entries.find(row => row.startsWith(p))`, as a position. */
  function FindPrefixed(entries: seq<string>, p: string): (r: Option<nat>)
    ensures r.Some? ==> r.value < |entries| && p <= entries[r.value]
                        && forall k :: 0 <= k < r.value ==> !(p <= entries[k])
    ensures r.None? ==> forall k :: 0 <= k < |entries| ==> !(p <= entries[k])
  {
    if |entries| == 0 then None
    else if p <= entries[0] then Some(0)
    else match FindPrefixed(entries[1..], p)
      case None => None
      case Some(k) => Some(k + 1)
  }

  /** The cookie's entries. */
  function Entries(cookie: string): seq<string> {
    SplitOn(cookie, ENTRY_SEPARATOR)
  }

  /**
    `getCSRFToken`: the token is what follows "csrftoken=" in the first entry
    starting with it, cut at the next '='; "" when no entry starts with it.
   */
  function CsrfToken(cookie: string): (r: string)
    ensures FindPrefixed(Entries(cookie), CSRF_PREFIX).None? ==> r == []
    ensures FindPrefixed(Entries(cookie), CSRF_PREFIX).Some? ==>
              var e := Entries(cookie)[FindPrefixed(Entries(cookie), CSRF_PREFIX).value];
              r == BeforeFirst(e[|CSRF_PREFIX|..], '=')
    ensures '=' !in r
  {
    var entries := Entries(cookie);
    match FindPrefixed(entries, CSRF_PREFIX)
    case None => []
    case Some(i) =>
      var e := entries[i];
      var name := CSRF_PREFIX[..|CSRF_PREFIX| - 1];
      assert e == name + ['='] + e[|CSRF_PREFIX|..];
      SplitPeel(name, e[|CSRF_PREFIX|..], '=');
      var parts := Split(e, '=');
      if |parts| > 1 then parts[1] else []
  }

  /**
    A cookie whose first entry is `csrftoken=v`, for a value without '=' or ';',
    yields `v`; an empty value yields "".
   */
  lemma CsrfTokenFirstEntry(v: string, rest: string)
    requires '=' !in v && ';' !in v
    requires rest == [] || ENTRY_SEPARATOR <= rest
    ensures CsrfToken(CSRF_PREFIX + v + rest) == v
  {
    var cookie := CSRF_PREFIX + v + rest;
    var head := CSRF_PREFIX + v;
    assert forall k :: 0 <= k < |head| ==> cookie[k] == head[k] && head[k] != ';';
    forall k | 0 <= k < |head| ensures !OccursAt(cookie, ENTRY_SEPARATOR, k) {
      assert cookie[k] == head[k];
    }
    var i := FirstOccurrence(cookie, ENTRY_SEPARATOR);
    assert i == |head| by {

      if i > |head| {
        assert cookie[|head|..] == rest;
        assert cookie[|head|..|head| + 2] == ENTRY_SEPARATOR;
        assert OccursAt(cookie, ENTRY_SEPARATOR, |head|);
      }
    }
    if rest == [] {
      assert Entries(cookie) == [cookie];
    } else {
      assert cookie[..i] == head;
    }
    assert Entries(cookie)[0] == head;
    assert FindPrefixed(Entries(cookie), CSRF_PREFIX) == Some(0);
    assert head[|CSRF_PREFIX|..] == v;
  }

  /** A cookie without any ';' is one entry. */
  lemma SingleEntry(e: string)
    requires ';' !in e
    ensures Entries(e) == [e]
  {
    forall k | 0 <= k < |e| ensures !OccursAt(e, ENTRY_SEPARATOR, k) {
      if k + 2 <= |e| {
        assert e[k..k + 2][0] == e[k] != ';';
      }
    }
  }

  /**
    An entry that only contains "csrftoken=" further in (say `my_csrftoken=v`) is
    never taken for the token.
   */
  lemma ContainedNameIgnored(a: string, v: string)
    requires |a| > 0 && a[0] != 'c' && ';' !in a && ';' !in v
    ensures CsrfToken(a + CSRF_PREFIX + v) == []
  {
    var e := a + CSRF_PREFIX + v;
    assert ';' !in e by {
      forall k | 0 <= k < |e| ensures e[k] != ';' {
        if k < |a| { assert e[k] == a[k]; }
        else if k < |a| + |CSRF_PREFIX| { assert e[k] == CSRF_PREFIX[k - |a|]; }
        else { assert e[k] == v[k - |a| - |CSRF_PREFIX|]; }
      }
    }
    SingleEntry(e);
    assert e[0] != CSRF_PREFIX[0];
  }
}
