/**
  The `time_format` template filter: a number of seconds rendered as
  `H:MM:SS` when there is at least one whole hour and as `M:SS` otherwise.

  The argument reaches the filter as whatever the template holds; the model
  takes either an integer number of seconds or a value whose conversion raises
  (`ValueError`/`TypeError`), which renders as "0:00". Python's `//` and `%`
  with the positive divisors used here floor, and agree with Dafny's `/` and `%`.
 */
module TimeFilters {
  import opened Wrappers
  import opened Text

  datatype Input = Seconds(value: int) | Unconvertible

  // ---------------------------------------------------------------------------
  // The filter

  function Hours(s: int): int { s / 3600 }

  function Minutes(s: int): int { (s % 3600) / 60 }

  function Secs(s: int): int { s % 60 }

  /** Whole hours, minutes and seconds put back together give the input, for every sign. */
  lemma Decompose(s: int)
    ensures Hours(s) * 3600 + Minutes(s) * 60 + Secs(s) == s
    ensures 0 <= Minutes(s) < 60 && 0 <= Secs(s) < 60
    ensures s >= 0 ==> Hours(s) >= 0
    ensures Hours(s) > 0 <==> s >= 3600
  {
    var h, r := s / 3600, s % 3600;
    assert s == h * 3600 + r && 0 <= r < 3600;
    assert r == (r / 60) * 60 + r % 60 && 0 <= r % 60 < 60;
    assert s % 60 == r % 60;
  }

  function TimeFormat(x: Input): (r: string)
    ensures |r| >= 4 && r[|r| - 3] == ':' && AllDigits(r[|r| - 2..])
    ensures x.Unconvertible? ==> r == "0:00"
  {
    match x
    case Unconvertible => "0:00"
    case Seconds(s) =>
      Decompose(s);
      var tail := [':'] + PadTwo(Secs(s));
      assert tail[1..] == PadTwo(Secs(s));
      if Hours(s) > 0 then NatToString(Hours(s)) + [':'] + PadTwo(Minutes(s)) + tail
      else NatToString(Minutes(s)) + tail
  }

  // ---------------------------------------------------------------------------
  // Reading a clock back

  predicate IsNumber(g: string) { |g| > 0 && AllDigits(g) }

  /**
    The reading of a rendered duration: two or three colon-separated decimal
    groups, weighted as minutes and seconds or as hours, minutes and seconds.
   */
  function ReadClock(r: string): Option<int> {
    var g := Split(r, ':');
    if |g| == 2 && IsNumber(g[0]) && IsNumber(g[1]) then
      Some(DigitsValue(g[0]) * 60 + DigitsValue(g[1]))
    else if |g| == 3 && IsNumber(g[0]) && IsNumber(g[1]) && IsNumber(g[2]) then
      Some(DigitsValue(g[0]) * 3600 + DigitsValue(g[1]) * 60 + DigitsValue(g[2]))
    else None
  }

  lemma DigitsHaveNoColon(a: string)
    requires AllDigits(a)
    ensures ':' !in a
  {
    forall i | 0 <= i < |a| ensures a[i] != ':' { assert IsDigit(a[i]); }
  }

  /** Splitting after a leading group of digits peels that group off. */
  lemma SplitColonPeel(a: string, b: string)
    requires AllDigits(a)
    ensures Split(a + [':'] + b, ':') == [a] + Split(b, ':')
  {
    DigitsHaveNoColon(a);
    SplitPeel(a, b, ':');
  }

  lemma SplitColonDigits(a: string)
    requires AllDigits(a)
    ensures Split(a, ':') == [a]
  {
    DigitsHaveNoColon(a);
  }

  /** A duration of at least one hour is rendered as three groups. */
  lemma LongFormGroups(s: int)
    requires s >= 3600
    ensures Split(TimeFormat(Seconds(s)), ':') == [NatToString(Hours(s)), PadTwo(Minutes(s)), PadTwo(Secs(s))]
  {
    Decompose(s);
    var hs, ms, ss := NatToString(Hours(s)), PadTwo(Minutes(s)), PadTwo(Secs(s));
    assert TimeFormat(Seconds(s)) == hs + [':'] + (ms + [':'] + ss);
    SplitColonDigits(ss);
    SplitColonPeel(ms, ss);
    SplitColonPeel(hs, ms + [':'] + ss);
  }

  /** A duration under one hour, negative ones included, is rendered as two groups. */
  lemma ShortFormGroups(s: int)
    requires s < 3600
    ensures Split(TimeFormat(Seconds(s)), ':') == [NatToString(Minutes(s)), PadTwo(Secs(s))]
  {
    Decompose(s);
    var ms, ss := NatToString(Minutes(s)), PadTwo(Secs(s));
    assert TimeFormat(Seconds(s)) == ms + [':'] + ss;
    SplitColonDigits(ss);
    SplitColonPeel(ms, ss);
  }

  /** Reading the rendering of a non-negative duration gives the duration back. */
  lemma TimeFormatRoundTrip(s: int)
    requires s >= 0
    ensures ReadClock(TimeFormat(Seconds(s))) == Some(s)
  {
    Decompose(s);
    NatToStringRoundTrip(Minutes(s));
    if s >= 3600 {
      LongFormGroups(s);
      NatToStringRoundTrip(Hours(s));
    } else {
      ShortFormGroups(s);
    }
  }

  /**
    A negative duration has negative whole hours, so it takes the short form, with
    the floored minutes and seconds of the remainder.
   */
  lemma NegativeShortForm(s: int)
    requires s < 0
    ensures |Split(TimeFormat(Seconds(s)), ':')| == 2
    ensures Hours(s) < 0 && ReadClock(TimeFormat(Seconds(s))) == Some(s - Hours(s) * 3600)
  {
    Decompose(s);
    ShortFormGroups(s);
    NatToStringRoundTrip(Minutes(s));
  }

  /** An unconvertible value renders as zero seconds would. */
  lemma UnconvertibleIsZero()
    ensures TimeFormat(Unconvertible) == TimeFormat(Seconds(0))
  {
    Decompose(0);
    assert NatToString(0) == "0";
    assert PadTwo(0) == "00";
  }
}
