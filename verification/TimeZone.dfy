/**
 base/time/TimeZone.cpp: findLocaltime, toLocalTime and fromLocalTime over given transition tables
 (section 3.2 of RFC 8536), including the one-hour adjustment of fromLocalTime.

 gmtime_r and timegm are parameters of which only timegm(gmtime(s)) == s is used, and where it matters the hour and
 minute that gmtime_r gives.
 */
module TimeZone {
  import opened CMath

  datatype Transition = Transition(gmttime: int, localtime: int, localtimeIdx: nat)
  datatype Localtime = Localtime(gmtOffset: int, isDst: bool)
  datatype Zone = Zone(transitions: seq<Transition>, localtimes: seq<Localtime>)

  /** The fields of struct tm that gmtime_r fills; date stands for year, month and day. */
  datatype Fields = Fields(date: int, hour: int, min: int, sec: int)
  datatype LocalTm = LocalTm(fields: Fields, isDst: bool, gmtOffset: int)
  datatype Libc = Libc(gmtime: int -> Fields, timegm: Fields -> int)

  ghost predicate Inverse(libc: Libc) {
    forall s: int :: libc.timegm(libc.gmtime(s)) == s
  }

  /** What reading a zone file establishes: types exist, and local times use the new offset. */
  predicate IsZone(z: Zone) {
    && z.localtimes != []
    && forall i :: 0 <= i < |z.transitions| ==>
         var tr := z.transitions[i];
         && tr.localtimeIdx < |z.localtimes|
         && tr.localtime == tr.gmttime + z.localtimes[tr.localtimeIdx].gmtOffset
  }

  // ---------------------------------------------------------------- lookup

  /** The time that Comp(compareGmt) compares. */
  function Key(tr: Transition, compareGmt: bool): int {
    if compareGmt then tr.gmttime else tr.localtime
  }

  predicate Ascending(z: Zone, compareGmt: bool) {
    forall i, j :: 0 <= i < j < |z.transitions| ==>
                     Key(z.transitions[i], compareGmt) < Key(z.transitions[j], compareGmt)
  }

  /** The last of the first n transitions at or before x, or -1. */
  function LastBefore(z: Zone, compareGmt: bool, x: int, n: nat): (r: int)
    requires n <= |z.transitions|
    ensures -1 <= r < n
    ensures r >= 0 ==> Key(z.transitions[r], compareGmt) <= x
    ensures forall i :: r < i < n ==> x < Key(z.transitions[i], compareGmt)
  {
    if n == 0 then -1
    else if Key(z.transitions[n - 1], compareGmt) <= x then n - 1
    else LastBefore(z, compareGmt, x, n - 1)
  }

  /** The segment of time that x falls in: segment i starts at transition i, segment -1 before them all. */
  function Segment(z: Zone, compareGmt: bool, x: int): (r: int)
    ensures -1 <= r < |z.transitions|
  {
    LastBefore(z, compareGmt, x, |z.transitions|)
  }

  /** The local time type in force during a segment. */
  function TypeOf(z: Zone, segment: int): Localtime
    requires IsZone(z) && -1 <= segment < |z.transitions|
  {
    if segment == -1 then z.localtimes[0] else z.localtimes[z.transitions[segment].localtimeIdx]
  }

  /** std::lower_bound: the first transition not before x. */
  method LowerBound(z: Zone, compareGmt: bool, x: int) returns (k: nat)
    requires Ascending(z, compareGmt)
    ensures k <= |z.transitions|
    ensures forall i :: 0 <= i < k ==> Key(z.transitions[i], compareGmt) < x
    ensures forall i :: k <= i < |z.transitions| ==> x <= Key(z.transitions[i], compareGmt)
  {
    k := 0;
    var length := |z.transitions|;
    while length > 0
      invariant 0 <= length && k + length <= |z.transitions|
      invariant forall i :: 0 <= i < k ==> Key(z.transitions[i], compareGmt) < x
      invariant forall i :: k + length <= i < |z.transitions| ==> x <= Key(z.transitions[i], compareGmt)
    {
      var half := length / 2;
      if Key(z.transitions[k + half], compareGmt) < x {
        k := k + half + 1;
        length := length - half - 1;
      } else {
        length := half;
      }
    }
  }

  method FindLocaltime(z: Zone, compareGmt: bool, x: int) returns (local: Localtime)
    requires IsZone(z) && Ascending(z, compareGmt)
    ensures local == TypeOf(z, Segment(z, compareGmt, x))
  {
    if z.transitions == [] || x < Key(z.transitions[0], compareGmt) {
      local := z.localtimes[0];
    } else {
      var k := LowerBound(z, compareGmt, x);
      if k != |z.transitions| {
        if x != Key(z.transitions[k], compareGmt) {
          assert k != 0;
          k := k - 1;
        }
        local := z.localtimes[z.transitions[k].localtimeIdx];
      } else {
        local := z.localtimes[z.transitions[|z.transitions| - 1].localtimeIdx];
      }
    }
  }

  // ---------------------------------------------------------------- conversion

  function LocalTime(z: Zone, libc: Libc, seconds: int): LocalTm
    requires IsZone(z)
  {
    var local := TypeOf(z, Segment(z, true, seconds));
    LocalTm(libc.gmtime(seconds + local.gmtOffset), local.isDst, local.gmtOffset)
  }

  method ToLocalTime(z: Zone, libc: Libc, seconds: int) returns (tm: LocalTm)
    requires IsZone(z) && Ascending(z, true)
    ensures tm == LocalTime(z, libc, seconds)
  {
    var local := FindLocaltime(z, true, seconds);
    var localSeconds := seconds + local.gmtOffset;
    tm := LocalTm(libc.gmtime(localSeconds), false, 0);
    tm := tm.(isDst := local.isDst);
    tm := tm.(gmtOffset := local.gmtOffset);
  }

  /** The seconds that fromLocalTime returns. */
  function UtcSeconds(z: Zone, libc: Libc, localTm: LocalTm): int
    requires IsZone(z)
  {
    var seconds := libc.timegm(localTm.fields);
    var local := TypeOf(z, Segment(z, false, seconds));
    var tryTm := LocalTime(z, libc, seconds - local.gmtOffset);
    if localTm.isDst && !tryTm.isDst
       && tryTm.fields.hour == localTm.fields.hour && tryTm.fields.min == localTm.fields.min
    then seconds - 3600 - local.gmtOffset
    else seconds - local.gmtOffset
  }

  method FromLocalTime(z: Zone, libc: Libc, localTm: LocalTm) returns (t: int)
    requires IsZone(z) && Ascending(z, true) && Ascending(z, false)
    ensures t == UtcSeconds(z, libc, localTm)
  {
    var seconds := libc.timegm(localTm.fields);
    var local := FindLocaltime(z, false, seconds);
    if localTm.isDst {
      var tryTm := ToLocalTime(z, libc, seconds - local.gmtOffset);
      if !tryTm.isDst && tryTm.fields.hour == localTm.fields.hour && tryTm.fields.min == localTm.fields.min {
        seconds := seconds - 3600;
      }
    }
    t := seconds - local.gmtOffset;
  }

  // ---------------------------------------------------------------- when the round trip is exact

  /** How far the clocks go back at transition i; negative when they go forward. */
  function Decrease(z: Zone, i: int): int
    requires IsZone(z) && 0 <= i < |z.transitions|
  {
    TypeOf(z, i - 1).gmtOffset - TypeOf(z, i).gmtOffset
  }

  function Back(z: Zone, i: int): int
    requires IsZone(z) && 0 <= i < |z.transitions|
  {
    Max(0, Decrease(z, i))
  }

  /** The time between transition i and the one before it. */
  function Gap(z: Zone, i: int): int
    requires 1 <= i < |z.transitions|
  {
    z.transitions[i].gmttime - z.transitions[i - 1].gmttime
  }

  /** The stretches of local time repeated at transition i and at the one before it do not meet. */
  predicate ApartFromPrevious(z: Zone, i: int)
    requires IsZone(z) && 1 <= i < |z.transitions|
  {
    Back(z, i - 1) + Back(z, i) <= Gap(z, i) && Back(z, i) < Gap(z, i)
  }

  predicate WellSeparated(z: Zone)
    requires IsZone(z)
  {
    Ascending(z, true) && forall i :: 1 <= i < |z.transitions| ==> ApartFromPrevious(z, i)
  }

  lemma LocalStep(z: Zone, i: int)
    requires IsZone(z) && 1 <= i < |z.transitions|
    ensures z.transitions[i].localtime - z.transitions[i - 1].localtime == Gap(z, i) - Decrease(z, i)
  {
  }

  /** Transition i is the kind that fromLocalTime adjusts for: summer time ends and the clocks go back one hour. */
  predicate EndsSummerTime(z: Zone, i: int)
    requires IsZone(z) && 0 <= i < |z.transitions|
  {
    TypeOf(z, i - 1).isDst && !TypeOf(z, i).isDst && Decrease(z, i) == 3600
  }

  /** t is in the first pass of a stretch of local time that is repeated when transition i puts the clocks back. */
  predicate InFirstPass(z: Zone, t: int, i: int)
    requires IsZone(z) && 0 <= i < |z.transitions|
  {
    Segment(z, true, t) == i - 1 && z.transitions[i].gmttime - Decrease(z, i) <= t
  }

  lemma {:induction false} LocalTimesAscend(z: Zone, i: int, j: int)
    requires IsZone(z) && WellSeparated(z) && 0 <= i < j < |z.transitions|
    ensures z.transitions[i].localtime < z.transitions[j].localtime
    decreases j
  {
    hide IsZone, Ascending, TypeOf;
    assert ApartFromPrevious(z, j);
    LocalStep(z, j);
    if i < j - 1 {
      LocalTimesAscend(z, i, j - 1);
    }
  }

  /** So the second binary search, by local time, is as well founded as the first. */
  lemma BothSearchesApply(z: Zone)
    requires IsZone(z) && WellSeparated(z)
    ensures Ascending(z, true) && Ascending(z, false)
  {
    forall i, j | 0 <= i < j < |z.transitions|
      ensures Key(z.transitions[i], false) < Key(z.transitions[j], false)
    {
      LocalTimesAscend(z, i, j);
    }
  }

  /** A segment is determined by its two ends. */
  lemma SegmentIs(z: Zone, compareGmt: bool, x: int, i: int)
    requires Ascending(z, compareGmt) && -1 <= i < |z.transitions|
    requires i >= 0 ==> Key(z.transitions[i], compareGmt) <= x
    requires i + 1 < |z.transitions| ==> x < Key(z.transitions[i + 1], compareGmt)
    ensures Segment(z, compareGmt, x) == i
  {
  }

  /** Outside first passes, looking a local time up by local time finds its own segment. */
  lemma LocalLookup(z: Zone, t: int, i: int)
    requires IsZone(z) && Ascending(z, false) && i == Segment(z, true, t)
    requires i + 1 < |z.transitions| ==> !InFirstPass(z, t, i + 1)
    ensures Segment(z, false, t + TypeOf(z, i).gmtOffset) == i
  {
    SegmentIs(z, false, t + TypeOf(z, i).gmtOffset, i);
  }

  /** In a first pass the lookup finds the next segment, and no later one. */
  lemma FirstPassLookup(z: Zone, t: int, i: int)
    requires IsZone(z) && WellSeparated(z) && Ascending(z, false) && 0 <= i < |z.transitions| && InFirstPass(z, t, i)
    ensures Segment(z, false, t + TypeOf(z, i - 1).gmtOffset) == i
  {
    var x := t + TypeOf(z, i - 1).gmtOffset;
    assert z.transitions[i].localtime <= x < z.transitions[i].localtime + Decrease(z, i);
    if i + 1 < |z.transitions| {
      hide IsZone, TypeOf, Ascending;
      assert ApartFromPrevious(z, i + 1);
      LocalStep(z, i + 1);
    }
    SegmentIs(z, false, x, i);
  }

  /** The repeat of a first pass belongs to the segment after it. */
  lemma SecondPass(z: Zone, t: int, i: int)
    requires IsZone(z) && WellSeparated(z) && 0 <= i < |z.transitions| && InFirstPass(z, t, i)
    ensures Segment(z, true, t + Decrease(z, i)) == i
  {
    if i + 1 < |z.transitions| {
      assert ApartFromPrevious(z, i + 1);
    }
    SegmentIs(z, true, t + Decrease(z, i), i);
  }

  /**
   For every zone whose repeated stretches do not meet, and every time t: converting to local time and
   back gives t exactly when t is not in a first pass, or the clocks go back by the hour that ends summer time.
   */
  lemma RoundTripExactly(z: Zone, libc: Libc, t: int)
    requires IsZone(z) && WellSeparated(z) && Inverse(libc)
    ensures var i := Segment(z, true, t);
            UtcSeconds(z, libc, LocalTime(z, libc, t)) == t <==>
            (i + 1 < |z.transitions| && InFirstPass(z, t, i + 1) ==> EndsSummerTime(z, i + 1))
  {
    hide IsZone, WellSeparated, Ascending, TypeOf, Segment;
    var i := Segment(z, true, t);
    BothSearchesApply(z);
    assert libc.timegm(LocalTime(z, libc, t).fields) == t + TypeOf(z, i).gmtOffset;
    if i + 1 < |z.transitions| && InFirstPass(z, t, i + 1) {
      FirstPassLookup(z, t, i + 1);
      SecondPass(z, t, i + 1);
    } else {
      LocalLookup(z, t, i);
    }
  }

  /** Whatever the zone, the local fields less the offset that is given with them are the time. */
  lemma OffsetIsGiven(z: Zone, libc: Libc, t: int)
    requires IsZone(z) && Inverse(libc)
    ensures var tm := LocalTime(z, libc, t);
            libc.timegm(tm.fields) - tm.gmtOffset == t
  {
    hide Segment, TypeOf;
  }

  /** Offset and summer-time flag are those of the transition that came last, or of the first type before them all. */
  lemma TypeInForce(z: Zone, libc: Libc, t: int, i: int)
    requires IsZone(z) && Ascending(z, true) && -1 <= i < |z.transitions|
    requires i >= 0 ==> z.transitions[i].gmttime <= t
    requires i + 1 < |z.transitions| ==> t < z.transitions[i + 1].gmttime
    ensures var tm := LocalTime(z, libc, t);
            var local := if i == -1 then z.localtimes[0] else z.localtimes[z.transitions[i].localtimeIdx];
            tm.gmtOffset == local.gmtOffset && tm.isDst == local.isDst
  {
    SegmentIs(z, true, t, i);
  }

  /** Unless skipped, a local time is taken an hour earlier exactly when it claims summer time in standard time. */
  lemma UnskippedExactly(z: Zone, libc: Libc, local: LocalTm)
    requires IsZone(z) && Ascending(z, true)
    requires libc.gmtime(libc.timegm(local.fields)) == local.fields
    requires var x := libc.timegm(local.fields);
             var i := Segment(z, false, x);
             i + 1 < |z.transitions| ==> x - TypeOf(z, i).gmtOffset < z.transitions[i + 1].gmttime
    ensures var x := libc.timegm(local.fields);
            var found := TypeOf(z, Segment(z, false, x));
            UtcSeconds(z, libc, local) ==
            x - found.gmtOffset - if local.isDst && !found.isDst then 3600 else 0
  {
    var x := libc.timegm(local.fields);
    var i := Segment(z, false, x);
    SegmentIs(z, true, x - TypeOf(z, i).gmtOffset, i);
  }

  /** The hour and minute of gmtime_r. */
  ghost predicate ShowsClock(libc: Libc) {
    forall s: int :: libc.gmtime(s).hour == s / 3600 % 24 && libc.gmtime(s).min == s / 60 % 60
  }

  /** A local time that transition i skips, by a minute or more and less than a day, is never adjusted. */
  lemma SkippedExactly(z: Zone, libc: Libc, local: LocalTm, i: int)
    requires IsZone(z) && Ascending(z, true) && Inverse(libc) && ShowsClock(libc) && 0 <= i < |z.transitions|
    requires libc.gmtime(libc.timegm(local.fields)) == local.fields
    requires 60 <= -Decrease(z, i) <= 86340
    requires var x := libc.timegm(local.fields);
             Segment(z, false, x) == i - 1 && Segment(z, true, x - TypeOf(z, i - 1).gmtOffset) == i
    ensures UtcSeconds(z, libc, local) == libc.timegm(local.fields) - TypeOf(z, i - 1).gmtOffset
  {
    hide IsZone, Ascending, Segment, TypeOf, Inverse;
    var x := libc.timegm(local.fields);
    ClockMoves(x, -Decrease(z, i));
    assert LocalTime(z, libc, x - TypeOf(z, i - 1).gmtOffset).fields == libc.gmtime(x - Decrease(z, i));
  }

  lemma ClockMoves(x: int, forward: int)
    requires 60 <= forward <= 86340
    ensures (x + forward) / 3600 % 24 != x / 3600 % 24 || (x + forward) / 60 % 60 != x / 60 % 60
  {
    var m, n := x / 60, (x + forward) / 60;
    assert m < n < m + 1440;
    assert x / 3600 == m / 60 && (x + forward) / 3600 == n / 60;
    if n % 60 == m % 60 {
      assert n / 60 - m / 60 == (n - m) / 60;
      assert 0 < n / 60 - m / 60 < 24;
    }
  }

  /** A zone converts back every time exactly when every step back ends summer time by one hour. */
  lemma RoundTripForZone(z: Zone, libc: Libc)
    requires IsZone(z) && WellSeparated(z) && Inverse(libc)
    ensures (forall t: int :: UtcSeconds(z, libc, LocalTime(z, libc, t)) == t)
       <==> (forall i :: 0 <= i < |z.transitions| && Decrease(z, i) > 0 ==> EndsSummerTime(z, i))
  {
    forall t: int
      ensures UtcSeconds(z, libc, LocalTime(z, libc, t)) == t
         <==> var i := Segment(z, true, t);
              (i + 1 < |z.transitions| && InFirstPass(z, t, i + 1) ==> EndsSummerTime(z, i + 1))
    {
      RoundTripExactly(z, libc, t);
    }
    forall i | 0 <= i < |z.transitions| && Decrease(z, i) > 0
      ensures InFirstPass(z, z.transitions[i].gmttime - 1, i)
    {
      SegmentIs(z, true, z.transitions[i].gmttime - 1, i - 1);
    }
    if forall t: int :: UtcSeconds(z, libc, LocalTime(z, libc, t)) == t {
      forall i | 0 <= i < |z.transitions| && Decrease(z, i) > 0
        ensures EndsSummerTime(z, i)
      {
        var t := z.transitions[i].gmttime - 1;
        assert InFirstPass(z, t, i);
        assert UtcSeconds(z, libc, LocalTime(z, libc, t)) == t;
      }
    }
  }

  /** Summer time of half an hour, as on Lord Howe Island, that ends at the given second. */
  function HalfHourZone(end: int): Zone {
    Zone([Transition(end, end + 37800, 1)], [Localtime(39600, true), Localtime(37800, false)])
  }

  /** In such a zone the last second of summer time comes back half an hour early. */
  lemma HalfHourIsNotExact(libc: Libc, end: int)
    requires Inverse(libc)
    ensures var z := HalfHourZone(end);
            IsZone(z) && WellSeparated(z) && UtcSeconds(z, libc, LocalTime(z, libc, end - 1)) == end - 1 - 1800
  {
    var z := HalfHourZone(end);
    assert Segment(z, true, end - 1) == -1;
    assert Segment(z, false, end - 1 + 39600) == 0 && Segment(z, true, end + 1799) == 0;
  }

  /** The usual zones: transitions over two hours apart, and the clocks only go back to end summer time. */
  lemma SummerTimeRoundTrip(z: Zone, libc: Libc, t: int)
    requires IsZone(z) && Inverse(libc)
    requires forall i :: 1 <= i < |z.transitions| ==> Gap(z, i) > 7200
    requires forall i :: 0 <= i < |z.transitions| && Decrease(z, i) > 0 ==> EndsSummerTime(z, i)
    ensures UtcSeconds(z, libc, LocalTime(z, libc, t)) == t
  {
    forall i, j | 0 <= i < j < |z.transitions|
      ensures Key(z.transitions[i], true) < Key(z.transitions[j], true)
    {
      GapsAdd(z, i, j);
    }
    RoundTripExactly(z, libc, t);
  }

  lemma {:induction false} GapsAdd(z: Zone, i: int, j: int)
    requires 0 <= i < j < |z.transitions|
    requires forall i :: 1 <= i < |z.transitions| ==> Gap(z, i) > 7200
    ensures z.transitions[i].gmttime < z.transitions[j].gmttime
    decreases j
  {
    assert Gap(z, j) > 7200;
    if i < j - 1 {
      GapsAdd(z, i, j - 1);
    }
  }
}
