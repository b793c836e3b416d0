/**
 * Temporal profiles: a 7-bucket day histogram and a 24-bucket hour histogram
 * per user, updated by "smearing" an edit count over a set of hour offsets,
 * and the qualitative band attached to a similarity score between two
 * profiles.
 */
module Temporal {
  import opened Common

  const DAYS := 7
  const HOURS := 24

  datatype Profile = Profile(d: seq<int>, h: seq<int>)

  predicate WellShaped(p: Profile)
  {
    |p.d| == DAYS && |p.h| == HOURS
  }

  /** The profile a user gets before any edit is recorded: `[0] * 7` and `[0] * 24`. */
  function Zero(): (p: Profile)
    ensures WellShaped(p)
    ensures forall i :: 0 <= i < DAYS ==> p.d[i] == 0
    ensures forall i :: 0 <= i < HOURS ==> p.h[i] == 0
  {
    Profile(seq(DAYS, _ => 0), seq(HOURS, _ => 0))
  }

  /** Day bucket credited for one offset: the shifted hour rolls the day over (floor division). */
  function DayBucket(day: int, hour: int, offset: int): (b: int)
    ensures 0 <= b < DAYS
  {
    (day + (hour + offset) / HOURS) % DAYS
  }

  /** Hour bucket credited for one offset. */
  function HourBucket(hour: int, offset: int): (b: int)
    ensures 0 <= b < HOURS
  {
    (hour + offset) % HOURS
  }

  /** Credit `n` edits for a single offset. */
  function SmearOne(p: Profile, day: int, hour: int, n: int, offset: int): (r: Profile)
    requires WellShaped(p)
    ensures WellShaped(r)
  {
    var db := DayBucket(day, hour, offset);
    var hb := HourBucket(hour, offset);
    Profile(p.d[db := p.d[db] + n], p.h[hb := p.h[hb] + n])
  }

  /** Credit `n` edits once per offset, in the order of `offsets`. */
  function Smear(p: Profile, day: int, hour: int, n: int, offsets: seq<int>): (r: Profile)
    requires WellShaped(p)
    ensures WellShaped(r)
    decreases |offsets|
  {
    if offsets == [] then p
    else Smear(SmearOne(p, day, hour, n, offsets[0]), day, hour, n, offsets[1..])
  }

  /** How many of the offsets land in day bucket `b`. */
  function DayHits(offsets: seq<int>, day: int, hour: int, b: int): nat
  {
    if offsets == [] then 0
    else (if DayBucket(day, hour, offsets[0]) == b then 1 else 0) + DayHits(offsets[1..], day, hour, b)
  }

  /** How many of the offsets land in hour bucket `b`. */
  function HourHits(offsets: seq<int>, hour: int, b: int): nat
  {
    if offsets == [] then 0
    else (if HourBucket(hour, offsets[0]) == b then 1 else 0) + HourHits(offsets[1..], hour, b)
  }

  /** Day bucket `b` grows by `n` for every offset that lands in it. */
  lemma {:induction false} SmearDayBucket(p: Profile, day: int, hour: int, n: int, offsets: seq<int>, b: int)
    requires WellShaped(p) && 0 <= b < DAYS
    ensures Smear(p, day, hour, n, offsets).d[b] == p.d[b] + n * DayHits(offsets, day, hour, b)
    decreases |offsets|
  {
    if offsets != [] {
      var q := SmearOne(p, day, hour, n, offsets[0]);
      var rest := offsets[1..];
      SmearDayBucket(q, day, hour, n, rest, b);
      var x := if DayBucket(day, hour, offsets[0]) == b then 1 else 0;
      assert q.d[b] == p.d[b] + n * x;
      assert DayHits(offsets, day, hour, b) == x + DayHits(rest, day, hour, b);
      assert n * (x + DayHits(rest, day, hour, b)) == n * x + n * DayHits(rest, day, hour, b);
    }
  }

  /** Hour bucket `b` grows by `n` for every offset that lands in it. */
  lemma {:induction false} SmearHourBucket(p: Profile, day: int, hour: int, n: int, offsets: seq<int>, b: int)
    requires WellShaped(p) && 0 <= b < HOURS
    ensures Smear(p, day, hour, n, offsets).h[b] == p.h[b] + n * HourHits(offsets, hour, b)
    decreases |offsets|
  {
    if offsets != [] {
      var q := SmearOne(p, day, hour, n, offsets[0]);
      var rest := offsets[1..];
      SmearHourBucket(q, day, hour, n, rest, b);
      var x := if HourBucket(hour, offsets[0]) == b then 1 else 0;
      assert q.h[b] == p.h[b] + n * x;
      assert HourHits(offsets, hour, b) == x + HourHits(rest, hour, b);
      assert n * (x + HourHits(rest, hour, b)) == n * x + n * HourHits(rest, hour, b);
    }
  }

  /**
   * Exactly the buckets some offset maps to grow, each by `n` times the number
   * of offsets mapping to it; every other bucket is unchanged.
   */
  lemma SmearBuckets(p: Profile, day: int, hour: int, n: int, offsets: seq<int>)
    requires WellShaped(p)
    ensures forall b :: 0 <= b < DAYS ==>
      Smear(p, day, hour, n, offsets).d[b] == p.d[b] + n * DayHits(offsets, day, hour, b)
    ensures forall b :: 0 <= b < HOURS ==>
      Smear(p, day, hour, n, offsets).h[b] == p.h[b] + n * HourHits(offsets, hour, b)
  {
    forall b | 0 <= b < DAYS
      ensures Smear(p, day, hour, n, offsets).d[b] == p.d[b] + n * DayHits(offsets, day, hour, b)
    {
      SmearDayBucket(p, day, hour, n, offsets, b);
    }
    forall b | 0 <= b < HOURS
      ensures Smear(p, day, hour, n, offsets).h[b] == p.h[b] + n * HourHits(offsets, hour, b)
    {
      SmearHourBucket(p, day, hour, n, offsets, b);
    }
  }

  /** Day-side conservation of mass. */
  lemma {:induction false} SmearMassDay(p: Profile, day: int, hour: int, n: int, offsets: seq<int>)
    requires WellShaped(p)
    ensures Sum(Smear(p, day, hour, n, offsets).d) == Sum(p.d) + |offsets| * n
    decreases |offsets|
  {
    if offsets != [] {
      var q := SmearOne(p, day, hour, n, offsets[0]);
      var rest := offsets[1..];
      var db := DayBucket(day, hour, offsets[0]);
      assert q.d == p.d[db := p.d[db] + n];
      SumBump(p.d, db, n);
      SmearMassDay(q, day, hour, n, rest);
      assert Smear(p, day, hour, n, offsets) == Smear(q, day, hour, n, rest);
      assert |offsets| * n == n + |rest| * n;
    }
  }

  /** Hour-side conservation of mass. */
  lemma {:induction false} SmearMassHour(p: Profile, day: int, hour: int, n: int, offsets: seq<int>)
    requires WellShaped(p)
    ensures Sum(Smear(p, day, hour, n, offsets).h) == Sum(p.h) + |offsets| * n
    decreases |offsets|
  {
    if offsets != [] {
      var q := SmearOne(p, day, hour, n, offsets[0]);
      var rest := offsets[1..];
      var hb := HourBucket(hour, offsets[0]);
      assert q.h == p.h[hb := p.h[hb] + n];
      SumBump(p.h, hb, n);
      SmearMassHour(q, day, hour, n, rest);
      assert Smear(p, day, hour, n, offsets) == Smear(q, day, hour, n, rest);
      assert |offsets| * n == n + |rest| * n;
    }
  }

  /** Conservation of mass: each call adds `|offsets| * n` to the day total and to the hour total. */
  lemma SmearMass(p: Profile, day: int, hour: int, n: int, offsets: seq<int>)
    requires WellShaped(p)
    ensures Sum(Smear(p, day, hour, n, offsets).d) == Sum(p.d) + |offsets| * n
    ensures Sum(Smear(p, day, hour, n, offsets).h) == Sum(p.h) + |offsets| * n
  {
    SmearMassDay(p, day, hour, n, offsets);
    SmearMassHour(p, day, hour, n, offsets);
  }

  /**
   * With the offsets (-1, 0, 1), an edit at hour 0 also credits hour 23 of
   * the previous day; the day itself is credited twice.
   */
  lemma SmearAcrossMidnight(p: Profile, day: int, n: int)
    requires WellShaped(p)
    ensures var r := Smear(p, day, 0, n, [-1, 0, 1]);
      && r.d == p.d[(day - 1) % DAYS := p.d[(day - 1) % DAYS] + n][day % DAYS := p.d[day % DAYS] + 2 * n]
      && r.h == p.h[23 := p.h[23] + n][0 := p.h[0] + n][1 := p.h[1] + n]
  {
    assert (0 + -1) / HOURS == -1;
    assert (day + -1) % DAYS != day % DAYS;
    assert [-1, 0, 1][1..] == [0, 1];
    assert [0, 1][1..] == [1];
  }

  /** Qualitative levels attached to a cosine-similarity score. */
  datatype Level = Same | High | Medium | Low | NoOverlap

  /** The fixed threshold chain: exclusive thresholds except equality at 1. */
  function Band(cs: real): Level
  {
    if cs == 1.0 then Same
    else if cs > 0.8 then High
    else if cs > 0.5 then Medium
    else if cs > 0.0 then Low
    else NoOverlap
  }

  function Rank(l: Level): nat
  {
    match l
    case NoOverlap => 0
    case Low => 1
    case Medium => 2
    case High => 3
    case Same => 4
  }

  /** The label "Same" is given exactly for the score 1. */
  lemma BandSameIff(cs: real)
    ensures Band(cs) == Same <==> cs == 1.0
  {
  }

  /** For scores within the cosine range, a larger score never gets a lower label. */
  lemma BandMonotone(a: real, b: real)
    requires a <= b <= 1.0
    ensures Rank(Band(a)) <= Rank(Band(b))
  {
  }

  /** Each label covers exactly one interval of scores. */
  lemma BandIntervals(cs: real)
    ensures Band(cs) == High <==> 0.8 < cs && cs != 1.0
    ensures Band(cs) == Medium <==> 0.5 < cs <= 0.8
    ensures Band(cs) == Low <==> 0.0 < cs <= 0.5
    ensures Band(cs) == NoOverlap <==> cs <= 0.0
  {
  }

  /** A score above 1 (a rounding artefact) is labelled High, not Same. */
  lemma BandAboveOne(cs: real)
    requires cs > 1.0
    ensures Band(cs) == High
  {
  }

  /** The similarity record: the score and its label. */
  datatype Overlap = Overlap(cosSim: real, level: Level)

  function TemporalOverlap(cs: real): (r: Overlap)
    ensures r.cosSim == cs
    ensures r.level == Band(cs)
  {
    Overlap(cs, Band(cs))
  }

  /**
   * The record's label by score interval: Same exactly at 1, High above 0.8
   * (including above 1), Medium above 0.5, Low above 0, and NoOverlap for
   * every other score.
   */
  lemma TemporalOverlapLevels(cs: real)
    ensures var r := TemporalOverlap(cs);
      && (r.level == Same <==> cs == 1.0)
      && (r.level == High <==> 0.8 < cs && cs != 1.0)
      && (r.level == Medium <==> 0.5 < cs <= 0.8)
      && (r.level == Low <==> 0.0 < cs <= 0.5)
      && (r.level == NoOverlap <==> cs <= 0.0)
  {
    BandSameIff(cs);
    BandIntervals(cs);
  }
}
