/**
 * Live match records and the two pure steps that run on them before any
 * reply is formatted: the series-type filter and the most-watched selection.
 */
module Matches {

  datatype Option<+T> = None | Some(value: T)

  /** One live-game record as the statistics provider returns it. The
      `series_type` key may be missing from a record; the spectator count and
      both team names are taken to be present. */
  datatype Match = Match(seriesType: Option<int>, spectators: int, radiant: string, dire: string)

  /** The record's series type, read with 0 as the default for a missing key. */
  function SeriesType(m: Match): (t: int)
    ensures m.seriesType.Some? ==> t == m.seriesType.value
    ensures m.seriesType.None? ==> t == 0
  {
    match m.seriesType
    case Some(t) => t
    case None => 0
  }

  /** A record that belongs to a tracked series. */
  predicate Qualifies(m: Match)
    ensures Qualifies(m) <==> m.seriesType.Some? && m.seriesType.value > 0
  {
    SeriesType(m) > 0
  }

  /** The list with only the qualifying records, in their original order. */
  function Filter(ms: seq<Match>): (r: seq<Match>)
    ensures |r| <= |ms|
    ensures forall m :: m in r <==> m in ms && Qualifies(m)
  {
    if ms == [] then []
    else if Qualifies(ms[0]) then [ms[0]] + Filter(ms[1..])
    else Filter(ms[1..])
  }

  /** The positions of the qualifying records, in increasing order: an
      independent description of what the filter keeps. */
  function KeptIndices(ms: seq<Match>): (ks: seq<nat>)
    ensures forall i :: 0 <= i < |ks| ==> ks[i] < |ms| && Qualifies(ms[ks[i]])
    ensures forall i, j :: 0 <= i < j < |ks| ==> ks[i] < ks[j]
    ensures forall j :: 0 <= j < |ms| && Qualifies(ms[j]) ==> j in ks
  {
    if ms == [] then []
    else
      var n := |ms| - 1;
      KeptIndices(ms[..n]) + (if Qualifies(ms[n]) then [n] else [])
  }

  /** Filtering distributes over concatenation. */
  lemma {:induction false} FilterAppend(a: seq<Match>, b: seq<Match>)
    ensures Filter(a + b) == Filter(a) + Filter(b)
  {
    if a == [] {
      assert a + b == b;
    } else {
      assert (a + b)[1..] == a[1..] + b;
      FilterAppend(a[1..], b);
    }
  }

  /** The filter yields exactly the records at the qualifying positions, in
      the order of those positions: nothing is added, nothing is changed and
      the relative order is kept. */
  lemma {:induction false} FilterSelectsKeptIndices(ms: seq<Match>)
    ensures |Filter(ms)| == |KeptIndices(ms)|
    ensures forall i :: 0 <= i < |Filter(ms)| ==> Filter(ms)[i] == ms[KeptIndices(ms)[i]]
  {
    if ms != [] {
      var n := |ms| - 1;
      var p := ms[..n];
      assert ms == p + [ms[n]];
      FilterAppend(p, [ms[n]]);
      FilterSelectsKeptIndices(p);
      assert [ms[n]][1..] == [];
    }
  }

  /** Every qualifying record is kept as often as it occurs; every other
      record is dropped. */
  lemma {:induction false} FilterMultiplicity(ms: seq<Match>, m: Match)
    ensures multiset(Filter(ms))[m] == if Qualifies(m) then multiset(ms)[m] else 0
  {
    if ms != [] {
      assert ms == [ms[0]] + ms[1..];
      FilterMultiplicity(ms[1..], m);
    }
  }

  /** A record without a `series_type` key is never kept. */
  lemma MissingSeriesTypeDropped(ms: seq<Match>, m: Match)
    requires m.seriesType == None
    ensures m !in Filter(ms)
  {
  }

  /** A list whose records all qualify passes through unchanged. */
  lemma {:induction false} FilterKeepsQualifying(ms: seq<Match>)
    requires forall m :: m in ms ==> Qualifies(m)
    ensures Filter(ms) == ms
  {
    if ms != [] {
      assert ms[0] in ms;
      FilterKeepsQualifying(ms[1..]);
    }
  }

  /** Filtering twice is filtering once. */
  lemma FilterIdempotent(ms: seq<Match>)
    ensures Filter(Filter(ms)) == Filter(ms)
  {
    FilterKeepsQualifying(Filter(ms));
  }

  /** The position Python's `max(ms, key=spectators)` picks: it walks the
      list and replaces its candidate only by a strictly larger count, so the
      first of several equal maxima wins. */
  function ArgMax(ms: seq<Match>): (k: nat)
    requires ms != []
    ensures k < |ms|
    ensures forall j :: 0 <= j < |ms| ==> ms[j].spectators <= ms[k].spectators
    ensures forall j :: 0 <= j < k ==> ms[j].spectators < ms[k].spectators
  {
    if |ms| == 1 then 0
    else
      var n := |ms| - 1;
      var best := ArgMax(ms[..n]);
      if ms[n].spectators > ms[best].spectators then n else best
  }

  /** The three properties of ArgMax single out one position. */
  lemma FirstMaximumUnique(ms: seq<Match>, k: nat)
    requires k < |ms|
    requires forall j :: 0 <= j < |ms| ==> ms[j].spectators <= ms[k].spectators
    requires forall j :: 0 <= j < k ==> ms[j].spectators < ms[k].spectators
    ensures ArgMax(ms) == k
  {
  }
}
