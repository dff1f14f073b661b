/** Ordering, sweeping, filtering and picking entries of the snipe queue:
    `OrderBy(Priority).ThenBy(distance)`, the expiry sweep, `ApplyFilter` and
    the choice made by GetNextSnipeablePokemon. */
module Selection {
  import opened SnipeTypes
  import opened Seqs

  /** `a` sorts strictly before `b` under OrderBy(priority).ThenBy(distance). */
  predicate Precedes(a: Entry, b: Entry)
  {
    a.Priority() < b.Priority() || (a.Priority() == b.Priority() && a.distance < b.distance)
  }

  predicate Sorted(s: seq<Entry>)
  {
    forall i, j :: 0 <= i < j < |s| ==> !Precedes(s[j], s[i])
  }

  /** Places `x` before the first element that does not sort strictly before
      it, so that `x` stays ahead of its equals (OrderBy is stable). */
  function Insert(x: Entry, s: seq<Entry>): (r: seq<Entry>)
    requires Sorted(s)
    ensures Sorted(r)
    ensures multiset(r) == multiset(s) + multiset{x}
    decreases |s|
  {
    if s == [] || !Precedes(s[0], x) then [x] + s
    else
      var rest := Insert(x, s[1..]);
      assert s == [s[0]] + s[1..];
      forall y | y in rest
        ensures !Precedes(y, s[0])
      {
        assert y in multiset(rest);
        assert y in multiset(s[1..]) || y == x;
        if y != x {
          assert y in s[1..];
        }
      }
      [s[0]] + rest
  }

  /** The queue re-sorted by (priority ascending, distance ascending). */
  function SortQueue(s: seq<Entry>): (r: seq<Entry>)
    ensures Sorted(r)
    ensures multiset(r) == multiset(s)
    ensures |r| == |s|
    decreases |s|
  {
    if s == [] then []
    else
      assert s == [s[0]] + s[1..];
      var r := Insert(s[0], SortQueue(s[1..]));
      assert |r| == |multiset(r)|;
      r
  }

  /** `RemoveAll(p => p.expired < DateTime.Now)`. */
  function Sweep(s: seq<Entry>, now: int): (r: seq<Entry>)
    ensures forall e :: e in r <==> e in s && e.Expiry() >= now
    ensures multiset(r) <= multiset(s)
  {
    Filter(s, (e: Entry) => !(e.Expiry() < now))
  }

  /** The sweep keeps every copy of a surviving entry. */
  lemma SweepCounts(s: seq<Entry>, now: int, e: Entry)
    ensures multiset(Sweep(s, now))[e] == if e.Expiry() >= now then multiset(s)[e] else 0
  {
    FilterCounts(s, (x: Entry) => !(x.Expiry() < now), e);
  }

  /** The sweep keeps the survivors in their order. */
  lemma SweepAppend(s: seq<Entry>, t: seq<Entry>, now: int)
    ensures Sweep(s + t, now) == Sweep(s, now) + Sweep(t, now)
  {
    FilterAppend(s, t, (e: Entry) => !(e.Expiry() < now));
  }

  /** ApplyFilter as written: entries that are neither visited nor fake and
      whose expiry is already BEFORE now. */
  function ApplyFilter(s: seq<Entry>, now: int): (r: seq<Entry>)
    ensures forall e :: e in r <==> e in s && e.Live() && e.Expiry() < now
  {
    Filter(s, (e: Entry) => e.Live() && e.Expiry() < now)
  }

  /** The view keeps every copy of an entry it keeps. */
  lemma ApplyFilterCounts(s: seq<Entry>, now: int, e: Entry)
    ensures multiset(ApplyFilter(s, now))[e] == if e.Live() && e.Expiry() < now then multiset(s)[e] else 0
  {
    FilterCounts(s, (x: Entry) => x.Live() && x.Expiry() < now, e);
  }

  /** The view keeps queue order: it distributes over concatenation. */
  lemma ApplyFilterAppend(s: seq<Entry>, t: seq<Entry>, now: int)
    ensures ApplyFilter(s + t, now) == ApplyFilter(s, now) + ApplyFilter(t, now)
  {
    FilterAppend(s, t, (e: Entry) => e.Live() && e.Expiry() < now);
  }

  /** Because ApplyFilter keeps only entries that have already expired, the
      view it gives of a queue swept at the same instant is always empty. */
  lemma ApplyFilterAfterSweepIsEmpty(s: seq<Entry>, now: int)
    ensures ApplyFilter(Sweep(s, now), now) == []
  {
    var swept := Sweep(s, now);
    assert forall i :: 0 <= i < |swept| ==> swept[i] in swept;
    FilterKeepsNothing(swept, (e: Entry) => e.Live() && e.Expiry() < now);
  }

  /** The candidate test of GetNextSnipeablePokemon. C#'s `&&` binds tighter
      than `||`, so priority 0 bypasses the distance, walk-time AND expiry
      tests; the bounds are strict. */
  predicate Qualifies(e: Entry, now: int)
  {
    && e.Live()
    && (|| e.Priority() == 0
        || (&& e.distance < e.policy.maxDistance
            && e.estimateTime < e.policy.maxWalkTimes
            && e.Expiry() as real > now as real + e.estimateTime))
  }

  /** The index of `Where(Qualifies).OrderBy(priority).ThenBy(distance).First()`:
      a qualifying entry no qualifying entry sorts strictly before, and the
      earliest such one in list order (the sort is stable). None iff nothing
      qualifies. */
  function SelectNext(s: seq<Entry>, now: int): (r: Option<nat>)
    ensures r.None? <==> forall i :: 0 <= i < |s| ==> !Qualifies(s[i], now)
    ensures r.Some? ==> r.value < |s| && Qualifies(s[r.value], now)
    ensures r.Some? ==> forall j :: 0 <= j < |s| && Qualifies(s[j], now) ==> !Precedes(s[j], s[r.value])
    ensures r.Some? ==> forall j :: 0 <= j < r.value && Qualifies(s[j], now) ==> Precedes(s[r.value], s[j])
    decreases |s|
  {
    if s == [] then None
    else
      var last := |s| - 1;
      var best := SelectNext(s[..last], now);
      assert forall j :: 0 <= j < last ==> s[..last][j] == s[j];
      if !Qualifies(s[last], now) then best
      else if best.None? || Precedes(s[last], s[best.value]) then Some(last)
      else best
  }

  /** A live entry forced to priority 0 always qualifies, so selection then
      returns an entry of priority 0 or less, whatever its distance, walk
      time or remaining lifetime. */
  lemma ForcedEntryIsSelectable(s: seq<Entry>, now: int, i: nat)
    requires i < |s| && s[i].Live() && s[i].Priority() == 0
    ensures SelectNext(s, now).Some?
    ensures s[SelectNext(s, now).value].Priority() <= 0
  {
  }
}
