/** PostProcessDataFetched as values: how one fetched batch is folded into
    the snipe queue (dedupe, watch-list test, policy attachment), and the
    watch list InitSession builds. */
module Merge {
  import opened SnipeTypes
  import opened Seqs
  import opened Feasibility
  import opened Selection

  /** Priority of the policy synthesised from the global settings. */
  const DefaultPriority: int := 3

  /** Two sightings of one species closer than this (metres) are one. */
  const DedupeRadius: real := 10.0

  predicate HasFilter(filters: seq<(int, Policy)>, id: int)
  {
    exists k :: 0 <= k < |filters| && filters[k].0 == id
  }

  /** The filter keys that `base` does not hold yet, in configuration order. */
  function NewFilterKeys(filters: seq<(int, Policy)>, base: seq<int>): (r: seq<int>)
    ensures forall id :: id in r <==> id !in base && HasFilter(filters, id)
    decreases |filters|
  {
    if filters == [] then []
    else
      var rest := NewFilterKeys(filters[1..], base);
      assert forall id :: HasFilter(filters, id) <==> filters[0].0 == id || HasFilter(filters[1..], id) by {
        forall id | HasFilter(filters, id) && filters[0].0 != id
          ensures HasFilter(filters[1..], id)
        {
          var k :| 0 <= k < |filters| && filters[k].0 == id;
          assert filters[1..][k - 1] == filters[k];
        }
        forall id | HasFilter(filters[1..], id)
          ensures HasFilter(filters, id)
        {
          var k :| 0 <= k < |filters[1..]| && filters[1..][k].0 == id;
          assert filters[k + 1] == filters[1..][k];
        }
      }
      (if filters[0].0 in base then [] else [filters[0].0]) + rest
  }

  /** pokemonToBeSnipedIds as InitSession builds it: the snipe list (when the
      settings say to use it) followed by every filtered species not in it. */
  function WatchList(st: Settings): (w: seq<int>)
    ensures forall id :: id in w <==> (st.useSnipePokemonList && id in st.pokemonToSnipe) || HasFilter(st.filters, id)
  {
    var base := if st.useSnipePokemonList then st.pokemonToSnipe else [];
    base + NewFilterKeys(st.filters, base)
  }

  /** The policy built from the global settings when a species has no
      filter of its own. */
  function DefaultPolicy(st: Settings): Policy
  {
    Policy(st.maxDistance, st.maxEstimateTime, DefaultPriority, st.tryCatchEmAll,
           st.spinWhileWalking, st.allowSpeedUp, st.maxSpeedUpSpeed, st.delayTimeAtDestination)
  }

  /** The policy a newly merged sighting of species `id` gets (a copy, so
      later edits of the entry never reach the settings): the first filter
      configured for the species, else the default with priority 3. */
  function PolicyFor(st: Settings, id: int): (p: Policy)
    ensures !HasFilter(st.filters, id) ==> p == DefaultPolicy(st) && p.priority == DefaultPriority
    ensures HasFilter(st.filters, id) ==>
      exists k :: 0 <= k < |st.filters| && st.filters[k] == (id, p)
                  && forall j :: 0 <= j < k ==> st.filters[j].0 != id
  {
    match FirstIndex(st.filters, (f: (int, Policy)) => f.0 == id)
    case None => DefaultPolicy(st)
    case Some(k) => st.filters[k].1
  }

  /** Settings under which every walk speed the task can use is positive. */
  predicate SettingsOk(st: Settings)
  {
    && st.walkingSpeed > 0.0
    && SpeedOk(DefaultPolicy(st), st.walkingSpeed)
    && forall k :: 0 <= k < |st.filters| ==> SpeedOk(st.filters[k].1, st.walkingSpeed)
  }

  /** Where a merge happens: the settings, the distance function and the
      player's position. */
  datatype Scan = Scan(settings: Settings, dist: Distance, latitude: real, longitude: real)
  {
    predicate Ok() { SettingsOk(settings) }
  }

  /** The dedupe test of PostProcessDataFetched: `x` already stands for
      `item` when it has the same uniqueId, or is of the same species less
      than 10 m away. Visited and fake entries count too. */
  predicate Duplicates(x: Entry, item: Sighting, dist: Distance)
  {
    || x.Id() == item.Id()
    || (dist(x.latitude, x.longitude, item.latitude, item.longitude) < DedupeRadius
        && item.pokemonId == x.pokemonId)
  }

  predicate Known(s: seq<Entry>, item: Sighting, dist: Distance)
  {
    exists x :: x in s && Duplicates(x, item, dist)
  }

  /** The queue entry a sighting becomes: not visited, not fake, its
      species' policy, distance and estimate for the player's position. */
  function Admit(item: Sighting, sc: Scan): (e: Entry)
    requires sc.Ok()
    ensures e.Id() == item.Id() && e.created == item.created
    ensures e.Live() && e.policy == PolicyFor(sc.settings, item.pokemonId)
    ensures SpeedOk(e.policy, sc.settings.walkingSpeed)
    ensures Duplicates(e, item, sc.dist)
    ensures e.distance == sc.dist(sc.latitude, sc.longitude, item.latitude, item.longitude)
    ensures e.estimateTime == EstimateTime(e.distance, e.policy, sc.settings.walkingSpeed)
  {
    var p := PolicyFor(sc.settings, item.pokemonId);
    assert HasFilter(sc.settings.filters, item.pokemonId) ==> SpeedOk(p, sc.settings.walkingSpeed);
    Evaluate(Entry(item.pokemonId, item.latitude, item.longitude, item.created, 0.0, 0.0, false, false, p),
             sc.latitude, sc.longitude, sc.settings.walkingSpeed, sc.dist)
  }

  /** One iteration of the merge loop. */
  function Step(s: seq<Entry>, item: Sighting, sc: Scan): seq<Entry>
    requires sc.Ok()
  {
    if Known(s, item, sc.dist) || item.pokemonId !in WatchList(sc.settings) then s
    else s + [Admit(item, sc)]
  }

  /** The sighting an entry was admitted from. */
  function SightingOf(e: Entry): Sighting
  {
    Sighting(e.pokemonId, e.latitude, e.longitude, e.created)
  }

  /** The whole loop: the batch folded into the queue in order. Entries
      added earlier in the batch take part in the dedupe of later ones,
      because the source adds them to the list in place. The old queue is a
      prefix of the result. */
  function Merged(s: seq<Entry>, batch: seq<Sighting>, sc: Scan): (r: seq<Entry>)
    requires sc.Ok()
    ensures |s| <= |r| && r[..|s|] == s
    decreases |batch|
  {
    if batch == [] then s
    else Step(Merged(s, batch[..|batch| - 1], sc), batch[|batch| - 1], sc)
  }

  /** Every entry a merge adds is live, of a watched species, carries its
      species' policy and duplicates nothing before it in the queue. */
  lemma {:induction false} MergedAdditions(s: seq<Entry>, batch: seq<Sighting>, sc: Scan)
    requires sc.Ok()
    ensures forall i :: |s| <= i < |Merged(s, batch, sc)| ==>
      var r := Merged(s, batch, sc);
      && r[i].Live()
      && r[i].pokemonId in WatchList(sc.settings)
      && r[i].policy == PolicyFor(sc.settings, r[i].pokemonId)
      && !Known(r[..i], SightingOf(r[i]), sc.dist)
    decreases |batch|
  {
    if batch != [] {
      var front := batch[..|batch| - 1];
      MergedAdditions(s, front, sc);
      var prev := Merged(s, front, sc);
      var item := batch[|batch| - 1];
      var r := Merged(s, batch, sc);
      assert r == Step(prev, item, sc);
      forall i | |s| <= i < |r|
        ensures r[i].Live() && r[i].pokemonId in WatchList(sc.settings)
        ensures r[i].policy == PolicyFor(sc.settings, r[i].pokemonId)
        ensures !Known(r[..i], SightingOf(r[i]), sc.dist)
      {
        if i < |prev| {
          assert r[..i] == prev[..i] && r[i] == prev[i];
        } else {
          assert r[..i] == prev && SightingOf(r[i]) == item;
        }
      }
    }
  }

  /** Merging a prefix of the batch gives a prefix of the merged queue. */
  lemma {:induction false} MergedPrefix(s: seq<Entry>, batch: seq<Sighting>, j: nat, sc: Scan)
    requires sc.Ok()
    requires j <= |batch|
    ensures |Merged(s, batch[..j], sc)| <= |Merged(s, batch, sc)|
    ensures Merged(s, batch, sc)[..|Merged(s, batch[..j], sc)|] == Merged(s, batch[..j], sc)
    decreases |batch|
  {
    if j < |batch| {
      var front := batch[..|batch| - 1];
      assert front[..j] == batch[..j];
      MergedPrefix(s, front, j, sc);
      var prev := Merged(s, front, sc);
      var r := Merged(s, batch, sc);
      assert r == Step(prev, batch[|batch| - 1], sc);
      assert r[..|prev|] == prev;
      var m := Merged(s, batch[..j], sc);
      assert r[..|m|] == prev[..|m|];
    } else {
      assert batch[..j] == batch;
    }
  }

  /** The batch is taken in order: a watched sighting that nothing merged
      before it duplicates is admitted, and lands right after what the
      sightings before it produced. */
  lemma MergedAdmitsInOrder(s: seq<Entry>, batch: seq<Sighting>, k: nat, sc: Scan)
    requires sc.Ok()
    requires k < |batch|
    requires batch[k].pokemonId in WatchList(sc.settings)
    requires !Known(Merged(s, batch[..k], sc), batch[k], sc.dist)
    ensures |Merged(s, batch[..k], sc)| < |Merged(s, batch, sc)|
    ensures Merged(s, batch, sc)[|Merged(s, batch[..k], sc)|] == Admit(batch[k], sc)
  {
    MergedSnoc(s, batch, k, sc);
    MergedPrefix(s, batch, k + 1, sc);
    var m := Merged(s, batch[..k], sc);
    var m1 := Merged(s, batch[..k + 1], sc);
    assert m1 == m + [Admit(batch[k], sc)];
    assert Merged(s, batch, sc)[|m|] == m1[|m|];
  }

  /** The first of two near-duplicate sightings wins: once `batch[j]` was
      admitted, a later sighting it duplicates is skipped. */
  lemma MergedFirstWins(s: seq<Entry>, batch: seq<Sighting>, j: nat, k: nat, sc: Scan)
    requires sc.Ok()
    requires j < k < |batch|
    requires batch[j].pokemonId in WatchList(sc.settings)
    requires !Known(Merged(s, batch[..j], sc), batch[j], sc.dist)
    requires Duplicates(Admit(batch[j], sc), batch[k], sc.dist)
    ensures Merged(s, batch[..k + 1], sc) == Merged(s, batch[..k], sc)
  {
    var front := batch[..k];
    assert front[..j] == batch[..j] && front[j] == batch[j];
    MergedAdmitsInOrder(s, front, j, sc);
    var m := Merged(s, front, sc);
    assert m[|Merged(s, batch[..j], sc)|] in m;
    MergedSnoc(s, batch, k, sc);
  }

  /** Merging one more sighting of the batch is one more loop step. */
  lemma MergedSnoc(s: seq<Entry>, batch: seq<Sighting>, k: nat, sc: Scan)
    requires sc.Ok()
    requires k < |batch|
    ensures Merged(s, batch[..k + 1], sc) == Step(Merged(s, batch[..k], sc), batch[k], sc)
  {
    assert batch[..k + 1][..k] == batch[..k];
  }

  /** Every entry a merge adds can be walked to: its speed is positive. */
  lemma {:induction false} MergedKeepsSpeedOk(s: seq<Entry>, batch: seq<Sighting>, sc: Scan)
    requires sc.Ok()
    requires AllSpeedOk(s, sc.settings.walkingSpeed)
    ensures AllSpeedOk(Merged(s, batch, sc), sc.settings.walkingSpeed)
    decreases |batch|
  {
    if batch != [] {
      var front := batch[..|batch| - 1];
      MergedKeepsSpeedOk(s, front, sc);
      var prev := Merged(s, front, sc);
      var item := batch[|batch| - 1];
      assert Merged(s, batch, sc) == Step(prev, item, sc);
      if !(Known(prev, item, sc.dist) || item.pokemonId !in WatchList(sc.settings)) {
        var e := Admit(item, sc);
        assert forall k :: 0 <= k < |prev| ==> (prev + [e])[k] == prev[k];
      }
    }
  }

  /** A merge adds at most one entry per fetched sighting, and each added
      entry is one of the batch's sightings. */
  lemma {:induction false} MergedComesFromBatch(s: seq<Entry>, batch: seq<Sighting>, sc: Scan)
    requires sc.Ok()
    ensures |Merged(s, batch, sc)| <= |s| + |batch|
    ensures forall i :: |s| <= i < |Merged(s, batch, sc)| ==> SightingOf(Merged(s, batch, sc)[i]) in batch
    decreases |batch|
  {
    if batch != [] {
      var front := batch[..|batch| - 1];
      MergedComesFromBatch(s, front, sc);
      var prev := Merged(s, front, sc);
      var r := Merged(s, batch, sc);
      assert r == Step(prev, batch[|batch| - 1], sc);
      assert r[..|prev|] == prev;
      forall i | |s| <= i < |r|
        ensures SightingOf(r[i]) in batch
      {
        if i < |prev| {
          assert r[i] == prev[i];
          assert SightingOf(prev[i]) in front;
        }
      }
    }
  }

  /** Being known survives growing the queue. */
  lemma KnownInExtension(s: seq<Entry>, t: seq<Entry>, item: Sighting, dist: Distance)
    requires |s| <= |t| && t[..|s|] == s
    requires Known(s, item, dist)
    ensures Known(t, item, dist)
  {
  }

  /** After a merge, every watched sighting of the batch is known to the
      queue, whether it was added or skipped. */
  lemma {:induction false} MergedCoversBatch(s: seq<Entry>, batch: seq<Sighting>, sc: Scan)
    requires sc.Ok()
    ensures forall k :: 0 <= k < |batch| && batch[k].pokemonId in WatchList(sc.settings) ==>
      Known(Merged(s, batch, sc), batch[k], sc.dist)
    decreases |batch|
  {
    if batch != [] {
      var front := batch[..|batch| - 1];
      MergedCoversBatch(s, front, sc);
      var prev := Merged(s, front, sc);
      var r := Merged(s, batch, sc);
      var item := batch[|batch| - 1];
      assert r == Step(prev, item, sc);
      forall k | 0 <= k < |batch| && batch[k].pokemonId in WatchList(sc.settings)
        ensures Known(r, batch[k], sc.dist)
      {
        if k < |batch| - 1 {
          assert batch[k] == front[k];
          KnownInExtension(prev, r, batch[k], sc.dist);
        } else if !Known(prev, item, sc.dist) {
          assert r[|prev|] in r;
        }
      }
    }
  }

  /** A batch whose watched sightings are all known adds nothing. */
  lemma {:induction false} MergeOfKnownBatch(t: seq<Entry>, batch: seq<Sighting>, sc: Scan)
    requires sc.Ok()
    requires forall k :: 0 <= k < |batch| && batch[k].pokemonId in WatchList(sc.settings) ==> Known(t, batch[k], sc.dist)
    ensures Merged(t, batch, sc) == t
    decreases |batch|
  {
    if batch != [] {
      var front := batch[..|batch| - 1];
      assert forall k :: 0 <= k < |front| ==> front[k] == batch[k];
      MergeOfKnownBatch(t, front, sc);
    }
  }

  /** Dedupe looks at values, not positions, so reordering the queue does
      not change what it knows. */
  lemma KnownUnderPermutation(s: seq<Entry>, t: seq<Entry>, item: Sighting, dist: Distance)
    requires multiset(s) == multiset(t)
    requires Known(s, item, dist)
    ensures Known(t, item, dist)
  {
    var x :| x in s && Duplicates(x, item, dist);
    assert x in multiset(s);
    assert x in multiset(t);
  }

  /** Idempotent merge: after a batch has been merged and the queue
      re-sorted, merging the same batch again adds nothing. */
  lemma MergeTwiceAddsNothing(s: seq<Entry>, batch: seq<Sighting>, sc: Scan)
    requires sc.Ok()
    ensures Merged(SortQueue(Merged(s, batch, sc)), batch, sc) == SortQueue(Merged(s, batch, sc))
  {
    var once := Merged(s, batch, sc);
    var sorted := SortQueue(once);
    MergedCoversBatch(s, batch, sc);
    forall k | 0 <= k < |batch| && batch[k].pokemonId in WatchList(sc.settings)
      ensures Known(sorted, batch[k], sc.dist)
    {
      KnownUnderPermutation(once, sorted, batch[k], sc.dist);
    }
    MergeOfKnownBatch(sorted, batch, sc);
  }
}
