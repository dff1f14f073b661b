/** HumanWalkSnipeTask: the process-wide snipe queue (`rarePokemons`), the
    call throttle, the fetch rate limit, the pursuit loop and the
    out-of-band commands, as one object whose fields are the task's static
    fields. */
module HumanWalkSnipe {
  import opened SnipeTypes
  import opened Seqs
  import opened Feasibility
  import opened Selection
  import opened Merge
  import opened Commands

  /** Minimum seconds between two fetch rounds that are not silent. */
  const RefreshIntervalSeconds: int := 30

  /** The fallback location is scanned too when it is farther than this. */
  const FallbackCoverageMetres: real := 1000.0

  /** Execute fully engages once in this many calls. */
  const ExecuteCycle: int := 3

  /** lastUpdated starts ten minutes in the past. */
  const InitialStalenessSeconds: int := 10 * 60

  /** What the five sources return for one location, in the order FetchData
      starts them. Each source already failed soft: an error is []. */
  datatype SourceResults = SourceResults(
    pokeradar: seq<Sighting>,
    skiplagged: seq<Sighting>,
    pokecrew: seq<Sighting>,
    pokesnipers: seq<Sighting>,
    pokeZZ: seq<Sighting>)
  {
    function All(): seq<Sighting> { pokeradar + skiplagged + pokecrew + pokesnipers + pokeZZ }
  }

  /** Whether FetchData also queries the fallback (default) location. */
  predicate ScansFallback(st: Settings, dist: Distance, lat: real, lng: real)
  {
    st.includeDefaultLocation && dist(lat, lng, st.defaultLatitude, st.defaultLongitude) > FallbackCoverageMetres
  }

  /** `allTasks.SelectMany(p => p.Result)`: every sighting fetched at the
      player's location, then Pokeradar's and Skiplagged's at the fallback
      location when it is scanned. */
  function FetchedBatch(st: Settings, dist: Distance, lat: real, lng: real,
                        here: SourceResults, fallback: SourceResults): seq<Sighting>
  {
    here.All() + (if ScansFallback(st, dist, lat, lng) then fallback.pokeradar + fallback.skiplagged else [])
  }

  /** The new value of pokestopCount after one Execute call. */
  function NextPokestopCount(c: int): int
  {
    (c + 1) % ExecuteCycle
  }

  /** pokestopCount after `k` calls. */
  function PokestopCountAfter(c: int, k: nat): int
  {
    if k == 0 then c else NextPokestopCount(PokestopCountAfter(c, k - 1))
  }

  /** The counter simply counts calls modulo 3, so with no priority flag
      raised Execute gets past the throttle on exactly every third call. */
  lemma {:induction false} ThrottleCountsCalls(c: int, k: nat)
    requires 0 <= c < ExecuteCycle
    ensures PokestopCountAfter(c, k) == (c + k) % ExecuteCycle
    ensures PokestopCountAfter(c, k) == 0 <==> (c + k) % ExecuteCycle == 0
  {
    if k > 0 {
      ThrottleCountsCalls(c, k - 1);
      assert ((c + k - 1) % 3 + 1) % 3 == (c + k) % 3;
    }
  }

  function IsUnvisited(e: Entry): bool { !e.visited }

  /** Entries not yet visited: what the pursuit loop uses up. */
  function UnvisitedCount(s: seq<Entry>): nat
  {
    Count(s, IsUnvisited)
  }

  /** The queue a silent round starts from: re-evaluated for the player's
      position and re-sorted when the last round is more than 30 s old and
      the queue is not empty; otherwise unchanged. */
  function Refreshed(s: seq<Entry>, sc: Scan, lastUpdated: int, silent: bool, now: int): seq<Entry>
    requires AllSpeedOk(s, sc.settings.walkingSpeed)
  {
    if RefreshDue(s, lastUpdated, silent, now)
    then SortQueue(EvaluateAll(s, sc.latitude, sc.longitude, sc.settings.walkingSpeed, sc.dist))
    else s
  }

  /** Whether a round refreshes the estimates before it merges. */
  predicate RefreshDue(s: seq<Entry>, lastUpdated: int, silent: bool, now: int)
  {
    lastUpdated < now - RefreshIntervalSeconds && silent && |s| > 0
  }

  lemma SortKeepsSpeedOk(s: seq<Entry>, walkingSpeed: real)
    requires AllSpeedOk(s, walkingSpeed)
    ensures AllSpeedOk(SortQueue(s), walkingSpeed)
  {
    var r := SortQueue(s);
    forall k | 0 <= k < |r|
      ensures SpeedOk(r[k].policy, walkingSpeed)
    {
      assert r[k] in multiset(r);
      assert r[k] in multiset(s);
      var j :| 0 <= j < |s| && s[j] == r[k];
    }
  }

  lemma SweepKeepsSpeedOk(s: seq<Entry>, now: int, walkingSpeed: real)
    requires AllSpeedOk(s, walkingSpeed)
    ensures AllSpeedOk(Sweep(s, now), walkingSpeed)
  {
    var r := Sweep(s, now);
    forall k | 0 <= k < |r|
      ensures SpeedOk(r[k].policy, walkingSpeed)
    {
      assert r[k] in r;
      var j :| 0 <= j < |s| && s[j] == r[k];
    }
  }

  /** A round that is not silent is skipped within 30 s of the last one. */
  predicate RateLimited(lastUpdated: int, silent: bool, now: int)
  {
    lastUpdated > now - RefreshIntervalSeconds && !silent
  }

  /** Sighting `id` has an entry in the queue that is marked visited and
      still inside its window at `now`. */
  predicate VisitedIn(s: seq<Entry>, id: UniqueId, now: int)
  {
    exists k :: 0 <= k < |s| && s[k].Id() == id && s[k].visited && s[k].Expiry() >= now
  }

  lemma VisitedInPermutation(s: seq<Entry>, t: seq<Entry>, id: UniqueId, now: int)
    requires multiset(s) == multiset(t) && VisitedIn(s, id, now)
    ensures VisitedIn(t, id, now)
  {
    var k :| 0 <= k < |s| && s[k].Id() == id && s[k].visited && s[k].Expiry() >= now;
    assert s[k] in multiset(t);
    var j :| 0 <= j < |t| && t[j] == s[k];
  }

  lemma VisitedInEvaluateAll(s: seq<Entry>, sc: Scan, id: UniqueId, now: int)
    requires AllSpeedOk(s, sc.settings.walkingSpeed) && VisitedIn(s, id, now)
    ensures VisitedIn(EvaluateAll(s, sc.latitude, sc.longitude, sc.settings.walkingSpeed, sc.dist), id, now)
  {
  }

  /** A fetch round keeps every visited entry still inside its window: the
      refresh re-evaluates in place, the merge only appends and the sort
      only permutes. */
  lemma FetchKeepsVisited(s: seq<Entry>, sc: Scan, lastUpdated: int, silent: bool, now: int,
                          batch: seq<Sighting>, id: UniqueId)
    requires sc.Ok() && AllSpeedOk(s, sc.settings.walkingSpeed)
    requires VisitedIn(s, id, now)
    ensures VisitedIn(FetchedQueue(s, sc, lastUpdated, silent, now, batch), id, now)
  {
    var start := Refreshed(s, sc, lastUpdated, silent, now);
    if start != s {
      var ev := EvaluateAll(s, sc.latitude, sc.longitude, sc.settings.walkingSpeed, sc.dist);
      VisitedInEvaluateAll(s, sc, id, now);
      VisitedInPermutation(ev, start, id, now);
    }
    var m := Merged(start, batch, sc);
    var k :| 0 <= k < |start| && start[k].Id() == id && start[k].visited && start[k].Expiry() >= now;
    assert m[k] == start[k];
    VisitedInPermutation(m, SortQueue(m), id, now);
  }

  /** The sweep and the re-evaluation keep every visited entry still inside
      its window. */
  lemma SweepEvaluateKeepsVisited(s: seq<Entry>, sc: Scan, id: UniqueId, now: int)
    requires AllSpeedOk(s, sc.settings.walkingSpeed) && VisitedIn(s, id, now)
    ensures AllSpeedOk(Sweep(s, now), sc.settings.walkingSpeed)
    ensures VisitedIn(EvaluateAll(Sweep(s, now), sc.latitude, sc.longitude, sc.settings.walkingSpeed, sc.dist), id, now)
  {
    SweepKeepsSpeedOk(s, now, sc.settings.walkingSpeed);
    var k :| 0 <= k < |s| && s[k].Id() == id && s[k].visited && s[k].Expiry() >= now;
    var swept := Sweep(s, now);
    assert s[k] in swept;
    var j :| 0 <= j < |swept| && swept[j] == s[k];
    VisitedInEvaluateAll(swept, sc, id, now);
  }

  /** The queue after a fetch round that got past the rate limit. */
  function FetchedQueue(s: seq<Entry>, sc: Scan, lastUpdated: int, silent: bool, now: int,
                        batch: seq<Sighting>): seq<Entry>
    requires sc.Ok() && AllSpeedOk(s, sc.settings.walkingSpeed)
  {
    SortQueue(Merged(Refreshed(s, sc, lastUpdated, silent, now), batch, sc))
  }

  /** The events of a fetch round that got past the rate limit:
      ClientRequestUpdate when the refresh ran, then PokemonScanned when the
      merge added something. */
  function FetchEvents(s: seq<Entry>, sc: Scan, lastUpdated: int, silent: bool, now: int,
                       batch: seq<Sighting>): seq<Event>
    requires sc.Ok() && AllSpeedOk(s, sc.settings.walkingSpeed)
  {
    RefreshEvents(s, sc, lastUpdated, silent, now) + ScanEvents(s, sc, lastUpdated, silent, now, batch)
  }

  /** ClientRequestUpdate, with the refreshed queue, when the refresh ran. */
  function RefreshEvents(s: seq<Entry>, sc: Scan, lastUpdated: int, silent: bool, now: int): seq<Event>
    requires sc.Ok() && AllSpeedOk(s, sc.settings.walkingSpeed)
  {
    if RefreshDue(s, lastUpdated, silent, now)
    then [ClientRequestUpdate(ApplyFilter(Refreshed(s, sc, lastUpdated, silent, now), now))]
    else []
  }

  /** PokemonScanned, with the new queue, when the merge added something. */
  function ScanEvents(s: seq<Entry>, sc: Scan, lastUpdated: int, silent: bool, now: int,
                      batch: seq<Sighting>): seq<Event>
    requires sc.Ok() && AllSpeedOk(s, sc.settings.walkingSpeed)
  {
    var start := Refreshed(s, sc, lastUpdated, silent, now);
    if |Merged(start, batch, sc)| > |start|
    then [PokemonScanned(ApplyFilter(FetchedQueue(s, sc, lastUpdated, silent, now, batch), now))]
    else []
  }

  lemma FetchedQueueKeepsSpeedOk(s: seq<Entry>, sc: Scan, lastUpdated: int, silent: bool, now: int,
                                 batch: seq<Sighting>)
    requires sc.Ok() && AllSpeedOk(s, sc.settings.walkingSpeed)
    ensures AllSpeedOk(FetchedQueue(s, sc, lastUpdated, silent, now, batch), sc.settings.walkingSpeed)
  {
    var start := Refreshed(s, sc, lastUpdated, silent, now);
    if RefreshDue(s, lastUpdated, silent, now) {
      SortKeepsSpeedOk(EvaluateAll(s, sc.latitude, sc.longitude, sc.settings.walkingSpeed, sc.dist),
                       sc.settings.walkingSpeed);
    }
    MergedKeepsSpeedOk(start, batch, sc);
    SortKeepsSpeedOk(Merged(start, batch, sc), sc.settings.walkingSpeed);
  }

  /** After a fetch round every watched sighting of the batch is known to
      the queue, so the next round with the same data adds nothing. */
  lemma FetchCoversBatch(s: seq<Entry>, sc: Scan, lastUpdated: int, silent: bool, now: int,
                         batch: seq<Sighting>)
    requires sc.Ok() && AllSpeedOk(s, sc.settings.walkingSpeed)
    ensures forall b :: b in batch && b.pokemonId in WatchList(sc.settings) ==>
      Known(FetchedQueue(s, sc, lastUpdated, silent, now, batch), b, sc.dist)
  {
    var start := Refreshed(s, sc, lastUpdated, silent, now);
    var m := Merged(start, batch, sc);
    MergedCoversBatch(start, batch, sc);
    forall b | b in batch && b.pokemonId in WatchList(sc.settings)
      ensures Known(SortQueue(m), b, sc.dist)
    {
      var k :| 0 <= k < |batch| && batch[k] == b;
      KnownUnderPermutation(m, SortQueue(m), b, sc.dist);
    }
  }

  /** The queue after a round that is not silent: unchanged within 30 s of
      the last round, else the fetched queue. */
  function AfterFetch(s: seq<Entry>, sc: Scan, lastUpdated: int, now: int, batch: seq<Sighting>): (r: seq<Entry>)
    requires sc.Ok() && AllSpeedOk(s, sc.settings.walkingSpeed)
    ensures AllSpeedOk(r, sc.settings.walkingSpeed)
  {
    if RateLimited(lastUpdated, false, now) then s
    else
      FetchedQueueKeepsSpeedOk(s, sc, lastUpdated, false, now, batch);
      FetchedQueue(s, sc, lastUpdated, false, now, batch)
  }

  /** The queue GetNextSnipeablePokemon selects from: fetched when asked,
      swept, and re-evaluated for the player's position. */
  function SelectionQueue(s: seq<Entry>, sc: Scan, lastUpdated: int, refresh: bool, now: int,
                          batch: seq<Sighting>): (r: seq<Entry>)
    requires sc.Ok() && AllSpeedOk(s, sc.settings.walkingSpeed)
    ensures AllSpeedOk(r, sc.settings.walkingSpeed)
  {
    var fetched := if refresh then AfterFetch(s, sc, lastUpdated, now, batch) else s;
    SweepKeepsSpeedOk(fetched, now, sc.settings.walkingSpeed);
    EvaluateAll(Sweep(fetched, now), sc.latitude, sc.longitude, sc.settings.walkingSpeed, sc.dist)
  }

  /** Without a fetch, selection only sweeps and re-evaluates, so it never
      adds an unvisited entry. */
  lemma SelectionAddsNoUnvisited(s: seq<Entry>, sc: Scan, lastUpdated: int, now: int, batch: seq<Sighting>)
    requires sc.Ok() && AllSpeedOk(s, sc.settings.walkingSpeed)
    ensures UnvisitedCount(SelectionQueue(s, sc, lastUpdated, false, now, batch)) <= UnvisitedCount(s)
  {
    CountFilter(s, (e: Entry) => !(e.Expiry() < now), IsUnvisited);
    SweepKeepsSpeedOk(s, now, sc.settings.walkingSpeed);
    CountPointwise(Sweep(s, now), SelectionQueue(s, sc, lastUpdated, false, now, batch), IsUnvisited);
  }

  /** What GetNextSnipeablePokemon sends: FetchData's events when it
      fetches past the rate limit, nothing otherwise. */
  function SelectionEvents(s: seq<Entry>, sc: Scan, lastUpdated: int, refresh: bool, now: int,
                           batch: seq<Sighting>): seq<Event>
    requires sc.Ok() && AllSpeedOk(s, sc.settings.walkingSpeed)
  {
    if refresh && !RateLimited(lastUpdated, false, now) then FetchEvents(s, sc, lastUpdated, false, now, batch)
    else []
  }

  /** lastUpdated after GetNextSnipeablePokemon. */
  function SelectionStamp(lastUpdated: int, refresh: bool, now: int): int
  {
    if refresh && !RateLimited(lastUpdated, false, now) then now else lastUpdated
  }

  /** The two events of one pursuit of `t`, the re-evaluated entry `i` of `s`. */
  function PursuitEvents(s: seq<Entry>, i: nat, t: Entry, now: int): seq<Event>
    requires i < |s|
  {
    [StartWalking(t.pokemonId, t.latitude, t.longitude, t.distance, ApplyFilter(s[i := t], now)),
     DestinationReached(t.latitude, t.longitude, TruncDiv(t.policy.delayTimeAtDestination, 1000))]
  }

  /** The selected entry re-evaluated from the player's position `sc`. */
  function PursuitTarget(q: seq<Entry>, i: nat, sc: Scan): Entry
    requires i < |q| && AllSpeedOk(q, sc.settings.walkingSpeed)
  {
    Evaluate(q[i], sc.latitude, sc.longitude, sc.settings.walkingSpeed, sc.dist)
  }

  /** The queue after the pursuit half of a round: unchanged when nothing
      was picked, otherwise the picked entry re-evaluated and visited. */
  function PursuedQueue(q: seq<Entry>, pick: Option<nat>, sc: Scan): seq<Entry>
    requires AllSpeedOk(q, sc.settings.walkingSpeed) && (pick.Some? ==> pick.value < |q|)
  {
    if pick.None? then q else q[pick.value := PursuitTarget(q, pick.value, sc).(visited := true)]
  }

  /** The events of the pursuit half of a round. */
  function PursuedEvents(q: seq<Entry>, pick: Option<nat>, sc: Scan, now: int): seq<Event>
    requires AllSpeedOk(q, sc.settings.walkingSpeed) && (pick.Some? ==> pick.value < |q|)
  {
    if pick.None? then [] else PursuitEvents(q, pick.value, PursuitTarget(q, pick.value, sc), now)
  }

  /** Some entry with this uniqueId is marked visited. */
  predicate WasVisited(s: seq<Entry>, id: UniqueId)
  {
    exists j :: 0 <= j < |s| && s[j].visited && s[j].Id() == id
  }

  /** Every visited entry of `t` stands for a sighting already visited in `s`. */
  predicate VisitedFrom(s: seq<Entry>, t: seq<Entry>)
  {
    forall k :: 0 <= k < |t| && t[k].visited ==> WasVisited(s, t[k].Id())
  }

  /** `t` has an entry for the sighting of `e`, with the same expiry. */
  predicate Holds(t: seq<Entry>, e: Entry)
  {
    exists k :: 0 <= k < |t| && t[k].Id() == e.Id() && t[k].Expiry() == e.Expiry()
  }

  /** No entry of `s` still inside its window at `now` is lost in `t`. */
  predicate KeepsUnexpired(s: seq<Entry>, t: seq<Entry>, now: int)
  {
    forall j :: 0 <= j < |s| && s[j].Expiry() >= now ==> Holds(t, s[j])
  }

  /** Re-evaluation, sorting and merging lose nothing and mark nothing
      visited; a step from `s` to `t` of that kind. */
  predicate Faithful(s: seq<Entry>, t: seq<Entry>)
  {
    && VisitedFrom(s, t)
    && forall j :: 0 <= j < |s| ==> Holds(t, s[j])
  }

  lemma FaithfulTrans(a: seq<Entry>, b: seq<Entry>, c: seq<Entry>)
    requires Faithful(a, b) && Faithful(b, c)
    ensures Faithful(a, c)
  {
    forall k | 0 <= k < |c| && c[k].visited
      ensures WasVisited(a, c[k].Id())
    {
      var j :| 0 <= j < |b| && b[j].visited && b[j].Id() == c[k].Id();
    }
    forall j | 0 <= j < |a|
      ensures Holds(c, a[j])
    {
      var m :| 0 <= m < |b| && b[m].Id() == a[j].Id() && b[m].Expiry() == a[j].Expiry();
    }
  }

  lemma EvaluateAllFaithful(s: seq<Entry>, sc: Scan)
    requires AllSpeedOk(s, sc.settings.walkingSpeed)
    ensures Faithful(s, EvaluateAll(s, sc.latitude, sc.longitude, sc.settings.walkingSpeed, sc.dist))
  {
    var r := EvaluateAll(s, sc.latitude, sc.longitude, sc.settings.walkingSpeed, sc.dist);
    forall k | 0 <= k < |r| && r[k].visited
      ensures WasVisited(s, r[k].Id())
    {
      assert s[k].visited && s[k].Id() == r[k].Id();
    }
    forall j | 0 <= j < |s|
      ensures Holds(r, s[j])
    {
      assert r[j].Id() == s[j].Id() && r[j].Expiry() == s[j].Expiry();
    }
  }

  lemma SortFaithful(s: seq<Entry>)
    ensures Faithful(s, SortQueue(s))
  {
    var r := SortQueue(s);
    forall k | 0 <= k < |r| && r[k].visited
      ensures WasVisited(s, r[k].Id())
    {
      assert r[k] in multiset(s);
      var j :| 0 <= j < |s| && s[j] == r[k];
    }
    forall j | 0 <= j < |s|
      ensures Holds(r, s[j])
    {
      assert s[j] in multiset(r);
      var k :| 0 <= k < |r| && r[k] == s[j];
    }
  }

  lemma MergedFaithful(s: seq<Entry>, batch: seq<Sighting>, sc: Scan)
    requires sc.Ok()
    ensures Faithful(s, Merged(s, batch, sc))
  {
    var r := Merged(s, batch, sc);
    MergedAdditions(s, batch, sc);
    forall k | 0 <= k < |r| && r[k].visited
      ensures WasVisited(s, r[k].Id())
    {
      assert k < |s| && r[k] == s[k];
    }
    forall j | 0 <= j < |s|
      ensures Holds(r, s[j])
    {
      assert r[j] == s[j];
    }
  }

  lemma AfterFetchFaithful(s: seq<Entry>, sc: Scan, lastUpdated: int, now: int, batch: seq<Sighting>)
    requires sc.Ok() && AllSpeedOk(s, sc.settings.walkingSpeed)
    ensures Faithful(s, AfterFetch(s, sc, lastUpdated, now, batch))
  {
    if !RateLimited(lastUpdated, false, now) {
      assert Refreshed(s, sc, lastUpdated, false, now) == s;
      MergedFaithful(s, batch, sc);
      SortFaithful(Merged(s, batch, sc));
      FaithfulTrans(s, Merged(s, batch, sc), SortQueue(Merged(s, batch, sc)));
    } else {
      forall k | 0 <= k < |s| && s[k].visited
        ensures WasVisited(s, s[k].Id())
      {
      }
      forall j | 0 <= j < |s|
        ensures Holds(s, s[j])
      {
      }
    }
  }

  /** The sweep drops only expired entries and keeps the rest as they are. */
  lemma SweepFaithful(s: seq<Entry>, now: int)
    ensures VisitedFrom(s, Sweep(s, now))
    ensures KeepsUnexpired(s, Sweep(s, now), now)
  {
    var r := Sweep(s, now);
    forall k | 0 <= k < |r| && r[k].visited
      ensures WasVisited(s, r[k].Id())
    {
      assert r[k] in r;
      var j :| 0 <= j < |s| && s[j] == r[k];
    }
    forall j | 0 <= j < |s| && s[j].Expiry() >= now
      ensures Holds(r, s[j])
    {
      assert s[j] in r;
      var k :| 0 <= k < |r| && r[k] == s[j];
    }
  }

  /** A selection loses no entry still inside its window and marks nothing
      visited. */
  lemma SelectionFaithful(s: seq<Entry>, sc: Scan, lastUpdated: int, refresh: bool, now: int,
                          batch: seq<Sighting>)
    requires sc.Ok() && AllSpeedOk(s, sc.settings.walkingSpeed)
    ensures VisitedFrom(s, SelectionQueue(s, sc, lastUpdated, refresh, now, batch))
    ensures KeepsUnexpired(s, SelectionQueue(s, sc, lastUpdated, refresh, now, batch), now)
  {
    var fetched := if refresh then AfterFetch(s, sc, lastUpdated, now, batch) else s;
    if refresh {
      AfterFetchFaithful(s, sc, lastUpdated, now, batch);
    } else {
      forall k | 0 <= k < |s| && s[k].visited
        ensures WasVisited(s, s[k].Id())
      {
      }
      forall j | 0 <= j < |s|
        ensures Holds(s, s[j])
      {
      }
    }
    var swept := Sweep(fetched, now);
    SweepFaithful(fetched, now);
    SweepKeepsSpeedOk(fetched, now, sc.settings.walkingSpeed);
    EvaluateAllFaithful(swept, sc);
    SelectionCompose(s, fetched, swept,
                     EvaluateAll(swept, sc.latitude, sc.longitude, sc.settings.walkingSpeed, sc.dist), now);
  }

  lemma SelectionCompose(s: seq<Entry>, fetched: seq<Entry>, swept: seq<Entry>, r: seq<Entry>, now: int)
    requires Faithful(s, fetched)
    requires VisitedFrom(fetched, swept) && KeepsUnexpired(fetched, swept, now)
    requires Faithful(swept, r)
    ensures VisitedFrom(s, r) && KeepsUnexpired(s, r, now)
  {
    forall k | 0 <= k < |r| && r[k].visited
      ensures WasVisited(s, r[k].Id())
    {
      var m :| 0 <= m < |swept| && swept[m].visited && swept[m].Id() == r[k].Id();
      var n :| 0 <= n < |fetched| && fetched[n].visited && fetched[n].Id() == swept[m].Id();
    }
    forall j | 0 <= j < |s| && s[j].Expiry() >= now
      ensures Holds(r, s[j])
    {
      var n :| 0 <= n < |fetched| && fetched[n].Id() == s[j].Id() && fetched[n].Expiry() == s[j].Expiry();
      var m :| 0 <= m < |swept| && swept[m].Id() == fetched[n].Id() && swept[m].Expiry() == fetched[n].Expiry();
    }
  }

  /** Every visited entry of `t` was pursued (its uniqueId is in `ids`) or
      stands for a sighting already visited in `s`. */
  predicate VisitedOnly(s: seq<Entry>, t: seq<Entry>, ids: seq<UniqueId>)
  {
    forall k :: 0 <= k < |t| && t[k].visited ==> t[k].Id() in ids || WasVisited(s, t[k].Id())
  }

  /** The pursuit half of a round marks only the picked entry visited and
      loses nothing. */
  lemma PursuedFaithful(q: seq<Entry>, pick: Option<nat>, sc: Scan)
    requires AllSpeedOk(q, sc.settings.walkingSpeed) && (pick.Some? ==> pick.value < |q|)
    ensures VisitedOnly(q, PursuedQueue(q, pick, sc), if pick.Some? then [q[pick.value].Id()] else [])
    ensures forall j :: 0 <= j < |q| ==> Holds(PursuedQueue(q, pick, sc), q[j])
  {
    var r := PursuedQueue(q, pick, sc);
    forall j | 0 <= j < |q|
      ensures Holds(r, q[j])
    {
      assert r[j].Id() == q[j].Id() && r[j].Expiry() == q[j].Expiry();
    }
    forall k | 0 <= k < |r| && r[k].visited && !(pick.Some? && r[k].Id() == q[pick.value].Id())
      ensures WasVisited(q, r[k].Id())
    {
      assert r[k] == q[k];
    }
  }

  /** A selection followed by a pursuit: only what was pursued is newly
      visited, and no entry still inside its window is lost. */
  lemma RoundCompose(s: seq<Entry>, q: seq<Entry>, r: seq<Entry>, ids: seq<UniqueId>, now: int)
    requires VisitedFrom(s, q) && KeepsUnexpired(s, q, now)
    requires VisitedOnly(q, r, ids) && forall j :: 0 <= j < |q| ==> Holds(r, q[j])
    ensures VisitedOnly(s, r, ids) && KeepsUnexpired(s, r, now)
  {
    forall k | 0 <= k < |r| && r[k].visited && r[k].Id() !in ids
      ensures WasVisited(s, r[k].Id())
    {
      var m :| 0 <= m < |q| && q[m].visited && q[m].Id() == r[k].Id();
    }
    forall j | 0 <= j < |s| && s[j].Expiry() >= now
      ensures Holds(r, s[j])
    {
      var m :| 0 <= m < |q| && q[m].Id() == s[j].Id() && q[m].Expiry() == s[j].Expiry();
    }
  }

  /** Two runs of rounds in a row. */
  lemma StepsCompose(a: seq<Entry>, b: seq<Entry>, c: seq<Entry>, x: seq<UniqueId>, y: seq<UniqueId>, now: int)
    requires VisitedOnly(a, b, x) && KeepsUnexpired(a, b, now)
    requires VisitedOnly(b, c, y) && KeepsUnexpired(b, c, now)
    ensures VisitedOnly(a, c, x + y) && KeepsUnexpired(a, c, now)
  {
    forall k | 0 <= k < |c| && c[k].visited && c[k].Id() !in x + y
      ensures WasVisited(a, c[k].Id())
    {
      var m :| 0 <= m < |b| && b[m].visited && b[m].Id() == c[k].Id();
    }
    forall j | 0 <= j < |a| && a[j].Expiry() >= now
      ensures Holds(c, a[j])
    {
      var m :| 0 <= m < |b| && b[m].Id() == a[j].Id() && b[m].Expiry() == a[j].Expiry();
    }
  }

  /** No rounds at all. */
  lemma StepsNone(s: seq<Entry>, now: int)
    ensures VisitedOnly(s, s, []) && KeepsUnexpired(s, s, now)
  {
    forall k | 0 <= k < |s| && s[k].visited
      ensures WasVisited(s, s[k].Id())
    {
    }
    forall j | 0 <= j < |s| && s[j].Expiry() >= now
      ensures Holds(s, s[j])
    {
    }
  }

  /** How one Execute call ended. */
  datatype Outcome =
    | Throttled                  // not this call's turn and no priority request
    | CatchingDisabled           // CatchPokemon is off and no priority request
    | NotEnoughBalls             // the ball gate failed and no priority request
    | Walked(targets: seq<UniqueId>, walkBack: bool)
      // the sightings pursued, in order; whether afterCatchFunc is invoked

  class SnipeTask {
    const settings: Settings
    const dist: Distance
    /** rarePokemons */
    var entries: seq<Entry>
    var pokestopCount: int
    var prioritySnipeFlag: bool
    /** Epoch seconds of the last fetch round. */
    var lastUpdated: int
    /** The player's position (session.Client.CurrentLatitude/Longitude). */
    var latitude: real
    var longitude: real
    /** Everything sent to the event dispatcher, oldest first. */
    var events: seq<Event>

    ghost predicate Valid()
      reads this`entries, this`pokestopCount
    {
      && SettingsOk(settings)
      && 0 <= pokestopCount < ExecuteCycle
      && AllSpeedOk(entries, settings.walkingSpeed)
    }

    function Here(): (sc: Scan)
      reads this`latitude, this`longitude
      ensures sc.settings == settings
    {
      Scan(settings, dist, latitude, longitude)
    }

    constructor (settings: Settings, dist: Distance, latitude: real, longitude: real, now: int)
      requires SettingsOk(settings)
      ensures Valid()
      ensures this.settings == settings && this.dist == dist
      ensures this.latitude == latitude && this.longitude == longitude
      ensures entries == [] && events == []
      ensures pokestopCount == 0 && !prioritySnipeFlag
      ensures lastUpdated == now - InitialStalenessSeconds
    {
      this.settings := settings;
      this.dist := dist;
      this.latitude := latitude;
      this.longitude := longitude;
      entries := [];
      events := [];
      pokestopCount := 0;
      prioritySnipeFlag := false;
      lastUpdated := now - InitialStalenessSeconds;
    }

    /** CheckPokeballsToSnipe with the four ball counts read from the
        inventory: false, with a NotEnoughPokeballs event, iff they sum to
        less than the minimum. */
    method CheckPokeballsToSnipe(minPokeballs: int, pokeBalls: int, greatBalls: int,
                                 ultraBalls: int, masterBalls: int) returns (ok: bool)
      modifies this`events
      ensures ok <==> pokeBalls + greatBalls + ultraBalls + masterBalls >= minPokeballs
      ensures events == old(events) +
        (if ok then [] else [NotEnoughPokeballs(pokeBalls + greatBalls + ultraBalls + masterBalls, minPokeballs)])
    {
      var count := pokeBalls;
      count := count + greatBalls;
      count := count + ultraBalls;
      count := count + masterBalls;
      if count < minPokeballs {
        events := events + [NotEnoughPokeballs(count, minPokeballs)];
        return false;
      }
      return true;
    }

    /** `rarePokemons.ForEach(CalculateDistanceAndEstTime)` for the player's
        current position. */
    method RecomputeAll()
      requires Valid()
      modifies this`entries
      ensures Valid()
      ensures entries == EvaluateAll(old(entries), latitude, longitude, settings.walkingSpeed, dist)
    {
      ghost var orig := entries;
      var i := 0;
      while i < |entries|
        invariant 0 <= i <= |entries| == |orig|
        invariant forall k :: 0 <= k < i ==> entries[k] == Evaluate(orig[k], latitude, longitude, settings.walkingSpeed, dist)
        invariant forall k :: i <= k < |entries| ==> entries[k] == orig[k]
        invariant AllSpeedOk(entries, settings.walkingSpeed)
      {
        entries := entries[i := Evaluate(entries[i], latitude, longitude, settings.walkingSpeed, dist)];
        i := i + 1;
      }
    }

    /** PostProcessDataFetched: merge the batch in order, re-sort, and send
        PokemonScanned only when something was added. */
    method PostProcessDataFetched(batch: seq<Sighting>, now: int)
      requires Valid()
      modifies this`entries, this`events
      ensures Valid()
      ensures entries == SortQueue(Merged(old(entries), batch, Here()))
      ensures events == old(events) +
        (if |Merged(old(entries), batch, Here())| > |old(entries)| then [PokemonScanned(ApplyFilter(entries, now))] else [])
    {
      ghost var merged := Merged(entries, batch, Here());
      var count := MergeBatch(batch);
      assert entries == merged;
      SortKeepsSpeedOk(entries, settings.walkingSpeed);
      entries := SortQueue(entries);
      if count > 0 {
        events := events + [PokemonScanned(ApplyFilter(entries, now))];
      }
    }

    /** The merge loop of PostProcessDataFetched: each fetched sighting that
        duplicates nothing in the queue and is of a watched species is
        appended, in batch order; `count` is how many were. */
    method MergeBatch(batch: seq<Sighting>) returns (count: nat)
      requires Valid()
      modifies this`entries
      ensures Valid()
      ensures entries == Merged(old(entries), batch, Here())
      ensures count == |entries| - |old(entries)|
    {
      ghost var orig := entries;
      var sc := Scan(settings, dist, latitude, longitude);
      count := 0;
      var i := 0;
      while i < |batch|
        invariant 0 <= i <= |batch|
        invariant entries == Merged(orig, batch[..i], sc)
        invariant count == |entries| - |orig|
      {
        var item := batch[i];
        MergedSnoc(orig, batch, i, sc);
        if Known(entries, item, dist) {
          // the sighting is already in the list
        } else if item.pokemonId !in WatchList(settings) {
          // not a watched species
        } else {
          count := count + 1;
          entries := entries + [Admit(item, sc)];
        }
        i := i + 1;
      }
      assert batch[..i] == batch;
      MergedKeepsSpeedOk(orig, batch, sc);
    }

    /** FetchData. A round that is not silent is skipped when the last one
        finished less than 30 s ago. A silent round first refreshes the
        estimates and re-sorts when the last round is more than 30 s old;
        either kind then merges the fetched batch and stamps lastUpdated. */
    method FetchData(lat: real, lng: real, silent: bool, now: int,
                     here: SourceResults, fallback: SourceResults)
      requires Valid()
      modifies this`entries, this`events, this`lastUpdated
      ensures Valid()
      ensures RateLimited(old(lastUpdated), silent, now) ==>
        entries == old(entries) && events == old(events) && lastUpdated == old(lastUpdated)
      ensures !RateLimited(old(lastUpdated), silent, now) ==>
        && lastUpdated == now
        && entries == FetchedQueue(old(entries), Here(), old(lastUpdated), silent, now,
                                   FetchedBatch(settings, dist, lat, lng, here, fallback))
        && events == old(events) + FetchEvents(old(entries), Here(), old(lastUpdated), silent, now,
                                               FetchedBatch(settings, dist, lat, lng, here, fallback))
        // every watched sighting fetched is now in the queue or duplicated there
        && forall b :: (b in FetchedBatch(settings, dist, lat, lng, here, fallback)
                        && b.pokemonId in WatchList(settings)) ==> Known(entries, b, dist)
    {
      if lastUpdated > now - RefreshIntervalSeconds && !silent {
        return;
      }
      ghost var s, sc, lu := entries, Here(), lastUpdated;
      FetchRound(lat, lng, silent, now, here, fallback);
      FetchCoversBatch(s, sc, lu, silent, now, FetchedBatch(settings, dist, lat, lng, here, fallback));
    }

    /** A fetch round past the rate limit: the optional silent refresh,
        then the fetched batch merged and lastUpdated stamped. */
    method FetchRound(lat: real, lng: real, silent: bool, now: int,
                      here: SourceResults, fallback: SourceResults)
      requires Valid()
      modifies this`entries, this`events, this`lastUpdated
      ensures Valid()
      ensures lastUpdated == now
      ensures entries == FetchedQueue(old(entries), Here(), old(lastUpdated), silent, now,
                                      FetchedBatch(settings, dist, lat, lng, here, fallback))
      ensures events == old(events) + FetchEvents(old(entries), Here(), old(lastUpdated), silent, now,
                                                  FetchedBatch(settings, dist, lat, lng, here, fallback))
    {
      ghost var sc := Here();
      ghost var s := entries;
      ghost var lu := lastUpdated;
      ghost var ev := events;
      RefreshIfDue(silent, now);
      var batch := FetchedBatch(settings, dist, lat, lng, here, fallback);
      lastUpdated := now;
      PostProcessDataFetched(batch, now);
      assert Here() == sc;
      assert entries == FetchedQueue(s, sc, lu, silent, now, batch);
      assert events == (ev + RefreshEvents(s, sc, lu, silent, now)) + ScanEvents(s, sc, lu, silent, now, batch);
      AppendAssociates(ev, RefreshEvents(s, sc, lu, silent, now), ScanEvents(s, sc, lu, silent, now, batch));
    }

    /** The first step of a fetch round: the silent refresh, when due. */
    method RefreshIfDue(silent: bool, now: int)
      requires Valid()
      modifies this`entries, this`events
      ensures Valid()
      ensures entries == Refreshed(old(entries), Here(), lastUpdated, silent, now)
      ensures events == old(events) + RefreshEvents(old(entries), Here(), lastUpdated, silent, now)
    {
      if lastUpdated < now - RefreshIntervalSeconds && silent && |entries| > 0 {
        RefreshForClient(now);
      }
    }

    /** The silent refresh: estimates recomputed, the queue re-sorted and
        the non-expired view sent as ClientRequestUpdate. */
    method RefreshForClient(now: int)
      requires Valid()
      modifies this`entries, this`events
      ensures Valid()
      ensures entries == SortQueue(EvaluateAll(old(entries), latitude, longitude, settings.walkingSpeed, dist))
      ensures events == old(events) + [ClientRequestUpdate(ApplyFilter(entries, now))]
    {
      ghost var evaluated := EvaluateAll(entries, latitude, longitude, settings.walkingSpeed, dist);
      RecomputeAll();
      assert entries == evaluated;
      SortKeepsSpeedOk(entries, settings.walkingSpeed);
      entries := SortQueue(entries);
      events := events + [ClientRequestUpdate(ApplyFilter(entries, now))];
    }


    /** GetNextSnipeablePokemon: optionally fetch, sweep the expired
        entries, re-evaluate the rest for the player's position and pick the
        first by (priority, distance) among the qualifying ones. The result
        is an index into the new `entries`. */
    method GetNextSnipeablePokemon(refresh: bool, now: int, here: SourceResults, fallback: SourceResults)
      returns (r: Option<nat>)
      requires Valid()
      modifies this`entries, this`events, this`lastUpdated
      ensures Valid()
      ensures entries == SelectionQueue(old(entries), Here(), old(lastUpdated), refresh, now,
                                        FetchedBatch(settings, dist, latitude, longitude, here, fallback))
      ensures r == SelectNext(entries, now)
      ensures forall i :: 0 <= i < |entries| ==> entries[i].Expiry() >= now
      // FetchData's events and stamp when it fetches past the rate limit, else none
      ensures events == old(events) + SelectionEvents(old(entries), Here(), old(lastUpdated), refresh, now,
                                                      FetchedBatch(settings, dist, latitude, longitude, here, fallback))
      ensures lastUpdated == SelectionStamp(old(lastUpdated), refresh, now)
      ensures forall id :: VisitedIn(old(entries), id, now) ==> VisitedIn(entries, id, now)
    {
      ghost var before := entries;
      ghost var sc := Here();
      ghost var lu := lastUpdated;
      ghost var batch := FetchedBatch(settings, dist, latitude, longitude, here, fallback);
      if refresh {
        FetchData(latitude, longitude, false, now, here, fallback);
        forall id | VisitedIn(before, id, now)
          ensures VisitedIn(entries, id, now)
        {
          if !RateLimited(lu, false, now) {
            FetchKeepsVisited(before, sc, lu, false, now, batch, id);
          }
        }
      }
      ghost var fetched := entries;
      assert fetched == (if refresh then AfterFetch(before, sc, lu, now, batch) else before);
      SweepAndEvaluate(now);
      assert entries == SelectionQueue(before, sc, lu, refresh, now, batch);
      forall id | VisitedIn(fetched, id, now)
        ensures VisitedIn(entries, id, now)
      {
        SweepEvaluateKeepsVisited(fetched, sc, id, now);
      }
      r := SelectNext(entries, now);
    }

    /** `RemoveAll(expired)` then `ForEach(CalculateDistanceAndEstTime)`. */
    method SweepAndEvaluate(now: int)
      requires Valid()
      modifies this`entries
      ensures Valid()
      ensures AllSpeedOk(Sweep(old(entries), now), settings.walkingSpeed)
      ensures entries == EvaluateAll(Sweep(old(entries), now), latitude, longitude, settings.walkingSpeed, dist)
      ensures forall i :: 0 <= i < |entries| ==> entries[i].Expiry() >= now
    {
      SweepKeepsSpeedOk(entries, now, settings.walkingSpeed);
      entries := Sweep(entries, now);
      ghost var swept := entries;
      assert forall i :: 0 <= i < |swept| ==> swept[i] in swept;
      RecomputeAll();
    }

    /** One pursuit: the selected entry is re-evaluated in place, StartWalking
        is sent, the player walks to the sighting, DestinationReached is sent
        with the dwell in whole seconds, and the entry is marked visited. */
    method Pursue(i: nat, now: int) returns (target: Entry)
      requires Valid() && i < |entries|
      modifies this`entries, this`events, this`latitude, this`longitude
      ensures Valid()
      ensures target == Evaluate(old(entries)[i], old(latitude), old(longitude), settings.walkingSpeed, dist)
      ensures entries == old(entries)[i := target.(visited := true)]
      // an entry already visited stays so, and the pursued one joins them
      ensures !old(entries)[i].visited ==>
        forall id :: VisitedIn(old(entries), id, now) ==> VisitedIn(entries, id, now)
      ensures old(entries)[i].Expiry() >= now ==> VisitedIn(entries, target.Id(), now)
      ensures latitude == target.latitude && longitude == target.longitude
      ensures events == old(events) + [
        StartWalking(target.pokemonId, target.latitude, target.longitude, target.distance,
                     ApplyFilter(old(entries)[i := target], now)),
        DestinationReached(target.latitude, target.longitude, TruncDiv(target.policy.delayTimeAtDestination, 1000))]
    {
      target := Evaluate(entries[i], latitude, longitude, settings.walkingSpeed, dist);
      entries := entries[i := target];
      events := events + [StartWalking(target.pokemonId, target.latitude, target.longitude,
                                       target.distance, ApplyFilter(entries, now))];
      // Navigation.Move, with its opportunistic catches, ends at the sighting
      latitude, longitude := target.latitude, target.longitude;
      events := events + [DestinationReached(target.latitude, target.longitude,
                                             TruncDiv(target.policy.delayTimeAtDestination, 1000))];
      // the catch attempts at the destination and the dwell are opaque
      ReplaceKeepsSpeedOk(old(entries), i, target.(visited := true), settings.walkingSpeed);
      entries := entries[i := target.(visited := true)];
      assert entries[i].Id() == target.Id() && entries[i].Expiry() == old(entries)[i].Expiry();
      forall id | VisitedIn(old(entries), id, now) && !old(entries)[i].visited
        ensures VisitedIn(entries, id, now)
      {
        var k :| 0 <= k < |old(entries)| && old(entries)[k].Id() == id && old(entries)[k].visited
                 && old(entries)[k].Expiry() >= now;
        assert entries[k] == old(entries)[k];
      }
    }

    /** One round of the do-while loop of Execute: clear the priority
        flag, select (fetching first when nothing has been pursued yet) and
        pursue the selected entry, if any. `target` is the pursued
        sighting; `selectedFrom` is the queue the selection was made from. */
    method PursuitRound(fetch: bool, now: int, here: SourceResults, fallback: SourceResults)
      returns (target: Option<UniqueId>, ghost selectedFrom: seq<Entry>)
      requires Valid()
      modifies this`entries, this`events, this`lastUpdated, this`latitude, this`longitude, this`prioritySnipeFlag
      ensures Valid() && !prioritySnipeFlag
      ensures selectedFrom == SelectionQueue(old(entries), old(Here()), old(lastUpdated), fetch, now,
                                             FetchedBatch(settings, dist, old(latitude), old(longitude), here, fallback))
      // the pursued sighting is the one SelectNext picks, and there is one exactly when SelectNext finds one
      ensures target.None? <==> SelectNext(selectedFrom, now).None?
      ensures target.Some? ==> target.value == selectedFrom[SelectNext(selectedFrom, now).value].Id()
      ensures target.None? ==> entries == selectedFrom && SelectNext(entries, now).None?
      // the new state: the selection's, then the pursuit's
      ensures entries == PursuedQueue(selectedFrom, SelectNext(selectedFrom, now), old(Here()))
      ensures events == old(events)
        + SelectionEvents(old(entries), old(Here()), old(lastUpdated), fetch, now,
                          FetchedBatch(settings, dist, old(latitude), old(longitude), here, fallback))
        + PursuedEvents(selectedFrom, SelectNext(selectedFrom, now), old(Here()), now)
      ensures lastUpdated == SelectionStamp(old(lastUpdated), fetch, now)
      ensures target.None? ==> latitude == old(latitude) && longitude == old(longitude)
      ensures target.Some? ==>
        && latitude == PursuitTarget(selectedFrom, SelectNext(selectedFrom, now).value, old(Here())).latitude
        && longitude == PursuitTarget(selectedFrom, SelectNext(selectedFrom, now).value, old(Here())).longitude
      // an entry ends visited only if it was visited before or was pursued; none still in its window is lost
      ensures VisitedOnly(old(entries), entries, if target.Some? then [target.value] else [])
      ensures KeepsUnexpired(old(entries), entries, now)
      ensures forall id :: VisitedIn(old(entries), id, now) ==> VisitedIn(entries, id, now)
      ensures target.Some? ==> VisitedIn(entries, target.value, now)
      // without a fetch a round never adds unvisited entries, and a pursuit uses one up
      ensures !fetch ==> UnvisitedCount(entries) + (if target.Some? then 1 else 0) <= UnvisitedCount(old(entries))
    {
      ghost var before, sc, lu := entries, Here(), lastUpdated;
      ghost var batch := FetchedBatch(settings, dist, latitude, longitude, here, fallback);
      var pokemon := GetNextSnipeablePokemon(fetch, now, here, fallback);
      selectedFrom := entries;
      assert Here() == sc;
      if !fetch {
        SelectionAddsNoUnvisited(before, sc, lu, now, batch);
      }
      SelectionFaithful(before, sc, lu, fetch, now, batch);
      target := PursueSelected(pokemon, now);
      RoundCompose(before, selectedFrom, entries, if target.Some? then [target.value] else [], now);
      // cleared at the top of the round in the source; nothing in between reads it
      prioritySnipeFlag := false;
    }

    /** The pursuit half of a round: nothing when nothing was selected,
        otherwise Pursue on the selected index. */
    method PursueSelected(pokemon: Option<nat>, now: int) returns (target: Option<UniqueId>)
      requires Valid() && pokemon == SelectNext(entries, now)
      requires forall i :: 0 <= i < |entries| ==> entries[i].Expiry() >= now
      modifies this`entries, this`events, this`latitude, this`longitude
      ensures Valid()
      ensures target.None? <==> pokemon.None?
      ensures target.Some? ==> target.value == old(entries)[pokemon.value].Id()
      // the queue and the events are Pursue's on the pick, and nothing changes without one
      ensures entries == PursuedQueue(old(entries), pokemon, old(Here()))
      ensures events == old(events) + PursuedEvents(old(entries), pokemon, old(Here()), now)
      ensures pokemon.None? ==> latitude == old(latitude) && longitude == old(longitude)
      ensures pokemon.Some? ==>
        && latitude == PursuitTarget(old(entries), pokemon.value, old(Here())).latitude
        && longitude == PursuitTarget(old(entries), pokemon.value, old(Here())).longitude
      ensures VisitedOnly(old(entries), entries, if target.Some? then [target.value] else [])
      ensures forall j :: 0 <= j < |old(entries)| ==> Holds(entries, old(entries)[j])
      ensures forall id :: VisitedIn(old(entries), id, now) ==> VisitedIn(entries, id, now)
      ensures target.Some? ==> VisitedIn(entries, target.value, now)
      ensures UnvisitedCount(entries) + (if target.Some? then 1 else 0) <= UnvisitedCount(old(entries))
    {
      ghost var sc := Here();
      PursuedFaithful(entries, pokemon, sc);
      target := None;
      if pokemon.Some? {
        var i := pokemon.value;
        var pursued := Pursue(i, now);
        target := Some(pursued.Id());
        CountUpdate(old(entries), i, pursued.(visited := true), IsUnvisited);
      }
    }

    /** The do-while loop of Execute: clear the priority flag, run a round,
        and repeat while a round pursued something and catch-em-all is on.
        The first round, which fetches, is run here and the repetitions by
        RepeatRounds. Every sighting pursued ends the loop in the queue,
        marked visited; the first is SelectNext's pick from the fetched queue
        `firstQueue`, and the loop stops only when nothing is left to select
        or catch-em-all is off. */
    method PursuitLoop(now: int, here: SourceResults, fallback: SourceResults)
      returns (targets: seq<UniqueId>, ghost firstQueue: seq<Entry>)
      requires Valid()
      modifies this`entries, this`events, this`lastUpdated, this`latitude, this`longitude, this`prioritySnipeFlag
      ensures Valid()
      ensures !prioritySnipeFlag
      ensures firstQueue == SelectionQueue(old(entries), old(Here()), old(lastUpdated), true, now,
                                           FetchedBatch(settings, dist, old(latitude), old(longitude), here, fallback))
      ensures targets == [] <==> SelectNext(firstQueue, now).None?
      ensures targets != [] ==> targets[0] == firstQueue[SelectNext(firstQueue, now).value].Id()
      ensures targets == [] ==> SelectNext(entries, now).None?
      ensures settings.tryCatchEmAll ==> SelectNext(entries, now).None?
      ensures !settings.tryCatchEmAll ==> |targets| <= 1
      ensures forall t :: t in targets ==> VisitedIn(entries, t, now)
      // only the first round fetches; only the pursued sightings become visited
      ensures lastUpdated == SelectionStamp(old(lastUpdated), true, now)
      ensures VisitedOnly(old(entries), entries, targets)
      ensures KeepsUnexpired(old(entries), entries, now)
    {
      ghost var queue0 := SelectionQueue(entries, Here(), lastUpdated, true, now,
                                         FetchedBatch(settings, dist, latitude, longitude, here, fallback));
      ghost var stamp := SelectionStamp(lastUpdated, true, now);
      ghost var start := entries;
      var caught := false;
      var pokemon;
      pokemon, firstQueue := PursuitRound(!caught, now, here, fallback);
      assert firstQueue == queue0;
      assert lastUpdated == stamp;
      targets := [];
      if pokemon.Some? {
        caught := true;
        targets := [pokemon.value];
      }
      var more := RepeatRounds(pokemon, now, here, fallback, start, targets);
      targets := targets + more;
    }

    /** The repetitions of the do-while loop of Execute, after a round that
        pursued `last`: while the last round pursued something and
        catch-em-all is on, clear the priority flag and run another round.
        `caught` is set by then, so none of them fetches; each uses up an
        unvisited entry, which bounds the loop. */
    method RepeatRounds(last: Option<UniqueId>, now: int, here: SourceResults, fallback: SourceResults,
                        ghost origin: seq<Entry>, ghost sofar: seq<UniqueId>)
      returns (more: seq<UniqueId>)
      requires Valid() && !prioritySnipeFlag
      requires last.None? ==> SelectNext(entries, now).None?
      requires VisitedOnly(origin, entries, sofar) && KeepsUnexpired(origin, entries, now)
      modifies this`entries, this`events, this`lastUpdated, this`latitude, this`longitude, this`prioritySnipeFlag
      ensures Valid() && !prioritySnipeFlag
      ensures !(last.Some? && settings.tryCatchEmAll) ==> more == [] && entries == old(entries)
      ensures settings.tryCatchEmAll || last.None? ==> SelectNext(entries, now).None?
      // no round fetches, so none stamps lastUpdated
      ensures lastUpdated == old(lastUpdated)
      // an entry ends visited only if it was visited at `origin` or was pursued since (`sofar`, then
      // `more`); none still in its window at `origin` is lost
      ensures VisitedOnly(origin, entries, sofar + more)
      ensures KeepsUnexpired(origin, entries, now)
      ensures forall id :: VisitedIn(old(entries), id, now) ==> VisitedIn(entries, id, now)
      ensures forall t :: t in more ==> VisitedIn(entries, t, now)
    {
      more := [];
      var pokemon := last;
      assert sofar + more == sofar;
      while pokemon.Some? && settings.tryCatchEmAll
        invariant Valid() && !prioritySnipeFlag
        invariant pokemon.None? ==> SelectNext(entries, now).None?
        invariant !(last.Some? && settings.tryCatchEmAll) ==> more == [] && entries == old(entries)
        invariant lastUpdated == old(lastUpdated)
        invariant VisitedOnly(origin, entries, sofar + more) && KeepsUnexpired(origin, entries, now)
        invariant forall id :: VisitedIn(old(entries), id, now) ==> VisitedIn(entries, id, now)
        invariant forall t :: t in more ==> VisitedIn(entries, t, now)
        decreases UnvisitedCount(entries) + (if pokemon.Some? then 1 else 0)
      {
        ghost var before := entries;
        ghost var queue;
        pokemon, queue := PursuitRound(false, now, here, fallback);
        var step := if pokemon.Some? then [pokemon.value] else [];
        StepsCompose(origin, before, entries, sofar + more, step, now);
        Seqs.AppendAssociates(sofar, more, step);
        more := more + step;
      }
    }

    /** Execute: the call throttle, the gates, then the pursuit loop. The
        navigation and catch collaborators are opaque; the player is taken to
        arrive at each pursued sighting, and the clock is read once. */
    method Execute(now: int, here: SourceResults, fallback: SourceResults,
                   pokeBalls: int, greatBalls: int, ultraBalls: int, masterBalls: int)
      returns (out: Outcome, ghost selectedFrom: seq<Entry>)
      requires Valid()
      modifies this
      ensures Valid()
      ensures pokestopCount == NextPokestopCount(old(pokestopCount))
      // the gates, in order: each outcome exactly when its gate is the first to stop the call
      ensures out == Throttled <==> pokestopCount != 0 && !old(prioritySnipeFlag)
      ensures out == CatchingDisabled <==>
        pokestopCount == 0 && !settings.catchPokemon && !old(prioritySnipeFlag)
      ensures out == NotEnoughBalls <==>
        && pokestopCount == 0 && settings.catchPokemon && settings.tryCatchEmAll && !old(prioritySnipeFlag)
        && pokeBalls + greatBalls + ultraBalls + masterBalls < settings.catchEmAllMinBalls
      ensures out.Walked? <==>
        && (pokestopCount == 0 || old(prioritySnipeFlag))
        && (settings.catchPokemon || old(prioritySnipeFlag))
        && (!settings.tryCatchEmAll || old(prioritySnipeFlag)
            || pokeBalls + greatBalls + ultraBalls + masterBalls >= settings.catchEmAllMinBalls)
      // the first sighting walked to is SelectNext's pick from the fetched, swept queue
      ensures out.Walked? ==>
        selectedFrom == SelectionQueue(old(entries), old(Here()), old(lastUpdated), true, now,
                                       FetchedBatch(settings, dist, old(latitude), old(longitude), here, fallback))
      ensures out.Walked? ==> (out.targets == [] <==> SelectNext(selectedFrom, now).None?)
      ensures out.Walked? && out.targets != [] ==>
        out.targets[0] == selectedFrom[SelectNext(selectedFrom, now).value].Id()
      ensures out.Walked? && (out.targets == [] || settings.tryCatchEmAll) ==> SelectNext(entries, now).None?
      ensures !out.Walked? ==> entries == old(entries) && prioritySnipeFlag == old(prioritySnipeFlag)
      ensures !out.Walked? ==>
        lastUpdated == old(lastUpdated) && latitude == old(latitude) && longitude == old(longitude)
      ensures out == Throttled || out == CatchingDisabled ==> events == old(events)
      ensures out == NotEnoughBalls ==>
        events == old(events) + [NotEnoughPokeballs(pokeBalls + greatBalls + ultraBalls + masterBalls,
                                                    settings.catchEmAllMinBalls)]
      ensures out.Walked? ==> !prioritySnipeFlag
      ensures out.Walked? ==> (out.walkBack <==> |out.targets| > 0 && !settings.alwaysWalkBack)
      ensures out.Walked? && !settings.tryCatchEmAll ==> |out.targets| <= 1
      ensures out.Walked? ==> forall t :: t in out.targets ==> VisitedIn(entries, t, now)
      ensures out.Walked? ==> lastUpdated == SelectionStamp(old(lastUpdated), true, now)
      ensures out.Walked? ==>
        VisitedOnly(old(entries), entries, out.targets) && KeepsUnexpired(old(entries), entries, now)
    {
      selectedFrom := [];
      pokestopCount := pokestopCount + 1;
      pokestopCount := pokestopCount % ExecuteCycle;
      if pokestopCount > 0 && !prioritySnipeFlag {
        return Throttled, selectedFrom;
      }
      if !settings.catchPokemon && !prioritySnipeFlag {
        return CatchingDisabled, selectedFrom;
      }
      if settings.tryCatchEmAll {
        var checkBall := CheckPokeballsToSnipe(settings.catchEmAllMinBalls, pokeBalls, greatBalls, ultraBalls, masterBalls);
        if !checkBall && !prioritySnipeFlag {
          return NotEnoughBalls, selectedFrom;
        }
      }

      var targets;
      targets, selectedFrom := PursuitLoop(now, here, fallback);
      return Walked(targets, |targets| > 0 && !settings.alwaysWalkBack), selectedFrom;
    }

    /** PriorityPokemon: the first entry with this uniqueId gets priority 0
        in its own policy copy; nothing else changes. */
    method PriorityPokemon(id: UniqueId)
      requires Valid()
      modifies this`entries
      ensures Valid()
      ensures entries == Prioritized(old(entries), id)
    {
      var found := FindEntry(entries, id);
      if found.Some? {
        var i := found.value;
        ReplaceKeepsSpeedOk(entries, i, Forced(entries[i]), settings.walkingSpeed);
        entries := entries[i := Forced(entries[i])];
      }
    }

    /** TargetPokemonSnip: PriorityPokemon, then the queue is re-sorted and
        TargetedPokemon sent when the entry exists; the priority flag is
        raised in every case, so the next Execute call is not throttled. */
    method TargetPokemonSnip(id: UniqueId, now: int)
      requires Valid()
      modifies this`entries, this`events, this`prioritySnipeFlag
      ensures Valid()
      ensures prioritySnipeFlag
      ensures FindEntry(old(entries), id).None? ==> entries == old(entries) && events == old(events)
      ensures FindEntry(old(entries), id).Some? ==>
        && entries == SortQueue(Prioritized(old(entries), id))
        && events == old(events) + [TargetedPokemon(ApplyFilter(entries, now))]
    {
      var found := FindEntry(entries, id);
      if found.Some? {
        PriorityPokemon(id);
        SortKeepsSpeedOk(entries, settings.walkingSpeed);
        entries := SortQueue(entries);
        events := events + [TargetedPokemon(ApplyFilter(entries, now))];
      }
      prioritySnipeFlag := true;
    }

    /** RemovePokemonFromQueue: a soft delete. The first entry with this
        uniqueId is marked visited (it stays, so a re-fetch is still a
        duplicate), the queue is re-sorted and QueueUpdated sent. */
    method RemovePokemonFromQueue(id: UniqueId, now: int)
      requires Valid()
      modifies this`entries, this`events
      ensures Valid()
      ensures FindEntry(old(entries), id).None? ==> entries == old(entries) && events == old(events)
      ensures FindEntry(old(entries), id).Some? ==>
        && entries == SortQueue(SoftRemoved(old(entries), id))
        && events == old(events) + [QueueUpdated(ApplyFilter(entries, now))]
    {
      var found := FindEntry(entries, id);
      if found.Some? {
        var i := found.value;
        ReplaceKeepsSpeedOk(entries, i, entries[i].(visited := true), settings.walkingSpeed);
        entries := entries[i := entries[i].(visited := true)];
        SortKeepsSpeedOk(entries, settings.walkingSpeed);
        entries := SortQueue(entries);
        events := events + [QueueUpdated(ApplyFilter(entries, now))];
      }
    }

    /** UpdateCatchPokemon: every unvisited entry of the species within 30
        degrees of the catch is marked visited, with one EncounterSnipePokemon
        event each, in list order. When none matched and the species is
        watched, a visited placeholder is appended at the catch position so
        that a later fetch does not bring the sighting back. */
    method UpdateCatchPokemon(lat: real, lng: real, id: int, now: int)
      requires Valid()
      modifies this`entries, this`events
      ensures Valid()
      ensures entries == MarkCaught(old(entries), lat, lng, id) +
        (if !AnyCatchMatch(old(entries), lat, lng, id) && id in WatchList(settings)
         then [FakeEntry(lat, lng, id, now)] else [])
      ensures events == old(events) + EncounterEvents(old(entries), lat, lng, id)
    {
      var exist := MarkCatches(lat, lng, id);
      if !exist && id in WatchList(settings) {
        var fake := FakeEntry(lat, lng, id, now);
        assert forall k :: 0 <= k < |entries| ==> (entries + [fake])[k] == entries[k];
        entries := entries + [fake];
      }
    }

    /** The marking loop of UpdateCatchPokemon; `exist` tells whether any
        entry matched. */
    method MarkCatches(lat: real, lng: real, id: int) returns (exist: bool)
      requires Valid()
      modifies this`entries, this`events
      ensures Valid()
      ensures entries == MarkCaught(old(entries), lat, lng, id)
      ensures exist <==> AnyCatchMatch(old(entries), lat, lng, id)
      ensures events == old(events) + EncounterEvents(old(entries), lat, lng, id)
    {
      ghost var orig := entries;
      exist := false;
      var i := 0;
      while i < |entries|
        invariant 0 <= i <= |entries| == |orig|
        invariant forall k :: 0 <= k < i ==> entries[k] == orig[k].(visited := orig[k].visited || CatchMatches(orig[k], lat, lng, id))
        invariant forall k :: i <= k < |entries| ==> entries[k] == orig[k]
        invariant exist <==> AnyCatchMatch(orig[..i], lat, lng, id)
        invariant events == old(events) + EncounterEvents(orig[..i], lat, lng, id)
        invariant AllSpeedOk(entries, settings.walkingSpeed)
      {
        assert orig[..i + 1][..i] == orig[..i];
        assert orig[..i + 1][i] == orig[i];
        ghost var before := orig[..i];
        assert forall k :: 0 <= k < i ==> orig[..i + 1][k] == before[k];
        if CatchMatches(entries[i], lat, lng, id) {
            ReplaceKeepsSpeedOk(entries, i, entries[i].(visited := true), settings.walkingSpeed);
          entries := entries[i := entries[i].(visited := true)];
          exist := true;
          events := events + [EncounterSnipePokemon(entries[i].Id(), id, lat, lng)];
        }
        i := i + 1;
      }
      assert orig[..i] == orig;
    }
  }
}
