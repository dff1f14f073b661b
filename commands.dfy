/** The pure parts of the out-of-band commands PriorityPokemon,
    TargetPokemonSnip, RemovePokemonFromQueue and UpdateCatchPokemon. */
module Commands {
  import opened SnipeTypes
  import opened Seqs
  import opened Selection
  import opened Merge

  /** `rarePokemons.FirstOrDefault(p => p.uniqueId == id)`, as an index. */
  function FindEntry(s: seq<Entry>, id: UniqueId): (r: Option<nat>)
    ensures r.None? <==> forall i :: 0 <= i < |s| ==> s[i].Id() != id
    ensures r.Some? ==> r.value < |s| && s[r.value].Id() == id
    ensures r.Some? ==> forall j :: 0 <= j < r.value ==> s[j].Id() != id
  {
    FirstIndex(s, (e: Entry) => e.Id() == id)
  }

  /** The entry with its own policy copy forced to priority 0. */
  function Forced(e: Entry): Entry
  {
    e.(policy := e.policy.(priority := 0))
  }

  /** The queue after PriorityPokemon: the first entry with this uniqueId,
      if any, forced to priority 0; every other entry, and every other part
      of that one, unchanged. */
  function Prioritized(s: seq<Entry>, id: UniqueId): (r: seq<Entry>)
    ensures |r| == |s|
    ensures FindEntry(s, id).None? ==> r == s
    ensures FindEntry(s, id).Some? ==>
      var i := FindEntry(s, id).value;
      && r[i].Priority() == 0
      && r[i].(policy := s[i].policy) == s[i]
      && r[i].policy.(priority := s[i].policy.priority) == s[i].policy
      && forall k :: 0 <= k < |s| && k != i ==> r[k] == s[k]
  {
    match FindEntry(s, id)
    case None => s
    case Some(i) => s[i := Forced(s[i])]
  }

  /** A live entry the user prioritised is picked by the next selection,
      or another entry of priority 0 or less is, whatever the distance,
      walk time or remaining lifetime of either. */
  lemma PrioritizedIsSelectable(s: seq<Entry>, id: UniqueId, now: int)
    requires FindEntry(s, id).Some? && s[FindEntry(s, id).value].Live()
    ensures SelectNext(Prioritized(s, id), now).Some?
    ensures Prioritized(s, id)[SelectNext(Prioritized(s, id), now).value].Priority() <= 0
  {
  }

  /** The queue after RemovePokemonFromQueue: a soft delete that marks the
      first entry with this uniqueId visited and keeps it in place. */
  function SoftRemoved(s: seq<Entry>, id: UniqueId): (r: seq<Entry>)
    ensures |r| == |s|
    ensures FindEntry(s, id).None? ==> r == s
    ensures FindEntry(s, id).Some? ==>
      var i := FindEntry(s, id).value;
      && r[i] == s[i].(visited := true)
      && forall k :: 0 <= k < |s| && k != i ==> r[k] == s[k]
  {
    match FindEntry(s, id)
    case None => s
    case Some(i) => s[i := s[i].(visited := true)]
  }

  /** A removed sighting is never selected again, yet it still blocks the
      same sighting from being merged back by a later fetch. */
  lemma SoftRemovedStaysKnown(s: seq<Entry>, id: UniqueId, now: int, item: Sighting, sc: Scan)
    requires sc.Ok()
    requires FindEntry(s, id).Some? && item.Id() == id
    ensures var r := SoftRemoved(s, id);
      && !Qualifies(r[FindEntry(s, id).value], now)
      && Step(r, item, sc) == r
  {
    var i := FindEntry(s, id).value;
    var r := SoftRemoved(s, id);
    assert r[i] in r && Duplicates(r[i], item, sc.dist);
  }

  /** Tolerance, in degrees per coordinate, of UpdateCatchPokemon. */
  const CatchTolerance: real := 30.0

  function Abs(x: real): real { if x < 0.0 then -x else x }

  /** The test UpdateCatchPokemon applies to each entry. */
  predicate CatchMatches(e: Entry, lat: real, lng: real, id: int)
  {
    && Abs(e.latitude - lat) < CatchTolerance
    && Abs(e.longitude - lng) < CatchTolerance
    && e.pokemonId == id
    && !e.visited
  }

  predicate AnyCatchMatch(s: seq<Entry>, lat: real, lng: real, id: int)
  {
    exists i :: 0 <= i < |s| && CatchMatches(s[i], lat, lng, id)
  }

  /** Every matching entry marked visited, not only the nearest one. */
  function MarkCaught(s: seq<Entry>, lat: real, lng: real, id: int): (r: seq<Entry>)
    ensures |r| == |s|
    ensures forall i :: 0 <= i < |s| ==> r[i] == s[i].(visited := s[i].visited || CatchMatches(s[i], lat, lng, id))
    ensures forall i :: 0 <= i < |r| ==> !CatchMatches(r[i], lat, lng, id)
  {
    seq(|s|, i requires 0 <= i < |s| =>
      if CatchMatches(s[i], lat, lng, id) then s[i].(visited := true) else s[i])
  }

  /** The EncounterSnipePokemon events the marking loop sends, one per
      matching entry, in list order. */
  function EncounterEvents(s: seq<Entry>, lat: real, lng: real, id: int): seq<Event>
    decreases |s|
  {
    if s == [] then []
    else
      var last := s[|s| - 1];
      EncounterEvents(s[..|s| - 1], lat, lng, id)
        + (if CatchMatches(last, lat, lng, id) then [EncounterSnipePokemon(last.Id(), id, lat, lng)] else [])
  }

  /** The policy given to a placeholder. Its priority 100 sorts the
      placeholder after every configured entry whose priority is below 100
      (the settings do not bound priorities, and ties fall to distance); its
      speed-up flag (off)
      and dwell (0) are what CalculateDistanceAndEstTime reads when the queue
      is re-evaluated; nothing else reads it. */
  const FakePolicy: Policy := Policy(1.0, 1.0, 100, false, false, false, 0.0, 0)

  /** The anti-recurrence placeholder UpdateCatchPokemon appends, created
      at `now` (UTC epoch seconds): already visited and fake. */
  function FakeEntry(lat: real, lng: real, id: int, now: int): (e: Entry)
    ensures e.Id() == UniqueId(id, lat, lng) && e.visited && e.fake && !e.Live()
    ensures e.Expiry() == now + ValidityWindowSeconds
  {
    Entry(id, lat, lng, now, 0.0, 0.0, true, true, FakePolicy)
  }

  /** Anti-recurrence: while its window lasts the placeholder survives the
      expiry sweep, and a later fetch of the same species at the same
      uniqueId or within 10 m of it is not merged back as a new entry. */
  lemma PlaceholderBlocksResurrection(s: seq<Entry>, lat: real, lng: real, id: int, now: int,
                                      later: int, item: Sighting, sc: Scan)
    requires sc.Ok()
    requires FakeEntry(lat, lng, id, now) in s
    requires later <= now + ValidityWindowSeconds
    requires item.pokemonId == id
    requires item.Id() == UniqueId(id, lat, lng) || sc.dist(lat, lng, item.latitude, item.longitude) < DedupeRadius
    ensures FakeEntry(lat, lng, id, now) in Sweep(s, later)
    ensures Step(Sweep(s, later), item, sc) == Sweep(s, later)
  {
  }

  /** The placeholder as the source builds it: `created` is computed from
      DateTime.Now.Ticks, which counts LOCAL wall-clock time, while the
      `expired` getter reads `created` as UTC seconds and converts to local
      time. In UTC terms its expiry is shifted by the UTC offset (seconds,
      local minus UTC). */
  function FakeEntryAsWritten(lat: real, lng: real, id: int, now: int, utcOffset: int): (e: Entry)
    ensures e.Id() == UniqueId(id, lat, lng) && e.visited && e.fake
    ensures e.Expiry() == now + utcOffset + ValidityWindowSeconds
  {
    Entry(id, lat, lng, now + utcOffset, 0.0, 0.0, true, true, FakePolicy)
  }

  /** At UTC-5 the placeholder as written is already expired when it is
      added: the very next sweep drops it, and a re-fetched sighting of the
      same watched species at the same spot is merged back as a new entry. */
  lemma PlaceholderAsWrittenIsSweptAtOnce(lat: real, lng: real, id: int, now: int, item: Sighting, sc: Scan)
    requires sc.Ok()
    requires item.Id() == UniqueId(id, lat, lng)
    requires id in WatchList(sc.settings)
    ensures Sweep([FakeEntryAsWritten(lat, lng, id, now, -5 * 3600)], now) == []
    ensures Step(Sweep([FakeEntryAsWritten(lat, lng, id, now, -5 * 3600)], now), item, sc) == [Admit(item, sc)]
  {
  }
}
