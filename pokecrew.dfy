/** The Pokecrew source: how one "seens" item becomes a sighting, and how a
    response becomes the list of sightings this source contributes. */
module Pokecrew {
  import opened SnipeTypes
  import opened Seqs

  /** .NET DateTime ticks: 100 ns units counted from 0001-01-01. */
  const TicksPerSecond: int := 10_000_000
  const UnixEpochTicks: int := 621_355_968_000_000_000
  const MaxTicks: int := 3_155_378_975_999_999_999

  /** AddMinutes(-15) in ticks. */
  const FifteenMinutesTicks: int := 15 * 60 * TicksPerSecond

  type Ticks = t: int | 0 <= t <= MaxTicks

  /** One element of `seens`; the JSON date is already parsed to ticks. */
  datatype PokecrewItem = PokecrewItem(latitude: real, longitude: real, pokemonId: int, expiresAt: Ticks)

  /** What the download and the JSON parse produced. `Parsed(None)` stands
      for a document whose root or whose `seens` list is null; a `None`
      element of the list is a null item. */
  datatype Response =
    | DownloadFailed
    | MalformedJson
    | Parsed(seens: Option<seq<Option<PokecrewItem>>>)

  /** Map: the sighting's `created` is the expiry moved back by the validity
      window, as whole seconds since the Unix epoch (C# `long` division
      truncates toward zero). Moving the expiry before DateTime.MinValue
      throws; that is None here. */
  function Map(item: PokecrewItem): (r: Option<Sighting>)
    ensures r.None? <==> item.expiresAt < FifteenMinutesTicks
    ensures r.Some? ==>
      && r.value.latitude == item.latitude
      && r.value.longitude == item.longitude
      && r.value.pokemonId == item.pokemonId
    // the sighting's expiry is the item's, to the second: rounded down
    // after the epoch, up before it
    ensures r.Some? && item.expiresAt - FifteenMinutesTicks >= UnixEpochTicks ==>
      r.value.Expiry() * TicksPerSecond <= item.expiresAt - UnixEpochTicks < r.value.Expiry() * TicksPerSecond + TicksPerSecond
    ensures r.Some? && item.expiresAt - FifteenMinutesTicks < UnixEpochTicks ==>
      r.value.Expiry() * TicksPerSecond - TicksPerSecond < item.expiresAt - UnixEpochTicks <= r.value.Expiry() * TicksPerSecond
  {
    if item.expiresAt - FifteenMinutesTicks < 0 then None
    else
      var unixTime := TruncDiv(item.expiresAt - FifteenMinutesTicks - UnixEpochTicks, TicksPerSecond);
      Some(Sighting(item.pokemonId, item.latitude, item.longitude, unixTime))
  }

  /** The item a sighting is published as: its expiry in ticks. */
  function ItemOf(s: Sighting): PokecrewItem
    requires 0 <= UnixEpochTicks + s.Expiry() * TicksPerSecond <= MaxTicks
  {
    PokecrewItem(s.latitude, s.longitude, s.pokemonId, UnixEpochTicks + s.Expiry() * TicksPerSecond)
  }

  /** Round trip: a sighting published with its expiry comes back unchanged,
      provided the expiry lies at least the validity window after
      DateTime.MinValue. */
  lemma MapItemOf(s: Sighting)
    requires FifteenMinutesTicks <= UnixEpochTicks + s.Expiry() * TicksPerSecond <= MaxTicks
    ensures Map(ItemOf(s)) == Some(s)
  {
  }

  /** Map applied to one element of `seens`: a null item throws on its first
      field access, like an expiry before DateTime.MinValue. */
  function MapSeen(item: Option<PokecrewItem>): Option<Sighting>
  {
    if item.None? then None else Map(item.value)
  }

  /** FetchFromPokecrew. The result list lives outside the try block, so an
      item that is null or whose Map throws ends the loop but keeps the sightings mapped
      before it; a failed download, malformed JSON or a null list give the
      empty list. */
  method FetchFromPokecrew(response: Response) returns (results: seq<Sighting>)
    ensures !response.Parsed? || response.seens.None? ==> results == []
    ensures response.Parsed? && response.seens.Some? ==>
      var seens := response.seens.value;
      && |results| <= |seens|
      && (forall k :: 0 <= k < |results| ==> MapSeen(seens[k]) == Some(results[k]))
      && (|results| < |seens| ==> MapSeen(seens[|results|]).None?)
  {
    results := [];
    if !response.Parsed? || response.seens.None? {
      return;
    }
    var seens := response.seens.value;
    var i := 0;
    while i < |seens|
      invariant 0 <= i <= |seens| && |results| == i
      invariant forall k :: 0 <= k < i ==> MapSeen(seens[k]) == Some(results[k])
    {
      var pItem := MapSeen(seens[i]);
      if pItem.None? {
        // a null item or AddMinutes throws: caught, and what was collected is returned
        return;
      }
      results := results + [pItem.value];
      i := i + 1;
    }
  }
}
