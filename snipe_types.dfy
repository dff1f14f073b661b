/** Values shared by every part of the human-walk snipe queue: the sighting a
    source adapter produces, the queue entry it becomes, the per-species
    policy attached to an entry, the bot settings the task reads, and the
    events it sends. Time is whole epoch seconds; coordinates and distances
    are reals (the source uses doubles). */
module SnipeTypes {

  /** A sighting stays catchable for 15 minutes after it was created. */
  const ValidityWindowSeconds: int := 15 * 60

  /** `uniqueId` is the text "{pokemonId}-{latitude}-{longitude}"; the model
      keeps its three parts as a tuple-like key. */
  datatype UniqueId = UniqueId(pokemonId: int, latitude: real, longitude: real)

  /** A HumanWalkSnipeFilter: the policy that governs one queued sighting. */
  datatype Policy = Policy(
    maxDistance: real,
    maxWalkTimes: real,
    priority: int,
    catchPokemonWhileWalking: bool,
    spinPokestopWhileWalking: bool,
    allowSpeedUp: bool,
    maxSpeedUpSpeed: real,       // km/h
    delayTimeAtDestination: int  // milliseconds
  )

  /** What a source adapter hands to the merge: a RarePokemonInfo as fetched,
      which is not visited, not fake and has no policy yet. */
  datatype Sighting = Sighting(pokemonId: int, latitude: real, longitude: real, created: int)
  {
    function Id(): UniqueId { UniqueId(pokemonId, latitude, longitude) }
    function Expiry(): int { created + ValidityWindowSeconds }
  }

  /** A RarePokemonInfo once it sits in the queue. */
  datatype Entry = Entry(
    pokemonId: int,
    latitude: real,
    longitude: real,
    created: int,
    distance: real,      // metres from the player, as last computed
    estimateTime: real,  // seconds, as last computed
    visited: bool,
    fake: bool,
    policy: Policy
  )
  {
    function Id(): UniqueId { UniqueId(pokemonId, latitude, longitude) }
    /** The `expired` getter: derived from `created` alone. */
    function Expiry(): int { created + ValidityWindowSeconds }
    function Priority(): int { policy.priority }
    /** Neither visited nor a fake placeholder: the entry may still be pursued. */
    predicate Live() { !visited && !fake }
  }

  /** The logic settings the task reads. */
  datatype Settings = Settings(
    walkingSpeed: real,                 // WalkingSpeedInKilometerPerHour
    catchPokemon: bool,                 // CatchPokemon
    maxDistance: real,                  // HumanWalkingSnipeMaxDistance
    maxEstimateTime: real,              // HumanWalkingSnipeMaxEstimateTime
    tryCatchEmAll: bool,                // HumanWalkingSnipeTryCatchEmAll
    catchEmAllMinBalls: int,            // HumanWalkingSnipeCatchEmAllMinBalls
    spinWhileWalking: bool,             // HumanWalkingSnipeSpinWhileWalking
    allowSpeedUp: bool,                 // HumanWalkingSnipeAllowSpeedUp
    maxSpeedUpSpeed: real,              // HumanWalkingSnipeMaxSpeedUpSpeed
    delayTimeAtDestination: int,        // HumanWalkingSnipeDelayTimeAtDestination
    alwaysWalkBack: bool,               // HumanWalkingSnipeAlwaysWalkBack
    includeDefaultLocation: bool,       // HumanWalkingSnipeIncludeDefaultLocation
    defaultLatitude: real,
    defaultLongitude: real,
    useSnipePokemonList: bool,          // HumanWalkingSnipeUseSnipePokemonList
    pokemonToSnipe: seq<int>,           // PokemonToSnipe.Pokemon
    filters: seq<(int, Policy)>         // HumanWalkSnipeFilters, in configuration order
  )

  /** HumanWalkSnipeEvent, reduced to its type and the fields the model tracks. */
  datatype Event =
    | NotEnoughPokeballs(currentBalls: int, minBallsToSnipe: int)
    | PokemonScanned(pokemons: seq<Entry>)
    | ClientRequestUpdate(pokemons: seq<Entry>)
    | TargetedPokemon(pokemons: seq<Entry>)
    | QueueUpdated(pokemons: seq<Entry>)
    | EncounterSnipePokemon(uniqueId: UniqueId, pokemonId: int, latitude: real, longitude: real)
    | StartWalking(pokemonId: int, latitude: real, longitude: real, distance: real, pokemons: seq<Entry>)
    | DestinationReached(latitude: real, longitude: real, pauseDuration: int)

  /** C#'s integer division, which truncates toward zero (Dafny's `/` floors
      for a positive divisor). */
  function TruncDiv(a: int, b: int): (q: int)
    requires b > 0
    ensures a >= 0 ==> q * b <= a < q * b + b
    ensures a < 0 ==> q * b - b < a <= q * b
  {
    if a >= 0 then
      var p, r := a / b, a % b;
      assert a == p * b + r && 0 <= r < b;
      p
    else
      var p, r := (-a) / b, (-a) % b;
      assert -a == p * b + r && 0 <= r < b;
      assert (-p) * b == -(p * b);
      -p
  }
}
