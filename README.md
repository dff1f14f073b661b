# Human-walk snipe queue (NecroBot HumanWalkSnipeTask)

This project models the human-walk snipe task of NecroBot in Dafny. The task
keeps one process-wide queue of rare-Pokémon sightings (`rarePokemons`). It
fills the queue from several public sighting sources and walks the player to
the best sighting. It also answers commands from the GUI: prioritise, target
and remove a sighting, and record a catch made elsewhere.

The model is split into modules:

- `SnipeTypes` holds the values:
  - the sighting a source produces (`Sighting`);
  - the queue entry it becomes (`Entry`), with its distance, walk estimate,
    `visited` and `fake` flags and its own copy of a per-species policy
    (`Policy`, the HumanWalkSnipeFilter);
  - the settings the task reads;
  - the events it sends;
  - C#'s truncating integer division.
- `Feasibility` covers CalculateDistanceAndEstTime.
- `Selection` covers:
  - the `OrderBy(priority).ThenBy(distance)` sort;
  - the expiry sweep;
  - `ApplyFilter`;
  - the choice GetNextSnipeablePokemon makes.
- `Merge` covers the merge loop of PostProcessDataFetched as values. That is
  the dedupe, the watch-list test and the policy attachment. It also covers
  the watch list that InitSession builds.
- `Commands` holds the pure parts of PriorityPokemon, RemovePokemonFromQueue
  and UpdateCatchPokemon.
- `HumanWalkSnipe` holds the class `SnipeTask`. Its fields are the task's
  static fields: the queue, the call counter, the priority flag, the time of
  the last fetch, the player's position and the events sent so far. Its
  methods update those fields in place, as the source does:
  - Execute, with its throttle, gates and do-while pursuit loop;
  - GetNextSnipeablePokemon;
  - FetchData, with its 30-second rate limit and the silent refresh;
  - PostProcessDataFetched;
  - the four commands.
- `Pokecrew` covers the Pokecrew source: how one `seens` item becomes a
  sighting, and what a response yields.

Time is whole epoch seconds, and the current time is a parameter. A sighting
expires 900 seconds after it was created. Coordinates, distances and
estimates are reals. The great-circle distance is a function parameter.

Each of the five sources is reduced to the list it returns. A failed
request gives an empty list. These lists are parameters of FetchData.

Behaviours of the code worth knowing, kept as written:

- The feasibility bounds of GetNextSnipeablePokemon are strict (`<`), not `≤`.
- `ApplyFilter`, which builds the list every event carries, keeps the
  entries that are not visited or fake and whose expiry has already PASSED.
  It does not keep the live ones.
- UpdateCatchPokemon marks EVERY matching unvisited entry within 30 degrees.
  It does not mark only the nearest one.
- The identity key uses the coordinates exactly as fetched. They are not
  rounded.
- A priority of 0 bypasses the distance and walk-time tests. Because C#'s
  `&&` binds tighter than `||`, it also bypasses the expiry test.
- The silent refresh of FetchData (lines 275-284) runs only when FetchData
  is called with `silent` set. The two calls in this file pass `false`
  (line 105) or leave it at its default `false` (line 242), so no caller
  shown here reaches it. The model keeps it as a
  branch of FetchData.

## Model

All source paths are under `PoGo.NecroBot.Logic/Tasks/`.

| member | source | states |
|---|---|---|
| SnipeTypes.TruncDiv | PoGo.NecroBot.Logic/Tasks/HumanWalkSnipeTask.cs:234 | C# integer division: the quotient rounded toward zero, bracketed against the dividend on each side of zero |
| Feasibility.EstimateTime | PoGo.NecroBot.Logic/Tasks/HumanWalkSnipeTask.cs:228-236 | the estimate less the dwell and 15 s margin, times the speed in m/s (the policy's speed-up speed or the walking speed), gives back the distance |
| Feasibility.EstimateMonotone | PoGo.NecroBot.Logic/Tasks/HumanWalkSnipeTask.cs:228-236 | a longer distance never gives a shorter estimate |
| Feasibility.Evaluate | PoGo.NecroBot.Logic/Tasks/HumanWalkSnipeTask.cs:228-236 | the entry's distance is the distance from the player and its estimate is EstimateTime of it; the identity, the creation time, the expiry, the flags and the policy are unchanged |
| Feasibility.EvaluateIdempotent | PoGo.NecroBot.Logic/Tasks/HumanWalkSnipeTask.cs:228-236 | recomputing from the same position changes nothing further |
| Feasibility.EvaluateAll | PoGo.NecroBot.Logic/Tasks/HumanWalkSnipeTask.cs:247 | every entry re-evaluated in place, same length, and every speed stays positive |
| Selection.SortQueue | PoGo.NecroBot.Logic/Tasks/HumanWalkSnipeTask.cs:359 | the result is sorted by (priority, distance) and is a permutation of the queue |
| Selection.Sweep | PoGo.NecroBot.Logic/Tasks/HumanWalkSnipeTask.cs:245 | an entry survives iff it was in the queue and its expiry is not before now; no entry is added |
| Selection.SweepCounts | PoGo.NecroBot.Logic/Tasks/HumanWalkSnipeTask.cs:245 | the sweep keeps every copy of an entry whose expiry is not before now and no copy of any other |
| Selection.SweepAppend | PoGo.NecroBot.Logic/Tasks/HumanWalkSnipeTask.cs:245 | the sweep keeps queue order: sweeping a concatenation is concatenating the sweeps |
| Selection.ApplyFilter | PoGo.NecroBot.Logic/Tasks/HumanWalkSnipeTask.cs:121-127 | an entry is kept iff it is in the queue, neither visited nor fake, and its expiry is before now |
| Selection.ApplyFilterCounts | PoGo.NecroBot.Logic/Tasks/HumanWalkSnipeTask.cs:121-127 | the view keeps every copy of a kept entry and no copy of any other |
| Selection.ApplyFilterAppend | PoGo.NecroBot.Logic/Tasks/HumanWalkSnipeTask.cs:121-127 | the view keeps queue order: the view of a concatenation is the concatenation of the views |
| Selection.ApplyFilterAfterSweepIsEmpty | PoGo.NecroBot.Logic/Tasks/HumanWalkSnipeTask.cs:121-127 | the view ApplyFilter gives of a queue swept at the same instant is always empty |
| Selection.SelectNext | PoGo.NecroBot.Logic/Tasks/HumanWalkSnipeTask.cs:250-268 | None iff no entry qualifies; otherwise a qualifying entry that no qualifying entry sorts strictly before, and the first such entry in list order |
| Selection.ForcedEntryIsSelectable | PoGo.NecroBot.Logic/Tasks/HumanWalkSnipeTask.cs:252-261 | if a live entry has priority 0, selection returns some entry of priority 0 or less, whatever the distances, estimates and expiries |
| Merge.WatchList | PoGo.NecroBot.Logic/Tasks/HumanWalkSnipeTask.cs:109-119 | a species is watched iff it is in the snipe list (when that list is used) or has a filter |
| Merge.PolicyFor | PoGo.NecroBot.Logic/Tasks/HumanWalkSnipeTask.cs:338-353 | the first filter configured for the species, or else the policy built from the global settings with priority 3 |
| Merge.Admit | PoGo.NecroBot.Logic/Tasks/HumanWalkSnipeTask.cs:338-357 | the new entry keeps the sighting's identity and creation time, is live, carries its species' policy with a positive speed, and duplicates its sighting; its distance is the distance from the player to the sighting and its estimate is EstimateTime of that distance |
| Merge.Merged | PoGo.NecroBot.Logic/Tasks/HumanWalkSnipeTask.cs:326-358 | the old queue is a prefix of the merged one |
| Merge.MergedPrefix | PoGo.NecroBot.Logic/Tasks/HumanWalkSnipeTask.cs:326-358 | merging a prefix of the batch gives a prefix of merging the whole batch: later sightings only append |
| Merge.MergedAdmitsInOrder | PoGo.NecroBot.Logic/Tasks/HumanWalkSnipeTask.cs:326-357 | a watched sighting that duplicates nothing merged before it is admitted at the next position, so additions follow batch order |
| Merge.MergedFirstWins | PoGo.NecroBot.Logic/Tasks/HumanWalkSnipeTask.cs:326-357 | of two duplicate sightings in one batch, the first is admitted and the later one adds nothing |
| Merge.MergedAdditions | PoGo.NecroBot.Logic/Tasks/HumanWalkSnipeTask.cs:326-357 | every added entry is live, of a watched species, and carries PolicyFor its species; no entry before it in the queue duplicates it |
| Merge.MergedComesFromBatch | PoGo.NecroBot.Logic/Tasks/HumanWalkSnipeTask.cs:326-358 | at most one entry is added per fetched sighting, and each added entry comes from a sighting of the batch |
| Merge.MergedCoversBatch | PoGo.NecroBot.Logic/Tasks/HumanWalkSnipeTask.cs:326-358 | after the merge, every watched sighting of the batch has a duplicate in the queue, whether it was added or skipped |
| Merge.MergeTwiceAddsNothing | PoGo.NecroBot.Logic/Tasks/HumanWalkSnipeTask.cs:326-359 | merging the same batch again into the merged and re-sorted queue adds nothing |
| Commands.FindEntry | PoGo.NecroBot.Logic/Tasks/HumanWalkSnipeTask.cs:417 | None iff no entry has the uniqueId; otherwise the first index that has it |
| Commands.Prioritized | PoGo.NecroBot.Logic/Tasks/HumanWalkSnipeTask.cs:413-423 | the first entry with the uniqueId gets priority 0 in its own policy copy; every other field and every other entry is unchanged; a missing id changes nothing |
| Commands.PrioritizedIsSelectable | PoGo.NecroBot.Logic/Tasks/HumanWalkSnipeTask.cs:413-423 | once a live entry is prioritised, the next selection returns an entry of priority 0 or less |
| Commands.SoftRemoved | PoGo.NecroBot.Logic/Tasks/HumanWalkSnipeTask.cs:490-506 | the first entry with the uniqueId is marked visited and keeps its place; every other entry is unchanged; a missing id changes nothing |
| Commands.SoftRemovedStaysKnown | PoGo.NecroBot.Logic/Tasks/HumanWalkSnipeTask.cs:494-497 | a removed entry no longer qualifies for selection, yet a re-fetch of the same sighting is still not merged back |
| Commands.MarkCaught | PoGo.NecroBot.Logic/Tasks/HumanWalkSnipeTask.cs:452-471 | each entry that matches the catch (species, within 30 degrees on both axes, unvisited) is marked visited, the rest are unchanged, and nothing matches afterwards |
| Commands.FakeEntry | PoGo.NecroBot.Logic/Tasks/HumanWalkSnipeTask.cs:475-487 | the placeholder has the catch's identity, is visited and fake, and expires one validity window after now |
| Commands.PlaceholderBlocksResurrection | PoGo.NecroBot.Logic/Tasks/HumanWalkSnipeTask.cs:473-487 | within its window the placeholder survives the sweep, and a fetched sighting of the species at the same id or within 10 m is not merged back |
| Commands.FakeEntryAsWritten | PoGo.NecroBot.Logic/Tasks/HumanWalkSnipeTask.cs:484 | the placeholder as written: its UTC expiry is shifted by the local UTC offset |
| Commands.PlaceholderAsWrittenIsSweptAtOnce | PoGo.NecroBot.Logic/Tasks/HumanWalkSnipeTask.cs:484 | at UTC-5 the placeholder as written is swept at once, and the sighting it should block is merged back |
| HumanWalkSnipe.ThrottleCountsCalls | PoGo.NecroBot.Logic/Tasks/HumanWalkSnipeTask.cs:131-134 | after k calls the counter is (c + k) mod 3, so without a priority request Execute gets past the throttle on exactly every third call |
| HumanWalkSnipe.FetchCoversBatch | PoGo.NecroBot.Logic/Tasks/HumanWalkSnipeTask.cs:286-306 | after a fetch round every watched sighting fetched has a duplicate in the new queue |
| HumanWalkSnipe.SelectionAddsNoUnvisited | PoGo.NecroBot.Logic/Tasks/HumanWalkSnipeTask.cs:245-247 | without a fetch, selection never raises the number of unvisited entries |
| HumanWalkSnipe.FetchKeepsVisited | PoGo.NecroBot.Logic/Tasks/HumanWalkSnipeTask.cs:271-306 | a fetch round keeps every visited entry that is still inside its window |
| HumanWalkSnipe.SweepEvaluateKeepsVisited | PoGo.NecroBot.Logic/Tasks/HumanWalkSnipeTask.cs:245-247 | the sweep and the re-evaluation keep every visited entry that is still inside its window |
| HumanWalkSnipe.SnipeTask.constructor | PoGo.NecroBot.Logic/Tasks/HumanWalkSnipeTask.cs:66-72 | the queue is empty, the counter is 0, the flag is down, and lastUpdated is ten minutes in the past |
| HumanWalkSnipe.SnipeTask.CheckPokeballsToSnipe | PoGo.NecroBot.Logic/Tasks/HumanWalkSnipeTask.cs:74-97 | ok iff the four ball counts sum to at least the minimum; otherwise exactly one NotEnoughPokeballs event with the sum and the minimum |
| HumanWalkSnipe.SnipeTask.RecomputeAll | PoGo.NecroBot.Logic/Tasks/HumanWalkSnipeTask.cs:247 | the in-place loop leaves the queue equal to EvaluateAll of the old queue |
| HumanWalkSnipe.SnipeTask.MergeBatch | PoGo.NecroBot.Logic/Tasks/HumanWalkSnipeTask.cs:324-358 | the in-place loop leaves the queue equal to Merged of the old queue, and the count is the number of entries added |
| HumanWalkSnipe.SnipeTask.PostProcessDataFetched | PoGo.NecroBot.Logic/Tasks/HumanWalkSnipeTask.cs:320-378 | the queue becomes the sorted merge; PokemonScanned is sent iff something was added |
| HumanWalkSnipe.SnipeTask.FetchData | PoGo.NecroBot.Logic/Tasks/HumanWalkSnipeTask.cs:271-306 | a round that is not silent and comes within 30 s of the last changes nothing; otherwise lastUpdated is now, the queue is the sorted merge of the fetched batch (the five sources at the player, then Pokeradar and Skiplagged at the default location when it is included and over 1000 m away) into the refreshed queue, ClientRequestUpdate is sent iff the refresh ran and PokemonScanned iff the merge added something, and every watched sighting fetched is in the new queue or duplicated there |
| HumanWalkSnipe.SnipeTask.FetchRound | PoGo.NecroBot.Logic/Tasks/HumanWalkSnipeTask.cs:275-305 | lastUpdated is now; the queue and the events are those FetchData states for a round past the rate limit |
| HumanWalkSnipe.SnipeTask.RefreshIfDue | PoGo.NecroBot.Logic/Tasks/HumanWalkSnipeTask.cs:275-284 | the refresh runs iff the round is silent, the last fetch is over 30 s old and the queue is not empty; ClientRequestUpdate is sent iff it ran |
| HumanWalkSnipe.SnipeTask.RefreshForClient | PoGo.NecroBot.Logic/Tasks/HumanWalkSnipeTask.cs:275-284 | the queue is re-evaluated and re-sorted, and one ClientRequestUpdate is sent with its view |
| HumanWalkSnipe.SnipeTask.SweepAndEvaluate | PoGo.NecroBot.Logic/Tasks/HumanWalkSnipeTask.cs:245-247 | the queue becomes EvaluateAll of the swept queue, and no entry in it has expired |
| HumanWalkSnipe.SnipeTask.GetNextSnipeablePokemon | PoGo.NecroBot.Logic/Tasks/HumanWalkSnipeTask.cs:238-269 | the result is SelectNext of the new queue; the new queue is the old one, fetched into when asked and not rate-limited, then swept and re-evaluated; no entry has expired; a fetch stamps lastUpdated and sends FetchData's events, and otherwise both are unchanged (SelectionStamp, SelectionEvents); visited entries still inside their window stay |
| HumanWalkSnipe.SnipeTask.Pursue | PoGo.NecroBot.Logic/Tasks/HumanWalkSnipeTask.cs:156-216 | the entry is re-evaluated, StartWalking and DestinationReached (with the dwell in whole seconds) are sent in order, the player ends at the sighting, and the entry is marked visited in place |
| HumanWalkSnipe.SnipeTask.PursueSelected | PoGo.NecroBot.Logic/Tasks/HumanWalkSnipeTask.cs:153-218 | nothing is pursued iff nothing was selected, and then the queue, the events and the position are unchanged; otherwise the queue and events are Pursue's on the selected entry (PursuedQueue, PursuedEvents), the player ends at it, its id is returned and it ends visited; no other entry becomes visited and none is lost; one unvisited entry is used up |
| HumanWalkSnipe.SnipeTask.PursuitRound | PoGo.NecroBot.Logic/Tasks/HumanWalkSnipeTask.cs:151-218 | the flag is cleared; the pursued sighting is the one SelectNext picks from the selection queue, and there is one iff SelectNext finds one; the new queue, events, lastUpdated and position are GetNextSnipeablePokemon's followed by the pursuit's (the queue unchanged, no pursuit events and the player not moved when nothing is picked); an entry ends visited only if it was visited before or is the pursued one, and no entry still inside its window is lost; a pursued sighting ends up visited; visited entries stay; without a fetch a round uses up one unvisited entry per pursuit and adds none |
| HumanWalkSnipe.SnipeTask.PursuitLoop | PoGo.NecroBot.Logic/Tasks/HumanWalkSnipeTask.cs:147-220 | the priority flag is cleared; the first pursued sighting is SelectNext's pick from the fetched, swept queue, and nothing is pursued iff there is none; the loop ends with nothing left to select when nothing was pursued or catch-em-all is on; without catch-em-all at most one sighting is pursued; every pursued sighting ends the loop visited in the queue; only the first round stamps lastUpdated; an entry ends visited only if it was visited before or was pursued, and no entry still inside its window is lost |
| HumanWalkSnipe.SnipeTask.RepeatRounds | PoGo.NecroBot.Logic/Tasks/HumanWalkSnipeTask.cs:149-220 | the loop terminates; it runs only after a pursuit with catch-em-all on (otherwise nothing changes), and then stops only when nothing is left to select; lastUpdated is not touched; an entry ends visited only if it was visited before the first round or pursued since, and no entry still inside its window is lost; visited entries stay and every sighting it pursues ends visited |
| HumanWalkSnipe.SelectionFaithful | PoGo.NecroBot.Logic/Tasks/HumanWalkSnipeTask.cs:238-269 | selection marks nothing visited: every visited entry of the selection queue stands for a sighting visited before; and no entry still inside its window is lost |
| HumanWalkSnipe.SweepFaithful | PoGo.NecroBot.Logic/Tasks/HumanWalkSnipeTask.cs:245 | the sweep marks nothing visited and keeps every entry still inside its window |
| HumanWalkSnipe.PursuedFaithful | PoGo.NecroBot.Logic/Tasks/HumanWalkSnipeTask.cs:153-216 | a pursuit marks only the picked entry visited and keeps every entry |
| HumanWalkSnipe.SnipeTask.Execute | PoGo.NecroBot.Logic/Tasks/HumanWalkSnipeTask.cs:129-226 | the counter advances mod 3; each outcome (throttled, catching disabled, not enough balls, walked) holds iff its gate is the first to stop the call or every gate passes, the catching and ball gates applying only without a priority request; when walked, the first sighting is SelectNext's pick from the fetched queue and nothing is pursued iff there is none, the loop leaves nothing to select when nothing was pursued or catch-em-all is on, only the pursued sightings become visited, no entry still inside its window is lost, and walk-back is requested iff something was pursued and always-walk-back is off; a stopped call leaves the queue, flag, lastUpdated and position unchanged, sends nothing when throttled or catching is disabled, and sends exactly NotEnoughPokeballs (ball total, minimum) when the ball gate stops it |
| HumanWalkSnipe.SnipeTask.PriorityPokemon | PoGo.NecroBot.Logic/Tasks/HumanWalkSnipeTask.cs:413-423 | the queue becomes Prioritized of the old queue |
| HumanWalkSnipe.SnipeTask.TargetPokemonSnip | PoGo.NecroBot.Logic/Tasks/HumanWalkSnipeTask.cs:430-447 | the flag is raised in every case; if the id exists the queue is the re-sorted Prioritized queue and TargetedPokemon is sent; otherwise nothing else changes |
| HumanWalkSnipe.SnipeTask.RemovePokemonFromQueue | PoGo.NecroBot.Logic/Tasks/HumanWalkSnipeTask.cs:490-506 | if the id exists the queue is the re-sorted SoftRemoved queue and QueueUpdated is sent; otherwise nothing changes |
| HumanWalkSnipe.SnipeTask.MarkCatches | PoGo.NecroBot.Logic/Tasks/HumanWalkSnipeTask.cs:451-471 | the in-place loop leaves the queue equal to MarkCaught, reports whether anything matched, and sends one EncounterSnipePokemon per match in order |
| HumanWalkSnipe.SnipeTask.UpdateCatchPokemon | PoGo.NecroBot.Logic/Tasks/HumanWalkSnipeTask.cs:449-488 | matches are marked; a placeholder is appended iff nothing matched and the species is watched |
| Pokecrew.Map | PoGo.NecroBot.Logic/Tasks/HumanWalkSnipeTask.Pokecrew.cs:28-42 | None iff moving the expiry back 15 minutes passes DateTime.MinValue; otherwise the fields are copied and the sighting's expiry equals the item's to the second |
| Pokecrew.MapItemOf | PoGo.NecroBot.Logic/Tasks/HumanWalkSnipeTask.Pokecrew.cs:28-42 | a sighting published with its expiry maps back to itself |
| Pokecrew.FetchFromPokecrew | PoGo.NecroBot.Logic/Tasks/HumanWalkSnipeTask.Pokecrew.cs:44-72 | a failed download, malformed JSON or a null list gives []; otherwise the result is the items mapped in order, up to the first item that is null or whose Map throws |

## Left out

- The HTTP requests, the JSON parsing, the request URL and its bounding-box
  offset are not modelled. The Pokecrew response comes in already parsed.
- FetchFromPokeradar, FetchFromSkiplagged, FetchFromPokesnipers and
  FetchFromPokeZZ are not part of this model. Their results are parameters.
- The concurrency is not modelled: `Task.Run`, `Task.WaitAll`, and commands
  that interleave with the pursuit loop. The model runs one operation at a
  time, and the re-check of `visited` after the dwell (line 211) is dropped.
- Great-circle geometry and `LocationUtils` are a distance-function
  parameter.
- Floating point is modelled as reals. The infinite estimate of a zero walk
  speed is not modelled. Settings whose speeds are all positive are a class
  invariant.
- Time zones and `ToLocalTime` are not modelled. Only their effect on the
  placeholder is modelled (see Findings).
- The clock is read once per Execute call and passed in as `now`.
- Cancellation tokens are not modelled.
- `Navigation.Move` is taken to arrive at the sighting. Its callback is
  opaque.
- CatchNearbyPokemonsTask, CatchIncensePokemonsTask, the `actionWhenWalking`
  and `afterCatchFunc` callbacks and the dwell delay are opaque. Execute
  returns whether `afterCatchFunc` would be called.
- The catch and spin heuristics of the loop (lines 157-163) only feed those
  opaque collaborators and one event field. The same holds for the
  `catching` flag.
- The console table of PostProcessDataFetched is display output. So is the
  `displayList` parameter that gates it.
- The "troll data" grouping loop has an empty body.
- The translation strings are not modelled.
- The JSON `Clone` of a policy is modelled as a value copy, so no alias
  between entries and settings can exist. Object identity of entries is not
  modelled; entries are values.
- `uniqueId` is modelled as the triple (species, latitude, longitude), not
  its string rendering. Two different coordinates that format to the same
  text are not merged.
- UnixTimeStampToDateTime and GetCurrentQueueItems only read or convert,
  and ExecuteFetchData is FetchData started on another task. None of them is
  modelled separately.
- The HumanWalkSnipeFilter class and its constructor are not part of this
  model. The placeholder's filter (line 485) passes seven arguments where
  line 340 passes eight. `FakePolicy` takes the eighth, the dwell, as 0,
  the default the constructor is assumed to give. The sort reads its
  priority 100, and re-evaluation reads its speed-up flag and dwell.
- HumanWalkSnipe.SnipeTask.UpdateCatchPokemon: appends the corrected
  placeholder (`FakeEntry`, created at UTC `now`), not the one as written;
  the Findings table gives the as-written one and what it breaks.
- HumanWalkSnipe.SnipeTask.UpdateCatchPokemon: a call before InitSession
  fails, because `_session` and `pokemonToBeSnipedIds` are still null
  (lines 66 and 69). When an entry matches, the first match is marked
  visited and then `_session.EventDispatcher` throws a
  NullReferenceException at line 461. When nothing matches, `Any` on the
  null list throws an ArgumentNullException at line 475. The model's watch
  list and event sink exist from construction, so neither failure is
  modelled.
- Merge.WatchList: when the snipe list is used, InitSession appends the
  filter species to the settings' own PokemonToSnipe list, in place
  (lines 115-116), so the settings object changes. Settings are immutable
  values here; the watch list is the same, but that side effect is not
  modelled.
- Events carry only the fields the model tracks. StartWalking drops the
  expiry, estimate, setting, catch and speed fields.
- Selection.SortQueue: stability of the sort is not stated. Stability shows
  only in the first-in-list-order clause of SelectNext.
- HumanWalkSnipe.SnipeTask.PursuitLoop: ties only the first pursued
  sighting to a selection queue. Later ones are each SelectNext's pick
  (PursuitRound) but the loop does not list those queues, the final queue,
  the events or the final position.
- HumanWalkSnipe.SnipeTask.RepeatRounds: states which entries may become
  visited, that none inside its window is lost and that lastUpdated is
  untouched, but not the per-round selection queues, the events or the
  final position; each round's are stated by PursuitRound.
- HumanWalkSnipe.SnipeTask.Execute: when something was walked, it states
  the gates, the first pick, which entries may become visited, lastUpdated
  and the walk-back decision, but not the final queue, the events or the
  final position.

## Findings

| source | as written | input that shows it | evidently intended | confidence | as-written member | corrected member |
|---|---|---|---|---|---|---|
| PoGo.NecroBot.Logic/Tasks/HumanWalkSnipeTask.cs:484 | the placeholder's `created` is computed from `DateTime.Now.Ticks`, which counts local wall-clock time, while the `expired` getter (lines 55-63) reads `created` as UTC epoch seconds | a catch recorded on a machine at UTC-5: the placeholder expires five hours before it is created, the next sweep drops it, and the next fetch merges the same sighting back as a live entry | `created` in UTC epoch seconds, so the placeholder blocks the sighting for its 15-minute window | not executed | Commands.PlaceholderAsWrittenIsSweptAtOnce | Commands.PlaceholderBlocksResurrection |
