/** CalculateDistanceAndEstTime: the distance from the player to a queued
    sighting and the seconds needed to walk there and dwell. */
module Feasibility {
  import opened SnipeTypes

  /** Great-circle distance in metres between (lat1, lng1) and (lat2, lng2).
      The geometry is not modelled: callers pass the function in. */
  type Distance = (real, real, real, real) -> real

  /** Seconds added to every estimate on top of the dwell time. */
  const SafetyMarginSeconds: real := 15.0

  /** The speed (km/h) the walk to `p`'s sighting uses: the policy's speed-up
      speed when it allows speeding up, else the configured walking speed. */
  function WalkSpeed(p: Policy, walkingSpeed: real): real
  {
    if p.allowSpeedUp then p.maxSpeedUpSpeed else walkingSpeed
  }

  predicate SpeedOk(p: Policy, walkingSpeed: real)
  {
    WalkSpeed(p, walkingSpeed) > 0.0
  }

  /** Dwell time in whole seconds (C# int division of the milliseconds) plus
      the safety margin. */
  function Overhead(p: Policy): real
  {
    TruncDiv(p.delayTimeAtDestination, 1000) as real + SafetyMarginSeconds
  }

  /** The estimate: walking time at the policy's speed plus the overhead. */
  function EstimateTime(distance: real, p: Policy, walkingSpeed: real): (t: real)
    requires SpeedOk(p, walkingSpeed)
    ensures (t - Overhead(p)) * (WalkSpeed(p, walkingSpeed) / 3.6) == distance
  {
    distance / (WalkSpeed(p, walkingSpeed) / 3.6) + Overhead(p)
  }

  /** A longer walk never takes less time. */
  lemma EstimateMonotone(d1: real, d2: real, p: Policy, walkingSpeed: real)
    requires SpeedOk(p, walkingSpeed)
    requires d1 <= d2
    ensures EstimateTime(d1, p, walkingSpeed) <= EstimateTime(d2, p, walkingSpeed)
  {
  }

  /** CalculateDistanceAndEstTime on one entry, for the player at (lat, lng). */
  function Evaluate(e: Entry, lat: real, lng: real, walkingSpeed: real, dist: Distance): (r: Entry)
    requires SpeedOk(e.policy, walkingSpeed)
    ensures r.distance == dist(lat, lng, e.latitude, e.longitude)
    ensures r.estimateTime == EstimateTime(r.distance, e.policy, walkingSpeed)
    // the identity, the derived expiry and every flag stay as they were
    ensures r.Id() == e.Id() && r.created == e.created && r.Expiry() == e.Expiry()
    ensures r.visited == e.visited && r.fake == e.fake && r.policy == e.policy
  {
    var d := dist(lat, lng, e.latitude, e.longitude);
    e.(distance := d, estimateTime := EstimateTime(d, e.policy, walkingSpeed))
  }

  /** Recomputing from the same position changes nothing further. */
  lemma EvaluateIdempotent(e: Entry, lat: real, lng: real, walkingSpeed: real, dist: Distance)
    requires SpeedOk(e.policy, walkingSpeed)
    ensures Evaluate(Evaluate(e, lat, lng, walkingSpeed, dist), lat, lng, walkingSpeed, dist)
         == Evaluate(e, lat, lng, walkingSpeed, dist)
  {
  }

  predicate AllSpeedOk(s: seq<Entry>, walkingSpeed: real)
  {
    forall i :: 0 <= i < |s| ==> SpeedOk(s[i].policy, walkingSpeed)
  }

  /** Replacing one entry by one with a usable speed keeps every speed usable. */
  lemma ReplaceKeepsSpeedOk(s: seq<Entry>, i: nat, x: Entry, walkingSpeed: real)
    requires AllSpeedOk(s, walkingSpeed) && i < |s| && SpeedOk(x.policy, walkingSpeed)
    ensures AllSpeedOk(s[i := x], walkingSpeed)
  {
  }

  /** `ForEach(CalculateDistanceAndEstTime)` as a value: every entry
      re-evaluated for the player at (lat, lng). */
  function EvaluateAll(s: seq<Entry>, lat: real, lng: real, walkingSpeed: real, dist: Distance): (r: seq<Entry>)
    requires AllSpeedOk(s, walkingSpeed)
    ensures |r| == |s|
    ensures forall i :: 0 <= i < |s| ==> r[i] == Evaluate(s[i], lat, lng, walkingSpeed, dist)
    ensures AllSpeedOk(r, walkingSpeed)
  {
    seq(|s|, i requires 0 <= i < |s| => Evaluate(s[i], lat, lng, walkingSpeed, dist))
  }
}
