/**
  Referential integrity of the store as the handlers keep it: serial ids,
  every reading and configuration owned by a known device, and exactly
  one alert for every reading whose status is a crossing status.
*/
module Integrity {
  import opened Store
  import opened Thresholds

  /** Ids of the readings with a crossing status, in insertion order. */
  function CrossingIds(readings: seq<Reading>): (ids: seq<nat>)
    ensures |ids| <= |readings|
    ensures forall x :: x in ids <==> exists i :: 0 <= i < |readings| && readings[i].id == x && IsCrossing(readings[i].status)
  {
    if |readings| == 0 then []
    else
      var last := readings[|readings| - 1];
      var earlier := readings[..|readings| - 1];
      assert forall i :: 0 <= i < |earlier| ==> earlier[i] == readings[i];
      CrossingIds(earlier) + (if IsCrossing(last.status) then [last.id] else [])
  }

  /** The reading each alert points at, in insertion order. */
  function AlertedIds(alerts: seq<Alert>): (ids: seq<nat>)
    ensures |ids| == |alerts|
    ensures forall i :: 0 <= i < |alerts| ==> ids[i] == alerts[i].readingId
  {
    seq(|alerts|, i requires 0 <= i < |alerts| => alerts[i].readingId)
  }

  /** The alert points at an existing reading of the same device, with the kind and time of that reading. */
  ghost predicate AlertMatchesReading(readings: seq<Reading>, a: Alert)
  {
    && 1 <= a.readingId <= |readings|
    && var r := readings[a.readingId - 1];
       && r.deviceId == a.deviceId
       && IsCrossing(r.status)
       && a.kind == KindOf(r.status)
       && a.createdAt == r.createdAt
  }

  ghost predicate Valid(s: Store)
  {
    && (forall i :: 0 <= i < |s.readings| ==> s.readings[i].id == i + 1)
    && (forall i :: 0 <= i < |s.alerts| ==> s.alerts[i].id == i + 1)
    && (forall i :: 0 <= i < |s.readings| ==> s.readings[i].deviceId in s.devices)
    && s.configs.Keys <= s.devices.Keys
    && AlertedIds(s.alerts) == CrossingIds(s.readings)
    && (forall i :: 0 <= i < |s.alerts| ==> AlertMatchesReading(s.readings, s.alerts[i]))
  }

  /** The empty database satisfies the invariant. */
  lemma EmptyIsValid()
    ensures Valid(Store(map[], map[], [], []))
  {
  }

  /** In a valid store a reading has an alert exactly when its status is a crossing status. */
  lemma AlertIffCrossing(s: Store, i: nat)
    requires Valid(s)
    requires i < |s.readings|
    ensures IsCrossing(s.readings[i].status) <==> exists j :: 0 <= j < |s.alerts| && s.alerts[j].readingId == s.readings[i].id
  {
    var r := s.readings[i];
    if IsCrossing(r.status) {
      assert r.id in CrossingIds(s.readings);
      assert r.id in AlertedIds(s.alerts);
      var j :| 0 <= j < |s.alerts| && AlertedIds(s.alerts)[j] == r.id;
      assert s.alerts[j].readingId == r.id;
    }
  }

  lemma {:induction false} CrossingIdsAppend(readings: seq<Reading>, r: Reading)
    ensures CrossingIds(readings + [r]) == CrossingIds(readings) + (if IsCrossing(r.status) then [r.id] else [])
  {
    assert (readings + [r])[..|readings|] == readings;
  }

  /** The alert recorded for reading `r`, as ingestion writes it. */
  ghost predicate AlertFor(a: Alert, alertId: nat, r: Reading)
  {
    && a.id == alertId
    && a.deviceId == r.deviceId
    && a.readingId == r.id
    && a.kind == KindOf(r.status)
    && a.createdAt == r.createdAt
  }

  /**
    Appending the next reading, together with its alert exactly when its
    status is a crossing status, to a store whose device and configuration
    tables only grew, keeps the store valid.
  */
  lemma AppendKeepsValid(s: Store, t: Store, r: Reading)
    requires Valid(s)
    requires s.devices.Keys <= t.devices.Keys && t.configs.Keys <= t.devices.Keys
    requires r.id == |s.readings| + 1 && r.deviceId in t.devices
    requires t.readings == s.readings + [r]
    requires !IsCrossing(r.status) ==> t.alerts == s.alerts
    requires IsCrossing(r.status) ==>
      && |t.alerts| == |s.alerts| + 1
      && t.alerts[..|s.alerts|] == s.alerts
      && AlertFor(t.alerts[|s.alerts|], |s.alerts| + 1, r)
    ensures Valid(t)
  {
    CrossingIdsAppend(s.readings, r);
    if IsCrossing(r.status) {
      var a := t.alerts[|s.alerts|];
      assert t.alerts == s.alerts + [a];
      assert AlertedIds(t.alerts) == AlertedIds(s.alerts) + [a.readingId];
      assert t.readings[a.readingId - 1] == r;
      assert AlertMatchesReading(t.readings, a);
    }
    forall i | 0 <= i < |s.alerts|
      ensures AlertMatchesReading(t.readings, t.alerts[i])
    {
      assert t.alerts[i] == s.alerts[i];
      assert AlertMatchesReading(s.readings, s.alerts[i]);
      assert t.readings[s.alerts[i].readingId - 1] == s.readings[s.alerts[i].readingId - 1];
    }
  }
}
