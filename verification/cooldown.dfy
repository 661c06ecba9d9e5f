/** The in-memory auth-failure cooldown shared by the scheduler and the credential service. */
module Cooldown {
  import opened Basics
  import opened Backoff

  datatype Entry = Entry(failures: nat, until: Time)
  type Entries = map<Bytes, Entry>

  /** The two durations a registry is built with, in int64 nanoseconds. */
  datatype Limits = Limits(base: int64, max: int64)

  predicate Gated(entries: Entries, id: Bytes, now: Time) {
    id in entries && now < entries[id].until
  }

  function FailureCount(entries: Entries, id: Bytes): nat {
    if id in entries then entries[id].failures else 0
  }

  function WithFailure(entries: Entries, limits: Limits, id: Bytes, now: Time): (r: Entries)
    ensures id in r && r[id].failures == FailureCount(entries, id) + 1
    ensures limits.max > 0 ==> now < r[id].until <= now + limits.max
    ensures r - {id} == entries - {id}
  {
    var n := FailureCount(entries, id) + 1;
    entries[id := Entry(n, now + Window(limits.base, limits.max, n))]
  }

  /** Whatever the counter says, a window is open until its end and closed from then on, and never outlasts max. */
  lemma GatedExactlyWithinWindow(entries: Entries, limits: Limits, id: Bytes, at: Time, now: Time)
    requires limits.max > 0
    ensures var n := FailureCount(entries, id) + 1;
      Gated(WithFailure(entries, limits, id, at), id, now) <==> now < at + Window(limits.base, limits.max, n)
    ensures now >= at + limits.max ==> !Gated(WithFailure(entries, limits, id, at), id, now)
  {
  }

  /** AuthCooldownRegistry; the clock reading of each call is its `now` argument. */
  class AuthCooldownRegistry {
    const base: int64
    const maxCooldown: int64
    var entries: Entries

    constructor (base: int64, maxCooldown: int64)
      ensures this.base == base && this.maxCooldown == maxCooldown && entries == map[]
    {
      this.base := base;
      this.maxCooldown := maxCooldown;
      entries := map[];
    }

    ghost function Bounds(): Limits {
      Limits(base, maxCooldown)
    }

    method Active(providerId: Bytes, now: Time) returns (active: bool)
      ensures active <==> Gated(entries, providerId, now)
    {
      active := providerId in entries && now < entries[providerId].until;
    }

    method RecordFailure(providerId: Bytes, now: Time)
      modifies this
      ensures entries == WithFailure(old(entries), Bounds(), providerId, now)
    {
      var e := if providerId in entries then entries[providerId] else Entry(0, 0);
      var failures := e.failures + 1;
      var backoff := Shl64(base, failures - 1);
      if failures > 32 || backoff <= 0 || backoff > maxCooldown {
        backoff := maxCooldown;
      }
      entries := entries[providerId := Entry(failures, now + backoff)];
    }

    method Clear(providerId: Bytes)
      modifies this
      ensures entries == old(entries) - {providerId}
    {
      entries := map id | id in entries && id != providerId :: entries[id];
    }
  }
}
