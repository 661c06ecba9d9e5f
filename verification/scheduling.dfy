/** The scheduler's tick path: gate, collect, engage or clear the cooldown, one provider after the other. */
module Scheduling {
  import opened Basics
  import opened Errors
  import opened Cooldown
  import opened Store
  import opened Providers
  import opened Collection

  /** One provider's turn in a tick: the clock readings at the gate and at recording, and what Collect meets. */
  datatype TurnEnv = TurnEnv(gateAt: Time, collect: CollectEnv, failAt: Time)

  /** The part of the state a tick writes. */
  datatype Volatile = Volatile(snaps: Snaps, entries: Entries)

  /** What a tick reads; cooldown is None for a scheduler built without a cooldown registry. */
  datatype World = World(deps: Deps, cooldown: Option<Limits>, rows: Rows, creds: Creds)

  datatype Turn = Skipped | Called(outcome: Result<Snapshot, Error>)

  /** Whether a failed Collect engages the cooldown. */
  predicate Engages(e: Error) {
    !Is(e, FetcherNotFound) && Is(e, Auth)
  }

  function AfterOutcome(
    entries: Entries, cooldown: Option<Limits>, id: Bytes, outcome: Result<Snapshot, Error>, failAt: Time): Entries
  {
    if cooldown.None? then entries
    else match outcome
         case Ok(_) => entries - {id}
         case Err(e) => if Engages(e) then WithFailure(entries, cooldown.value, id, failAt) else entries
  }

  /** The gate: only a scheduler with a registry skips, and only within the provider's own window. */
  predicate Skips(w: World, s: Volatile, id: Bytes, now: Time) {
    w.cooldown.Some? && Gated(s.entries, id, now)
  }

  function TakeTurn(w: World, s: Volatile, id: Bytes, env: TurnEnv): (Volatile, Turn) {
    if Skips(w, s, id, env.gateAt) then (s, Skipped)
    else
      var r := CollectCycle(w.deps, Tables(w.rows, w.creds, s.snaps), id, env.collect);
      (Volatile(r.snaps, AfterOutcome(s.entries, w.cooldown, id, r.outcome, env.failAt)), Called(r.outcome))
  }

  /** A scheduler without a registry never skips a provider and records nothing. */
  lemma NoRegistryNeverSkips(w: World, s: Volatile, id: Bytes, env: TurnEnv)
    requires w.cooldown.None?
    ensures var (s', turn) := TakeTurn(w, s, id, env);
      var r := CollectCycle(w.deps, Tables(w.rows, w.creds, s.snaps), id, env.collect);
      turn == Called(r.outcome) && s'.snaps == r.snaps && s'.entries == s.entries
  {
  }

  /** envs says what each provider's turn meets; cancelled(i) is what ctx.Err shows before the i-th entry. */
  function TickFrom(w: World, s: Volatile, listed: seq<Provider>, envs: Bytes -> TurnEnv, i: nat, cancelled: nat -> bool)
    : (Volatile, seq<(Bytes, Turn)>)
    requires i <= |listed|
    decreases |listed| - i
  {
    if i == |listed| then (s, [])
    else if !listed[i].enabled then TickFrom(w, s, listed, envs, i + 1, cancelled)
    else if cancelled(i) then (s, [])
    else
      var id := listed[i].meta.id;
      var (s1, turn) := TakeTurn(w, s, id, envs(id));
      var (s2, log) := TickFrom(w, s1, listed, envs, i + 1, cancelled);
      (s2, [(id, turn)] + log)
  }

  /** After the entries before position i the tick stands at s, with this log; the rest completes it. */
  ghost predicate TickUnderway(
    w: World, s0: Volatile, listed: seq<Provider>, envs: Bytes -> TurnEnv, cancelled: nat -> bool, i: nat, s: Volatile,
    log: seq<(Bytes, Turn)>)
    requires i <= |listed|
  {
    var whole, rest := TickFrom(w, s0, listed, envs, 0, cancelled), TickFrom(w, s, listed, envs, i, cancelled);
    whole == (rest.0, log + rest.1)
  }

  lemma TickTurn(
    w: World, s0: Volatile, listed: seq<Provider>, envs: Bytes -> TurnEnv, i: nat, cancelled: nat -> bool, s: Volatile,
    log: seq<(Bytes, Turn)>)
    requires i < |listed| && listed[i].enabled && !cancelled(i) && TickUnderway(w, s0, listed, envs, cancelled, i, s, log)
    ensures var id := listed[i].meta.id;
      var (s1, turn) := TakeTurn(w, s, id, envs(id));
      TickUnderway(w, s0, listed, envs, cancelled, i + 1, s1, log + [(id, turn)])
  {
    var id := listed[i].meta.id;
    var (s1, turn) := TakeTurn(w, s, id, envs(id));
    var rest := TickFrom(w, s1, listed, envs, i + 1, cancelled);
    assert log + ([(id, turn)] + rest.1) == (log + [(id, turn)]) + rest.1;
  }

  // -------------------------------------------------------------------------------------------------
  // Isolation

  /** One provider's share of the volatile state. */
  datatype Share = Share(snap: Option<Snapshot>, entry: Option<Entry>)

  function ShareOf(s: Volatile, id: Bytes): Share {
    Share(if id in s.snaps then Some(s.snaps[id]) else None, if id in s.entries then Some(s.entries[id]) else None)
  }

  lemma SharesDetermine(s1: Volatile, s2: Volatile)
    requires forall id :: ShareOf(s1, id) == ShareOf(s2, id)
    ensures s1 == s2
  {
    assert forall id :: id in s1.snaps <==> ShareOf(s1, id).snap.Some?;
    assert forall id :: id in s2.snaps <==> ShareOf(s2, id).snap.Some?;
    assert forall id :: id in s1.entries <==> ShareOf(s1, id).entry.Some?;
    assert forall id :: id in s2.entries <==> ShareOf(s2, id).entry.Some?;
    assert s1.snaps == s2.snaps by {
      forall id | id in s1.snaps
        ensures id in s2.snaps && s1.snaps[id] == s2.snaps[id]
      {
        assert ShareOf(s1, id) == ShareOf(s2, id);
      }
    }
    assert s1.entries == s2.entries by {
      forall id | id in s1.entries
        ensures id in s2.entries && s1.entries[id] == s2.entries[id]
      {
        assert ShareOf(s1, id) == ShareOf(s2, id);
      }
    }
  }

  lemma TurnTouchesOnlyItsShare(w: World, s: Volatile, id: Bytes, env: TurnEnv, other: Bytes)
    requires other != id
    ensures ShareOf(TakeTurn(w, s, id, env).0, other) == ShareOf(s, other)
  {
    CollectEffects(w.deps, Tables(w.rows, w.creds, s.snaps), id, env.collect);
  }

  lemma TurnReadsOnlyItsShare(w: World, s1: Volatile, s2: Volatile, id: Bytes, env: TurnEnv)
    requires ShareOf(s1, id) == ShareOf(s2, id)
    ensures TakeTurn(w, s1, id, env).1 == TakeTurn(w, s2, id, env).1
    ensures ShareOf(TakeTurn(w, s1, id, env).0, id) == ShareOf(TakeTurn(w, s2, id, env).0, id)
  {
    if !Skips(w, s1, id, env.gateAt) {
      var t1, t2 := Tables(w.rows, w.creds, s1.snaps), Tables(w.rows, w.creds, s2.snaps);
      var r1, r2 := CollectCycle(w.deps, t1, id, env.collect), CollectCycle(w.deps, t2, id, env.collect);
      CollectIsLocal(w.deps, t1, t2, id, env.collect);
      CollectEffects(w.deps, t1, id, env.collect);
      CollectEffects(w.deps, t2, id, env.collect);
      SharesFollow(s1, s2, id, r1, r2, w.cooldown, env.failAt);
    }
  }

  /** Equal shares and equal outcomes lead to equal shares. */
  lemma SharesFollow(
    s1: Volatile, s2: Volatile, id: Bytes, r1: Collected, r2: Collected, cooldown: Option<Limits>, failAt: Time)
    requires ShareOf(s1, id) == ShareOf(s2, id) && r1.outcome == r2.outcome
    requires r1.snaps == if r1.outcome.Ok? then s1.snaps[id := r1.outcome.value] else s1.snaps
    requires r2.snaps == if r1.outcome.Ok? then s2.snaps[id := r1.outcome.value] else s2.snaps
    ensures ShareOf(Volatile(r1.snaps, AfterOutcome(s1.entries, cooldown, id, r1.outcome, failAt)), id)
         == ShareOf(Volatile(r2.snaps, AfterOutcome(s2.entries, cooldown, id, r1.outcome, failAt)), id)
  {
  }

  ghost predicate DistinctListing(listed: seq<Provider>) {
    forall i, j :: 0 <= i < j < |listed| ==> listed[i].meta.id != listed[j].meta.id
  }

  /** id has a turn coming at or after position i. */
  ghost predicate Due(listed: seq<Provider>, i: nat, id: Bytes) {
    exists j :: i <= j < |listed| && listed[j].enabled && listed[j].meta.id == id
  }

  /**
    A tick is a batch of independent turns: each provider ends as if it alone had been collected, with the same
    clock readings and the same Fetcher reply, and a provider without a turn is untouched.
  */
  lemma {:induction false} TickIsolatesProviders(
    w: World, s: Volatile, listed: seq<Provider>, envs: Bytes -> TurnEnv, i: nat, cancelled: nat -> bool, id: Bytes)
    requires i <= |listed| && DistinctListing(listed)
    requires forall j :: !cancelled(j)
    ensures var (s', log) := TickFrom(w, s, listed, envs, i, cancelled);
      var (alone, turn) := TakeTurn(w, s, id, envs(id));
      && ShareOf(s', id) == (if Due(listed, i, id) then ShareOf(alone, id) else ShareOf(s, id))
      && (Due(listed, i, id) <==> (id, turn) in log)
    ensures forall e :: e in TickFrom(w, s, listed, envs, i, cancelled).1 ==> Due(listed, i, e.0)
    decreases |listed| - i
  {
    if i < |listed| {
      var p := listed[i];
      assert forall e: Bytes :: Due(listed, i + 1, e) ==> Due(listed, i, e);
      assert Due(listed, i, id) <==> Due(listed, i + 1, id) || (p.enabled && p.meta.id == id);
      if !p.enabled {
        TickIsolatesProviders(w, s, listed, envs, i + 1, cancelled, id);
      } else {
        var s1 := TakeTurn(w, s, p.meta.id, envs(p.meta.id)).0;
        TickIsolatesProviders(w, s1, listed, envs, i + 1, cancelled, id);
        if p.meta.id == id {
          assert !Due(listed, i + 1, id);
        } else {
          TurnTouchesOnlyItsShare(w, s, p.meta.id, envs(p.meta.id), id);
          TurnReadsOnlyItsShare(w, s, s1, id, envs(id));
        }
      }
    }
  }

  /** The order in which the registry lists providers has no influence on where a tick leads. */
  lemma TickOrderIrrelevant(
    w: World, s: Volatile, l1: seq<Provider>, l2: seq<Provider>, envs: Bytes -> TurnEnv, cancelled: nat -> bool)
    requires DistinctListing(l1) && DistinctListing(l2) && forall p :: p in l1 <==> p in l2
    requires forall j :: !cancelled(j)
    ensures TickFrom(w, s, l1, envs, 0, cancelled).0 == TickFrom(w, s, l2, envs, 0, cancelled).0
  {
    var s1, s2 := TickFrom(w, s, l1, envs, 0, cancelled).0, TickFrom(w, s, l2, envs, 0, cancelled).0;
    forall id
      ensures ShareOf(s1, id) == ShareOf(s2, id)
    {
      DueByMembership(l1, id);
      DueByMembership(l2, id);
      TickIsolatesProviders(w, s, l1, envs, 0, cancelled, id);
      TickIsolatesProviders(w, s, l2, envs, 0, cancelled, id);
    }
    SharesDetermine(s1, s2);
  }

  lemma DueByMembership(listed: seq<Provider>, id: Bytes)
    ensures Due(listed, 0, id) <==> exists p :: p in listed && p.enabled && p.meta.id == id
  {
  }

  /** A provider listed as enabled is collected in this tick unless its own cooldown gates it; nobody else's matters. */
  lemma TickCallsCollect(
    w: World, s: Volatile, listed: seq<Provider>, envs: Bytes -> TurnEnv, cancelled: nat -> bool, id: Bytes)
    requires DistinctListing(listed) && Due(listed, 0, id)
    requires forall j :: !cancelled(j)
    ensures (exists o :: (id, Called(o)) in TickFrom(w, s, listed, envs, 0, cancelled).1)
       <==> !Skips(w, s, id, envs(id).gateAt)
  {
    TickIsolatesProviders(w, s, listed, envs, 0, cancelled, id);
    var turn := TakeTurn(w, s, id, envs(id)).1;
    assert (id, turn) in TickFrom(w, s, listed, envs, 0, cancelled).1;
    if turn.Called? {
      assert (id, Called(turn.outcome)) in TickFrom(w, s, listed, envs, 0, cancelled).1;
    } else {
      TurnsAreUnique(w, s, listed, envs, 0, cancelled, id);
    }
  }

  /** Cancellation stops the tick: only providers whose ctx.Err check came out clean have had a turn. */
  lemma {:induction false} NoTurnOnceCancelled(
    w: World, s: Volatile, listed: seq<Provider>, envs: Bytes -> TurnEnv, i: nat, cancelled: nat -> bool, e: (Bytes, Turn))
    requires i <= |listed| && e in TickFrom(w, s, listed, envs, i, cancelled).1
    ensures exists j :: i <= j < |listed| && listed[j].enabled && listed[j].meta.id == e.0 && !cancelled(j)
                        && forall k :: i <= k < j && listed[k].enabled ==> !cancelled(k)
    decreases |listed| - i
  {
    var id := listed[i].meta.id;
    if !listed[i].enabled {
      NoTurnOnceCancelled(w, s, listed, envs, i + 1, cancelled, e);
    } else if e != (id, TakeTurn(w, s, id, envs(id)).1) {
      NoTurnOnceCancelled(w, TakeTurn(w, s, id, envs(id)).0, listed, envs, i + 1, cancelled, e);
    }
  }

  /** Every logged turn is the one the provider would have had alone. */
  lemma {:induction false} TurnsAreUnique(
    w: World, s: Volatile, listed: seq<Provider>, envs: Bytes -> TurnEnv, i: nat, cancelled: nat -> bool, id: Bytes)
    requires i <= |listed| && DistinctListing(listed)
    requires forall j :: !cancelled(j)
    ensures forall e :: e in TickFrom(w, s, listed, envs, i, cancelled).1 && e.0 == id ==> e.1 == TakeTurn(w, s, id, envs(id)).1
    decreases |listed| - i
  {
    if i < |listed| {
      var p := listed[i];
      if !p.enabled {
        TurnsAreUnique(w, s, listed, envs, i + 1, cancelled, id);
      } else {
        var s1 := TakeTurn(w, s, p.meta.id, envs(p.meta.id)).0;
        TurnsAreUnique(w, s1, listed, envs, i + 1, cancelled, id);
        if p.meta.id == id {
          TickIsolatesProviders(w, s1, listed, envs, i + 1, cancelled, id);
          assert !Due(listed, i + 1, id);
        } else {
          TurnTouchesOnlyItsShare(w, s, p.meta.id, envs(p.meta.id), id);
          TurnReadsOnlyItsShare(w, s, s1, id, envs(id));
        }
      }
    }
  }

  /** Only scheduler turns that end in an auth failure or a success change a cooldown entry. */
  lemma EntryChangesOnlyOnAuthOrSuccess(w: World, s: Volatile, id: Bytes, env: TurnEnv)
    requires w.cooldown.Some?
    ensures var (s', turn) := TakeTurn(w, s, id, env);
      match turn
      case Skipped => s' == s && Gated(s.entries, id, env.gateAt)
      case Called(Ok(_)) => s'.entries == s.entries - {id}
      case Called(Err(e)) =>
        && s'.snaps == s.snaps
        && (Root(e) == Auth ==> s'.entries == WithFailure(s.entries, w.cooldown.value, id, env.failAt))
        && (Root(e) != Auth ==> s'.entries == s.entries)
  {
    CollectEffects(w.deps, Tables(w.rows, w.creds, s.snaps), id, env.collect);
    var turn := TakeTurn(w, s, id, env).1;
    if turn.Called? && turn.outcome.Err? {
      IsMatchesRoot(turn.outcome.error, Auth);
      IsMatchesRoot(turn.outcome.error, FetcherNotFound);
    }
  }

  // -------------------------------------------------------------------------------------------------
  // The stateful scheduler

  class Scheduler {
    const providers: Providers.Service
    const collector: Collector
    const cooldown: AuthCooldownRegistry?

    constructor (providers: Providers.Service, collector: Collector, cooldown: AuthCooldownRegistry?)
      ensures this.providers == providers && this.collector == collector && this.cooldown == cooldown
    {
      this.providers := providers;
      this.collector := collector;
      this.cooldown := cooldown;
    }

    ghost function Reads(): World
      reads collector.providers.fetchers, collector.providers.repo, collector.credentials.repo
    {
      World(
        Deps(collector.providers.registry, collector.providers.fetchers.fetch, collector.credentials.vault),
        if cooldown == null then None else Some(cooldown.Bounds()),
        collector.providers.repo.rows, collector.credentials.repo.creds)
    }

    ghost function Writes(): Volatile
      reads collector.snapshots, cooldown
    {
      Volatile(collector.snapshots.snaps, if cooldown == null then map[] else cooldown.entries)
    }

    method CollectOne(providerId: Bytes, env: TurnEnv) returns (turn: Turn)
      modifies collector.snapshots`snaps, cooldown
      ensures (Writes(), turn) == TakeTurn(Reads(), old(Writes()), providerId, env)
    {
      if cooldown != null {
        var active := cooldown.Active(providerId, env.gateAt);
        if active {
          return Skipped;
        }
      }
      var outcome, _ := collector.Collect(providerId, env.collect);
      turn := Called(outcome);
      if outcome.Err? {
        if Is(outcome.error, FetcherNotFound) {
          return;
        }
        if Is(outcome.error, Auth) {
          if cooldown != null {
            cooldown.RecordFailure(providerId, env.failAt);
          }
          return;
        }
        return;
      }
      if cooldown != null {
        cooldown.Clear(providerId);
      }
    }

    /** `log` is what happened to the providers in turn; a failed listing makes the tick empty. */
    method Tick(listFault: Fault, envs: Bytes -> TurnEnv, cancelled: nat -> bool) returns (log: seq<(Bytes, Turn)>)
      modifies collector.snapshots`snaps, cooldown
      ensures (Writes(), log) ==
        if listFault.Some? then (old(Writes()), [])
        else TickFrom(Reads(), old(Writes()), MergedList(providers.registry, providers.repo.rows, providers.fetchers.fetch),
                      envs, 0, cancelled)
    {
      log := [];
      var listed := providers.List(listFault);
      if listed.Err? {
        return;
      }
      var ps := listed.value;
      ghost var w, s0 := Reads(), Writes();
      ghost var whole := TickFrom(w, s0, ps, envs, 0, cancelled);
      assert [] + whole.1 == whole.1;
      for i := 0 to |ps|
        invariant Reads() == w && TickUnderway(w, s0, ps, envs, cancelled, i, Writes(), log)
      {
        if !ps[i].enabled {
          continue;
        }
        if cancelled(i) {
          assert log + [] == log;
          return;
        }
        TickTurn(w, s0, ps, envs, i, cancelled, Writes(), log);
        var turn := CollectOne(ps[i].meta.id, envs(ps[i].meta.id));
        log := log + [(ps[i].meta.id, turn)];
      }
      assert log + [] == log;
    }
  }
}
