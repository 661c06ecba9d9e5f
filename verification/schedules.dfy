/**
  The operations that are one step elsewhere are what the small steps do when nobody interferes: collections, turns and
  ticks of the scheduler, refreshes and credential sets are schedules.
*/
module Schedules {
  import opened Basics
  import opened Errors
  import opened Store
  import opened Providers
  import opened Credentials
  import opened Collection
  import opened Cooldown
  import opened Scheduling
  import opened Api
  import opened Interleaving

  // -------------------------------------------------------------------------------------------------
  // One Collect, by the scheduler or by a handler

  /** One step of this goroutine that meets this fault and the Fetcher reply of env. */
  function Act(who: Runner, env: CollectEnv, fault: Fault): Move {
    Own(who, Chance(fault, env.fetch, [], WriteEnv(f => Err(0), f => None)))
  }

  /** s after the Collect of `who` has come to pc and left these snapshots. */
  function Progress(s: State, who: Runner, snaps: Snaps, pc: CollectPC): State
    requires Running(s, who).Some?
  {
    var s' := s.(tables := s.tables.(snaps := snaps));
    match who
    case TheScheduler => s'.(sched := s.sched.(pc := pc))
    case Handler(tid) => s'.(http := s.http[tid := Refreshing(s.http[tid].id, pc)])
  }

  lemma ProgressReplaces(s: State, who: Runner, snaps: Snaps, pc: CollectPC, snaps': Snaps, pc': CollectPC)
    requires Running(s, who).Some?
    ensures Running(Progress(s, who, snaps, pc), who) == Some((Running(s, who).value.0, pc))
    ensures Progress(Progress(s, who, snaps, pc), who, snaps', pc') == Progress(s, who, snaps', pc')
  {
    if who.Handler? {
      var id := s.http[who.tid].id;
      assert s.http[who.tid := Refreshing(id, pc)][who.tid := Refreshing(id, pc')] == s.http[who.tid := Refreshing(id, pc')];
    }
  }

  /** A goroutine inside a Collect takes the step the cycle prescribes. */
  lemma ActIsProgress(y: Process, s: State, who: Runner, env: CollectEnv, fault: Fault)
    requires Running(s, who).Some? && !Running(s, who).value.1.Finished?
    ensures var (id, pc) := Running(s, who).value;
      var (snaps, pc') := CollectStep(y.deps, s.tables, s.clock, id, pc, Act(who, env, fault).ch);
      Next(y, s, Act(who, env, fault)) == Progress(s, who, snaps, pc')
  {
  }

  /** The small steps of a Collect that has already loaded its credentials. */
  lemma FinishUndisturbed(y: Process, s: State, who: Runner, env: CollectEnv) returns (moves: seq<Move>)
    requires Running(s, who).Some? && Running(s, who).value.1.AtFetch? && s.clock == env.now
    ensures var (id, pc) := Running(s, who).value;
      var r := FetchAndPersist(y.deps, s.tables.snaps, id, pc.creds, env);
      Exec(y, s, moves) == Progress(s, who, r.snaps, Finished(r.outcome))
  {
    var id := Running(s, who).value.0;
    var l1 := Act(who, env, None);
    ActIsProgress(y, s, who, env, None);
    match FetchOutcome(y.deps.registry, y.deps.fetchers, id, env.fetch)
    case Err(e) =>
      moves := [l1];
      ExecOne(y, s, l1);
    case Ok(metrics) =>
      var s1 := Next(y, s, l1);
      ProgressReplaces(s, who, s.tables.snaps, AtStamp(metrics), s.tables.snaps, AtReplace(metrics, env.now));
      assert s1 == Progress(s, who, s.tables.snaps, AtStamp(metrics));
      var rest := StampUndisturbed(y, s1, who, env);
      moves := [l1] + rest;
      assert moves[1..] == rest;
      var r := FetchAndPersist(y.deps, s.tables.snaps, id, Running(s, who).value.1.creds, env);
      ProgressReplaces(s, who, s.tables.snaps, AtStamp(metrics), r.snaps, Finished(r.outcome));
  }

  /** The Fetcher has delivered: the clock is read and the snapshot replaced. */
  lemma StampUndisturbed(y: Process, s: State, who: Runner, env: CollectEnv) returns (moves: seq<Move>)
    requires Running(s, who).Some? && Running(s, who).value.1.AtStamp? && s.clock == env.now
    ensures var (id, pc) := Running(s, who).value;
      var snap := Snapshot(id, ToStoreMetrics(pc.metrics), env.now, None);
      Exec(y, s, moves) ==
        if env.replace.Some? then Progress(s, who, s.tables.snaps, Finished(Err(Wrapped(StoreError(env.replace.value)))))
        else Progress(s, who, s.tables.snaps[id := snap], Finished(Ok(snap)))
  {
    var (id, pc) := Running(s, who).value;
    var l1, l2 := Act(who, env, None), Act(who, env, env.replace);
    ActIsProgress(y, s, who, env, None);
    var s1 := Next(y, s, l1);
    var replaced := CollectStep(y.deps, s.tables, s.clock, id, AtReplace(pc.metrics, env.now), l2.ch);
    ProgressReplaces(s, who, s.tables.snaps, AtReplace(pc.metrics, env.now), replaced.0, replaced.1);
    ActIsProgress(y, s1, who, env, env.replace);
    moves := [l1, l2];
    ExecTwo(y, s, l1, l2);
  }

  /** What a Collect that is reading its credentials comes to. */
  function AfterLoading(d: Deps, t: Tables, id: Bytes, pc: CollectPC, env: CollectEnv): Collected
    requires pc.AtReveal? && pc.i <= |pc.m.fields|
  {
    match LoadFrom(d.vault, t.creds, pc.m.id, pc.m.fields, pc.i, pc.creds, env.secret)
    case Err(e) => Collected(t.snaps, Err(e), None)
    case Ok(creds) => FetchAndPersist(d, t.snaps, id, creds, env)
  }

  /** Reading one field, or having read them all, does not change what the Collect comes to. */
  lemma LoadingStep(d: Deps, t: Tables, clock: Time, id: Bytes, pc: CollectPC, env: CollectEnv, ch: Chance)
    requires pc.AtReveal? && pc.i <= |pc.m.fields|
    requires ch.fault == if pc.i < |pc.m.fields| then env.secret(pc.i) else None
    ensures var r, (snaps, pc1) := AfterLoading(d, t, id, pc, env), CollectStep(d, t, clock, id, pc, ch);
      && snaps == t.snaps
      && match pc1
         case AtReveal(m, i, _) => m == pc.m && i == pc.i + 1 <= |m.fields| && AfterLoading(d, t, id, pc1, env) == r
         case AtFetch(creds) => FetchAndPersist(d, t.snaps, id, creds, env) == r
         case Finished(outcome) => r == Collected(t.snaps, outcome, None)
         case _ => false
  {
  }

  lemma {:induction false} LoadUndisturbed(y: Process, s: State, who: Runner, env: CollectEnv) returns (moves: seq<Move>)
    requires Running(s, who).Some? && Running(s, who).value.1.AtReveal? && s.clock == env.now
    requires Running(s, who).value.1.i <= |Running(s, who).value.1.m.fields|
    ensures var (id, pc) := Running(s, who).value;
      var r := AfterLoading(y.deps, s.tables, id, pc, env);
      Exec(y, s, moves) == Progress(s, who, r.snaps, Finished(r.outcome))
    decreases |Running(s, who).value.1.m.fields| - Running(s, who).value.1.i
  {
    var (id, pc) := Running(s, who).value;
    var fault := if pc.i < |pc.m.fields| then env.secret(pc.i) else None;
    var l := Act(who, env, fault);
    ActIsProgress(y, s, who, env, fault);
    var s1 := Next(y, s, l);
    var r := AfterLoading(y.deps, s.tables, id, pc, env);
    var pc1 := CollectStep(y.deps, s.tables, s.clock, id, pc, l.ch).1;
    ProgressReplaces(s, who, s.tables.snaps, pc1, r.snaps, Finished(r.outcome));
    LoadingStep(y.deps, s.tables, s.clock, id, pc, env, l.ch);
    var rest: seq<Move> := [];
    if pc1.AtFetch? {
      rest := FinishUndisturbed(y, s1, who, env);
    } else if pc1.AtReveal? {
      rest := LoadUndisturbed(y, s1, who, env);
    }
    moves := [l] + rest;
    assert moves[1..] == rest;
  }

  lemma CollectUndisturbed(y: Process, s: State, who: Runner, env: CollectEnv) returns (moves: seq<Move>)
    requires Running(s, who).Some? && Running(s, who).value.1.AtGet? && s.clock == env.now
    ensures var id := Running(s, who).value.0;
      var r := CollectCycle(y.deps, s.tables, id, env);
      Exec(y, s, moves) == Progress(s, who, r.snaps, Finished(r.outcome))
  {
    var (id, pc) := Running(s, who).value;
    var l := Act(who, env, env.get);
    ActIsProgress(y, s, who, env, env.get);
    var s1 := Next(y, s, l);
    var r := CollectCycle(y.deps, s.tables, id, env);
    var pc1 := CollectStep(y.deps, s.tables, s.clock, id, pc, l.ch).1;
    ProgressReplaces(s, who, s.tables.snaps, pc1, r.snaps, Finished(r.outcome));
    var rest: seq<Move> := [];
    if pc1.AtReveal? {
      rest := LoadUndisturbed(y, s1, who, env);
    }
    moves := [l] + rest;
    assert moves[1..] == rest;
  }

  /** A whole on-demand refresh is an undisturbed schedule of its handler: it writes the snapshot and nothing else. */
  lemma RefreshIsASchedule(y: Process, s: State, tid: nat, id: Bytes, env: CollectEnv) returns (moves: seq<Move>)
    requires tid !in s.http && s.clock == env.now
    ensures Exec(y, s, moves) == s.(tables := s.tables.(snaps := CollectCycle(y.deps, s.tables, id, env).snaps))
  {
    var r, who := CollectCycle(y.deps, s.tables, id, env), Handler(tid);
    var start := HttpStart(tid, Refresh(id), Act(who, env, None).ch);
    var s1 := Next(y, s, start);
    var middle := CollectUndisturbed(y, s1, who, env);
    var s2 := Exec(y, s1, middle);
    assert s2 == Progress(s1, who, r.snaps, Finished(r.outcome));
    var end := Act(who, env, None);
    ExecOne(y, s2, end);
    assert s2.http - {tid} == s.http;
    ExecAppend(y, s1, middle, [end]);
    moves := [start] + (middle + [end]);
    assert moves[1..] == middle + [end];
  }

  // -------------------------------------------------------------------------------------------------
  // Turns and ticks of the scheduler

  /**
    Refinement: for every turn of the sequential scheduler whose clock readings do not run backwards there is a
    schedule of the small steps, with only time passing in between, that ends in the same tables and cooldown.
  */
  lemma TurnIsASchedule(y: Process, s: State, id: Bytes, rest: seq<Bytes>, env: TurnEnv) returns (moves: seq<Move>)
    requires s.sched == Loop([id] + rest)
    requires s.clock <= env.gateAt <= env.collect.now <= env.failAt
    ensures var v := TakeTurn(WorldOf(y, s), VolatileOf(s), id, env).0;
      var s' := Exec(y, s, moves);
      && s'.tables == s.tables.(snaps := v.snaps) && s'.entries == v.entries
      && s'.sched == Loop(rest) && s'.http == s.http && s'.clock <= env.failAt
  {
    var wait, step := Advance(env.gateAt - s.clock), Act(TheScheduler, env.collect, None);
    var s1 := Next(y, s, wait);
    var s2 := Next(y, s1, step);
    assert ([id] + rest)[1..] == rest;
    var after: seq<Move> := [];
    if !Gated(s.entries, id, env.gateAt) {
      after := UngatedTurnUndisturbed(y, s2, env);
    }
    ExecTwo(y, s, wait, step);
    ExecAppend(y, s, [wait, step], after);
    moves := [wait, step] + after;
  }

  /** The clock readings of the turns that remain, up to a cancellation, never run backwards. */
  predicate Timely(now: Time, listed: seq<Provider>, envs: Bytes -> TurnEnv, i: nat, cancelled: nat -> bool)
    requires i <= |listed|
    decreases |listed| - i
  {
    if i == |listed| then true
    else if !listed[i].enabled then Timely(now, listed, envs, i + 1, cancelled)
    else if cancelled(i) then true
    else
      var env := envs(listed[i].meta.id);
      now <= env.gateAt <= env.collect.now <= env.failAt && Timely(env.failAt, listed, envs, i + 1, cancelled)
  }

  lemma {:induction false} TimelyEarlier(
    now: Time, before: Time, listed: seq<Provider>, envs: Bytes -> TurnEnv, i: nat, cancelled: nat -> bool)
    requires i <= |listed| && before <= now && Timely(now, listed, envs, i, cancelled)
    ensures Timely(before, listed, envs, i, cancelled)
    decreases |listed| - i
  {
    if i < |listed| && !listed[i].enabled {
      TimelyEarlier(now, before, listed, envs, i + 1, cancelled);
    }
  }

  /** A scheduler step in which nothing fails, with what ctx.Err shows. */
  function Pass(cancelled: bool): Move {
    SchedStep(Chance(None, Err(Other(0)), [], WriteEnv(f => Err(0), f => None)), cancelled)
  }

  lemma {:induction false} LoopIsASchedule(
    y: Process, s: State, listed: seq<Provider>, envs: Bytes -> TurnEnv, i: nat, cancelled: nat -> bool)
    returns (moves: seq<Move>)
    requires i <= |listed| && s.sched == Loop(EnabledIds(listed[i..])) && Timely(s.clock, listed, envs, i, cancelled)
    ensures var v := TickFrom(WorldOf(y, s), VolatileOf(s), listed, envs, i, cancelled).0;
      var s' := Exec(y, s, moves);
      s'.tables == s.tables.(snaps := v.snaps) && s'.entries == v.entries && s'.sched == Idle && s'.http == s.http
    decreases |listed| - i
  {
    if i == |listed| {
      moves := [Pass(false)];
      ExecOne(y, s, moves[0]);
    } else {
      assert listed[i..][1..] == listed[i + 1..];
      if !listed[i].enabled {
        moves := LoopIsASchedule(y, s, listed, envs, i + 1, cancelled);
      } else if cancelled(i) {
        moves := [Pass(true)];
        ExecOne(y, s, moves[0]);
      } else {
        var id := listed[i].meta.id;
        var m1 := TurnIsASchedule(y, s, id, EnabledIds(listed[i + 1..]), envs(id));
        var s1 := Exec(y, s, m1);
        TimelyEarlier(envs(id).failAt, s1.clock, listed, envs, i + 1, cancelled);
        var m2 := LoopIsASchedule(y, s1, listed, envs, i + 1, cancelled);
        moves := m1 + m2;
        ExecAppend(y, s, m1, m2);
      }
    }
  }

  /**
    A whole tick of the sequential scheduler, from listing to waiting for the ticker again, cancelled on the way or not,
    is such a schedule too.
  */
  lemma TickIsASchedule(y: Process, s: State, envs: Bytes -> TurnEnv, cancelled: nat -> bool) returns (moves: seq<Move>)
    requires s.sched == Idle
    requires Timely(s.clock, MergedList(y.deps.registry, s.tables.rows, y.deps.fetchers), envs, 0, cancelled)
    ensures var listed := MergedList(y.deps.registry, s.tables.rows, y.deps.fetchers);
      var v := TickFrom(WorldOf(y, s), VolatileOf(s), listed, envs, 0, cancelled).0;
      var s' := Exec(y, s, moves);
      s'.tables == s.tables.(snaps := v.snaps) && s'.entries == v.entries && s'.sched == Idle && s'.http == s.http
  {
    var listed := MergedList(y.deps.registry, s.tables.rows, y.deps.fetchers);
    var s1 := Next(y, s, Pass(false));
    assert listed[0..] == listed;
    var turns := LoopIsASchedule(y, s1, listed, envs, 0, cancelled);
    moves := [Pass(false)] + turns;
    assert moves[1..] == turns;
  }

  lemma UngatedTurnUndisturbed(y: Process, s: State, env: TurnEnv) returns (moves: seq<Move>)
    requires s.sched.Collecting? && s.sched.pc.AtGet?
    requires s.clock == env.gateAt <= env.collect.now <= env.failAt
    ensures var r := CollectCycle(y.deps, s.tables, s.sched.id, env.collect);
      var s' := Exec(y, s, moves);
      && s'.tables == s.tables.(snaps := r.snaps)
      && s'.entries == AfterOutcome(s.entries, Some(y.limits), s.sched.id, r.outcome, env.failAt)
      && s'.sched == Loop(s.sched.rest) && s'.http == s.http && s'.clock == env.failAt
  {
    var wait := Advance(env.collect.now - env.gateAt);
    var s1 := Next(y, s, wait);
    var middle := CollectUndisturbed(y, s1, TheScheduler, env.collect);
    var s2 := Exec(y, s1, middle);
    var tail := [Advance(env.failAt - env.collect.now), Act(TheScheduler, env.collect, None)];
    ExecTwo(y, s2, tail[0], tail[1]);
    ConcludedAt(y, s2, env);
    ExecAppend(y, s1, middle, tail);
    moves := [wait] + (middle + tail);
    assert moves[1..] == middle + tail;
  }

  /** A finished Collect is concluded after some more time. */
  lemma ConcludedAt(y: Process, s: State, env: TurnEnv)
    requires s.sched.Collecting? && s.sched.pc.Finished? && s.clock == env.collect.now <= env.failAt
    ensures var s' := Next(y, Next(y, s, Advance(env.failAt - env.collect.now)), Act(TheScheduler, env.collect, None));
      && s'.tables == s.tables
      && s'.entries == AfterOutcome(s.entries, Some(y.limits), s.sched.id, s.sched.pc.outcome, env.failAt)
      && s'.sched == Loop(s.sched.rest) && s'.http == s.http && s'.clock == env.failAt
  {
  }

  // -------------------------------------------------------------------------------------------------
  // Setting credentials

  /** The handler writes the fields in this order, then clears the cooldown; a failure ends it before the clear. */
  lemma {:induction false} WritesUndisturbed(
    y: Process, s: State, tid: nat, id: Bytes, values: map<Bytes, Bytes>, order: seq<Bytes>, env: WriteEnv)
    returns (moves: seq<Move>)
    requires tid in s.http && s.http[tid] == Putting(id, values, Elements(order))
    requires forall f :: f in order ==> f in values
    requires forall i, j :: 0 <= i < j < |order| ==> order[i] != order[j]
    ensures var (creds, err) := WriteFields(y.deps.vault, s.tables.creds, id, values, order, env);
      Exec(y, s, moves) == AfterPut(s, creds, id, err).(http := s.http - {tid})
    decreases order
  {
    if order == [] {
      moves := [HttpStep(tid, Chance(None, Err(Other(0)), [], env))];
      assert Exec(y, Next(y, s, moves[0]), []) == Next(y, s, moves[0]);
    } else {
      var f := order[0];
      var step := HttpStep(tid, Chance(env.upsert(f), Err(Other(0)), f, env));
      var s1 := Next(y, s, step);
      assert f in Elements(order);
      var rest: seq<Move> := [];
      if SealField(y.deps.vault, id, f, values[f], env).Ok? && env.upsert(f).None? {
        assert Elements(order) - {f} == Elements(order[1..]);
        rest := WritesUndisturbed(y, s1, tid, id, values, order[1..], env);
        assert s1.http - {tid} == s.http - {tid};
      }
      moves := [step] + rest;
      assert moves[1..] == rest;
    }
  }

  /** The state after a handler is through with a PUT: the table it left, and the cooldown cleared on success only. */
  function AfterPut(s: State, creds: Creds, id: Bytes, err: Option<Error>): State {
    var s' := s.(tables := s.tables.(creds := creds));
    if err.Some? then s' else s'.(entries := s.entries - {id}, trace := s.trace + [Cleared(id)])
  }

  /** A whole PUT, for any iteration order and any failure, is an undisturbed schedule of the handler's small steps. */
  lemma PutIsASchedule(
    y: Process, s: State, tid: nat, id: Bytes, values: map<Bytes, Bytes>, get: Fault, order: seq<Bytes>, env: WriteEnv)
    returns (moves: seq<Move>)
    requires tid !in s.http && IterationOrder(order, values)
    ensures var (creds, err) := CredentialsSet(y.deps, s.tables.rows, s.tables.creds, id, values, get, order, env);
      Exec(y, s, moves) == AfterPut(s, creds, id, err)
  {
    var start := HttpStart(tid, Put(id, values), Chance(get, Err(Other(0)), [], env));
    var s1 := Next(y, s, start);
    var rest: seq<Move> := [];
    PutStarts(y, s, tid, id, values, get, order, env);
    if tid in s1.http {
      assert Elements(order) == values.Keys;
      rest := WritesUndisturbed(y, s1, tid, id, values, order, env);
      assert s1.http - {tid} == s.http;
    }
    moves := [start] + rest;
    assert moves[1..] == rest;
  }

  /** A whole DELETE, for any failure, is two moves of its handler, with nothing of the cooldown touched. */
  lemma DropIsASchedule(y: Process, s: State, tid: nat, id: Bytes, get: Fault, delete: Fault, env: WriteEnv)
    requires tid !in s.http
    ensures var start := HttpStart(tid, Drop(id), Chance(get, Err(Other(0)), [], env));
      var step := HttpStep(tid, Chance(delete, Err(Other(0)), [], env));
      var creds := CredentialsDropped(y.deps, s.tables.rows, s.tables.creds, id, get, delete).0;
      Exec(y, s, [start, step]) == s.(tables := s.tables.(creds := creds))
  {
    var start := HttpStart(tid, Drop(id), Chance(get, Err(Other(0)), [], env));
    var step := HttpStep(tid, Chance(delete, Err(Other(0)), [], env));
    ExecTwo(y, s, start, step);
    assert s.http[tid := Dropping(id)] - {tid} == s.http;
  }

  /** A PUT that is refused has no handler any more; the others begin to write. */
  lemma PutStarts(
    y: Process, s: State, tid: nat, id: Bytes, values: map<Bytes, Bytes>, get: Fault, order: seq<Bytes>, env: WriteEnv)
    requires tid !in s.http && IterationOrder(order, values)
    ensures var s1 := Next(y, s, HttpStart(tid, Put(id, values), Chance(get, Err(Other(0)), [], env)));
      var (creds, err) := CredentialsSet(y.deps, s.tables.rows, s.tables.creds, id, values, get, order, env);
      if tid in s1.http then
        && s1 == s.(http := s.http[tid := Putting(id, values, values.Keys)])
        && (creds, err) == WriteFields(y.deps.vault, s.tables.creds, id, values, order, env)
      else s1 == s && creds == s.tables.creds && err.Some?
  {
  }
}
