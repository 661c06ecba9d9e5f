/** Whole runs of the service, one operation at a time, and their refinement of the plaintext reference. */
module System {
  import opened Basics
  import opened Errors
  import opened Secret
  import opened Cooldown
  import opened Store
  import opened Providers
  import opened Credentials
  import opened Collection
  import opened Scheduling
  import opened Api
  import opened Reference

  /** Fixed over a run: the master key with its AEAD, and the cooldown durations. */
  datatype Config = Config(vault: Vault, limits: Limits)

  /** `tables` survive a restart; the registry, the fetchers and the cooldown belong to the running process. */
  datatype State = State(up: bool, registry: Registry, fetchers: Fetchers, tables: Tables, entries: Entries)

  const INITIAL := State(false, [], map[], Tables(map[], map[], map[]), map[])

  function DepsOf(c: Config, s: State): Deps {
    Deps(s.registry, s.fetchers, c.vault)
  }

  /** What the running scheduler reads. */
  function WorldFor(c: Config, s: State): World {
    World(DepsOf(c, s), Some(c.limits), s.tables.rows, s.tables.creds)
  }

  /** A process whose reconciliation fails at boot exits; until the next boot nothing else happens. */
  function Apply(c: Config, s: State, op: Op): (State, Obs)
    requires Legal(op)
  {
    match op
    case Boot(registry, fetchers, attempt) =>
      var (rows, err) := Reconciled(registry, s.tables.rows, attempt.listFault, attempt.faults);
      (State(err.None?, registry, fetchers, s.tables.(rows := rows), map[]), Done(err))
    case _ => if s.up then Serve(c, s, op) else (s, Down)
  }

  function Serve(c: Config, s: State, op: Op): (State, Obs)
    requires Legal(op) && !op.Boot?
  {
    var t := s.tables;
    match op
    case Tick(listFault, envs, cancelled) =>
      if listFault.Some? then (s, Ticked([]))
      else
        var listed := MergedList(s.registry, t.rows, s.fetchers);
        var (v, log) := TickFrom(WorldFor(c, s), Volatile(t.snaps, s.entries), listed, envs, 0, cancelled);
        (s.(tables := t.(snaps := v.snaps), entries := v.entries), Ticked(log))
    case Refresh(id, env) =>
      var r := CollectCycle(DepsOf(c, s), t, id, env);
      (s.(tables := t.(snaps := r.snaps)), Refreshed(r.outcome, r.calledWith))
    case Put(id, values, get, order, write) =>
      var (creds, err) := CredentialsSet(DepsOf(c, s), t.rows, t.creds, id, values, get, order, write);
      (s.(tables := t.(creds := creds), entries := if err.None? then s.entries - {id} else s.entries), Done(err))
    case Drop(id, get, delete) =>
      var (creds, err) := CredentialsDropped(DepsOf(c, s), t.rows, t.creds, id, get, delete);
      (s.(tables := t.(creds := creds)), Done(err))
    case Switch(id, on, fault) =>
      var (rows, err) := SwitchRow(s.registry, t.rows, id, on, fault);
      (s.(tables := t.(rows := rows)), Done(err))
  }

  function Run(c: Config, s: State, ops: seq<Op>): (r: (State, seq<Obs>))
    requires LegalRun(ops)
    ensures |r.1| == |ops|
  {
    if ops == [] then (s, [])
    else
      var n := |ops| - 1;
      var (s1, obs) := Run(c, s, ops[..n]);
      var (s2, o) := Apply(c, s1, ops[n]);
      (s2, obs + [o])
  }

  // -------------------------------------------------------------------------------------------------
  // The correspondence

  ghost predicate SnapsMatch(snaps: Snaps, latest: Latest) {
    && snaps.Keys == latest.Keys
    && forall id :: id in snaps ==> snaps[id] == Snapshot(id, ToStoreMetrics(latest[id].0), latest[id].1, None)
  }

  ghost predicate RowsMatch(rows: Rows, r: Ref) {
    && rows.Keys == r.known && r.flags.Keys <= r.known
    && forall id :: id in rows ==> rows[id] == On(r, id)
  }

  /** The encrypted, reconciled, snapshot-only tables stand for exactly these facts. */
  ghost predicate StandsFor(c: Config, s: State, r: Ref) {
    && s.up == r.up && s.registry == r.registry && s.fetchers == r.fetchers && s.entries == r.entries
    && Readable(c.vault, s.tables.creds) && Plaintext(c.vault, s.tables.creds) == r.plain
    && SnapsMatch(s.tables.snaps, r.latest)
    && RowsMatch(s.tables.rows, r)
    && DistinctIds(s.registry) && FetchersKnown(s.registry, s.fetchers)
    && (s.up ==> Ids(s.registry) <= r.known)
  }

  /** One operation: the caller sees what the reference expects, and the states correspond again. */
  ghost predicate Refines(c: Config, s: State, r: Ref, op: Op)
    requires Legal(op)
  {
    var (s', seen) := Apply(c, s, op);
    var (r', expected) := After(c.limits, r, op);
    seen == expected && StandsFor(c, s', r')
  }

  // -------------------------------------------------------------------------------------------------
  // Each operation refines its reference

  lemma GetMatches(c: Config, s: State, r: Ref, id: Bytes, fault: Fault)
    requires StandsFor(c, s, r)
    ensures var p := GetProvider(s.registry, s.tables.rows, s.fetchers, id, fault);
      match Resolve(r, id, fault)
      case Err(e) => p == Err(e)
      case Ok(m) => p == Ok(Provider(m, On(r, id), id in r.fetchers)) && m.id == id
  {
  }

  lemma FetchMatches(d: Deps, snaps: Snaps, id: Bytes, creds: map<Bytes, Bytes>, env: CollectEnv)
    requires Find(d.registry, id).Some?
    ensures var got := FetchAndPersist(d, snaps, id, creds, env);
      (got.outcome, got.calledWith)
        == if id in d.fetchers then (Answer(id, env), Some(creds)) else (Err(FetcherNotFound), None)
  {
  }

  /** A collection does what the reference expects, on whatever snapshots it starts. */
  lemma CollectMatches(c: Config, s: State, r: Ref, snaps: Snaps, id: Bytes, env: CollectEnv)
    requires StandsFor(c, s, r)
    ensures var got := CollectCycle(DepsOf(c, s), s.tables.(snaps := snaps), id, env);
      (got.outcome, got.calledWith) == Expected(r, id, env)
  {
    GetMatches(c, s, r, id, env.get);
    var m := Resolve(r, id, env.get);
    if m.Ok? && On(r, id) {
      LoadsStoredPlaintext(c.vault, s.tables.creds, m.value, env.secret);
      var loaded := LoadAll(c.vault, s.tables.creds, m.value, env.secret);
      if loaded.Ok? {
        assert FirstUnavailable(r.plain, m.value, env.secret).None?;
        FetchMatches(DepsOf(c, s), snaps, id, loaded.value, env);
      }
    }
  }

  lemma SnapsStayMatched(d: Deps, t: Tables, latest: Latest, id: Bytes, env: CollectEnv)
    requires SnapsMatch(t.snaps, latest)
    ensures var got := CollectCycle(d, t, id, env); SnapsMatch(got.snaps, WithResult(latest, id, env, got.outcome))
  {
    CollectEffects(d, t, id, env);
  }

  lemma RefreshRefines(c: Config, s: State, r: Ref, op: Op)
    requires StandsFor(c, s, r) && s.up && op.Refresh?
    ensures Refines(c, s, r, op)
  {
    CollectMatches(c, s, r, s.tables.snaps, op.id, op.env);
    SnapsStayMatched(DepsOf(c, s), s.tables, r.latest, op.id, op.env);
  }

  /** The cooldown of the providers listed from position i on is as it was at the start of the tick. */
  ghost predicate EntriesUntouched(entries: Entries, r: Ref, i: nat) {
    forall j :: i <= j < |r.registry| ==> SameEntry(entries, r.entries, r.registry[j].id)
  }

  predicate SameEntry(e1: Entries, e2: Entries, id: Bytes) {
    (id in e1 <==> id in e2) && (id in e1 ==> e1[id] == e2[id])
  }

  /** One turn in the middle of a tick: as expected before the tick, and the rest of the registry stays untouched. */
  lemma TurnMatches(c: Config, s: State, r: Ref, v: Volatile, latest: Latest, i: nat, env: TurnEnv)
    requires StandsFor(c, s, r) && i < |s.registry|
    requires SnapsMatch(v.snaps, latest) && EntriesUntouched(v.entries, r, i)
    ensures var id := r.registry[i].id;
      var (v', turn) := TakeTurn(WorldFor(c, s), v, id, env);
      && turn == ExpectedTurn(r, id, env)
      && SnapsMatch(v'.snaps, if turn.Called? then WithResult(latest, id, env.collect, turn.outcome) else latest)
      && v'.entries == (if turn.Called? then AfterOutcome(v.entries, Some(c.limits), id, turn.outcome, env.failAt) else v.entries)
      && EntriesUntouched(v'.entries, r, i + 1)
  {
    var id := r.registry[i].id;
    var t := s.tables.(snaps := v.snaps);
    assert SameEntry(v.entries, r.entries, id);
    CollectMatches(c, s, r, v.snaps, id, env.collect);
    SnapsStayMatched(DepsOf(c, s), t, latest, id, env.collect);
    var v' := TakeTurn(WorldFor(c, s), v, id, env).0;
    forall j | i + 1 <= j < |r.registry|
      ensures SameEntry(v'.entries, r.entries, r.registry[j].id)
    {
      assert SameEntry(v.entries, r.entries, r.registry[j].id);
    }
  }

  lemma ListedAsSwitched(c: Config, s: State, r: Ref, i: nat)
    requires StandsFor(c, s, r) && i < |s.registry|
    ensures var listed := MergedList(s.registry, s.tables.rows, s.fetchers);
      listed[i].meta == r.registry[i] && (listed[i].enabled <==> On(r, r.registry[i].id))
  {
  }

  lemma {:induction false} TurnsMatch(
    c: Config, s: State, r: Ref, v: Volatile, latest: Latest, envs: Bytes -> TurnEnv, i: nat, cancelled: nat -> bool)
    requires StandsFor(c, s, r) && i <= |s.registry|
    requires SnapsMatch(v.snaps, latest) && EntriesUntouched(v.entries, r, i)
    ensures var listed := MergedList(s.registry, s.tables.rows, s.fetchers);
      var (v', log) := TickFrom(WorldFor(c, s), v, listed, envs, i, cancelled);
      && log == ExpectedTurns(r, envs, i, cancelled)
      && SnapsMatch(v'.snaps, WithLog(latest, log, envs))
      && v'.entries == AfterLog(v.entries, c.limits, log, envs)
    decreases |s.registry| - i
  {
    if i < |s.registry| {
      var id := r.registry[i].id;
      ListedAsSwitched(c, s, r, i);
      if !On(r, id) {
        TurnsMatch(c, s, r, v, latest, envs, i + 1, cancelled);
      } else if !cancelled(i) {
        TurnMatches(c, s, r, v, latest, i, envs(id));
        var (v1, turn) := TakeTurn(WorldFor(c, s), v, id, envs(id));
        var latest1 := if turn.Called? then WithResult(latest, id, envs(id).collect, turn.outcome) else latest;
        TurnsMatch(c, s, r, v1, latest1, envs, i + 1, cancelled);
        var rest := ExpectedTurns(r, envs, i + 1, cancelled);
        assert ([(id, turn)] + rest)[1..] == rest;
      }
    }
  }

  lemma TickRefines(c: Config, s: State, r: Ref, op: Op)
    requires StandsFor(c, s, r) && s.up && op.Tick?
    ensures Refines(c, s, r, op)
  {
    if op.listFault.None? {
      TurnsMatch(c, s, r, Volatile(s.tables.snaps, s.entries), r.latest, op.envs, 0, op.cancelled);
    }
  }

  /** With a key of the right size only a failed nonce draw or upsert keeps a field from being stored. */
  lemma WrittenUntilRefused(v: Vault, creds: Creds, id: Bytes, values: map<Bytes, Bytes>, order: seq<Bytes>, env: WriteEnv)
    requires |v.key| == KEY_SIZE && IterationOrder(order, values)
    ensures var n := FirstRefused(env, order);
      && Written(v, id, values, order, env) == n
      && WriteFields(v, creds, id, values, order, env).1 == (if n < |order| then Refusal(env, order[n]) else None)
  {
    WrittenOrFailed(v, creds, id, values, order, env);
    assert forall f :: f in values ==> FieldFailure(v, id, f, values[f], env) == Refusal(env, f);
  }

  lemma WritesRefine(v: Vault, creds: Creds, id: Bytes, values: map<Bytes, Bytes>, order: seq<Bytes>, env: WriteEnv)
    requires Readable(v, creds) && IterationOrder(order, values)
    ensures var (creds', err) := WriteFields(v, creds, id, values, order, env);
      var n := FirstRefused(env, order);
      && Readable(v, creds')
      && Plaintext(v, creds') == Stored(Plaintext(v, creds), id, values, Elements(order[..n]))
      && err == (if n < |order| then Refusal(env, order[n]) else None)
      && (n == |order| ==> Elements(order[..n]) == values.Keys)
  {
    WriteFieldsRefines(v, creds, id, values, order, env);
    WrittenUntilRefused(v, creds, id, values, order, env);
    assert order[..|order|] == order && Elements(order) == values.Keys;
  }

  lemma PutRefines(c: Config, s: State, r: Ref, op: Op)
    requires StandsFor(c, s, r) && s.up && op.Put? && Legal(op)
    ensures Refines(c, s, r, op)
  {
    GetMatches(c, s, r, op.id, op.get);
    var m := Resolve(r, op.id, op.get);
    if m.Ok? {
      NamesAgree(m.value.fields);
      if op.values.Keys == FieldNames(m.value.fields) {
        AcceptedPutRefines(c, s, r, op);
      } else {
        assert Apply(c, s, op) == (s, After(c.limits, r, op).1);
      }
    } else {
      assert Apply(c, s, op) == (s, Done(Some(m.error)));
    }
  }

  lemma AcceptedPutRefines(c: Config, s: State, r: Ref, op: Op)
    requires StandsFor(c, s, r) && s.up && op.Put? && Legal(op)
    requires var m := Resolve(r, op.id, op.get);
      && m.Ok? && op.values.Keys == FieldNames(m.value.fields)
      && GetProvider(s.registry, s.tables.rows, s.fetchers, op.id, op.get)
           == Ok(Provider(m.value, On(r, op.id), op.id in r.fetchers))
    ensures Refines(c, s, r, op)
  {
    var (creds, err) := WriteFields(c.vault, s.tables.creds, op.id, op.values, op.order, op.write);
    var entries := if err.None? then s.entries - {op.id} else s.entries;
    AcceptedPutApplied(c, s, op, Resolve(r, op.id, op.get).value);
    WritesRefine(c.vault, s.tables.creds, op.id, op.values, op.order, op.write);
    CredentialsStandFor(c, s, r, creds, entries);
    AcceptedSet(r, op.id, op.values, op.get, op.order, op.write);
    assert After(c.limits, r, op) == (r.(plain := Plaintext(c.vault, creds), entries := entries), Done(err));
  }

  lemma AcceptedPutApplied(c: Config, s: State, op: Op, m: Metadata)
    requires s.up && op.Put? && Legal(op) && op.values.Keys == FieldNames(m.fields)
    requires var p := GetProvider(s.registry, s.tables.rows, s.fetchers, op.id, op.get); p.Ok? && p.value.meta == m
    ensures var (creds, err) := WriteFields(c.vault, s.tables.creds, op.id, op.values, op.order, op.write);
      var entries := if err.None? then s.entries - {op.id} else s.entries;
      Apply(c, s, op) == (s.(tables := s.tables.(creds := creds), entries := entries), Done(err))
  {
    NamesAgree(m.fields);
  }

  lemma AcceptedSet(r: Ref, id: Bytes, values: map<Bytes, Bytes>, get: Fault, order: seq<Bytes>, env: WriteEnv)
    requires IterationOrder(order, values)
    requires Resolve(r, id, get).Ok? && values.Keys == FieldNames(Resolve(r, id, get).value.fields)
    requires var n := FirstRefused(env, order); n == |order| ==> Elements(order[..n]) == values.Keys
    ensures var n := FirstRefused(env, order);
      AfterSet(r, id, values, get, order, env) ==
        (r.(plain := Stored(r.plain, id, values, Elements(order[..n])),
            entries := if n == |order| then r.entries - {id} else r.entries),
         Done(if n < |order| then Refusal(env, order[n]) else None))
  {
  }

  lemma DropRefines(c: Config, s: State, r: Ref, op: Op)
    requires StandsFor(c, s, r) && s.up && op.Drop?
    ensures Refines(c, s, r, op)
  {
    GetMatches(c, s, r, op.id, op.get);
    match Resolve(r, op.id, op.get)
    case Err(e) =>
      assert Apply(c, s, op) == (s, Done(Some(e)));
    case Ok(_) =>
      if op.delete.Some? {
        assert Apply(c, s, op) == (s, Done(Some(Wrapped(StoreError(op.delete.value)))));
      } else {
        DeleteRefines(c.vault, s.tables.creds, op.id);
        var left := WithoutProvider(s.tables.creds, op.id);
        assert Apply(c, s, op) == (s.(tables := s.tables.(creds := left)), Done(None));
        CredentialsStandFor(c, s, r, left, s.entries);
      }
  }

  /** New credentials and a new cooldown on both sides leave everything else corresponding. */
  lemma CredentialsStandFor(c: Config, s: State, r: Ref, creds: Creds, entries: Entries)
    requires StandsFor(c, s, r) && Readable(c.vault, creds)
    ensures StandsFor(
      c, s.(tables := s.tables.(creds := creds), entries := entries),
      r.(plain := Plaintext(c.vault, creds), entries := entries))
  {
  }

  lemma SwitchRefines(c: Config, s: State, r: Ref, op: Op)
    requires StandsFor(c, s, r) && s.up && op.Switch?
    ensures Refines(c, s, r, op)
  {
    SwitchApplied(c, s, r, op);
    match Resolve(r, op.id, op.fault)
    case Err(e) =>
    case Ok(_) =>
      var rows := s.tables.rows[op.id := op.on];
      SwitchedRowsMatch(s.tables.rows, r, op.id, op.on);
      RowsStandFor(c, s, r, rows, r.(flags := r.flags[op.id := op.on]));
  }

  lemma SwitchApplied(c: Config, s: State, r: Ref, op: Op)
    requires s.up && op.Switch? && s.registry == r.registry && s.tables.rows.Keys == r.known
    ensures Apply(c, s, op) ==
      match Resolve(r, op.id, op.fault)
      case Err(e) => (s, Done(Some(e)))
      case Ok(_) => (s.(tables := s.tables.(rows := s.tables.rows[op.id := op.on])), Done(None))
  {
  }

  /** New rows and flags on both sides leave everything else corresponding. */
  lemma RowsStandFor(c: Config, s: State, r: Ref, rows: Rows, r': Ref)
    requires StandsFor(c, s, r) && RowsMatch(rows, r') && r' == r.(flags := r'.flags)
    ensures StandsFor(c, s.(tables := s.tables.(rows := rows)), r')
  {
  }

  lemma SwitchedRowsMatch(rows: Rows, r: Ref, id: Bytes, on: bool)
    requires RowsMatch(rows, r) && id in r.known
    ensures RowsMatch(rows[id := on], r.(flags := r.flags[id := on]))
  {
  }

  lemma IdsGrow(registry: Registry, i: nat)
    requires i < |registry| && DistinctIds(registry)
    ensures Ids(registry[..i + 1]) == Ids(registry[..i]) + {registry[i].id}
    ensures registry[i].id !in Ids(registry[..i])
  {
    IdsUpTo(registry, i);
  }

  lemma {:induction false} CreationStopsWhereMissed(registry: Registry, have: set<Bytes>, rows: Rows, i: nat, faults: nat -> Fault)
    requires i <= |registry| && DistinctIds(registry)
    requires rows.Keys == have + Ids(registry[..i])
    ensures var (rows', err) := CreateMissing(registry, have, rows, i, faults);
      var n := FirstMissed(registry, have, faults, i);
      && rows'.Keys == have + Ids(registry[..n])
      && err == if n < |registry| then Some(Wrapped(StoreError(faults(n).value))) else None
    decreases |registry| - i
  {
    if i < |registry| {
      OneCreated(registry, have, rows, i, faults);
      if registry[i].id in have {
        CreationStopsWhereMissed(registry, have, rows, i + 1, faults);
      } else if faults(i).None? {
        CreationStopsWhereMissed(registry, have, rows[registry[i].id := false], i + 1, faults);
      }
    }
  }

  /** The i-th entry needs no row, cannot get one, or gets one. */
  lemma OneCreated(registry: Registry, have: set<Bytes>, rows: Rows, i: nat, faults: nat -> Fault)
    requires i < |registry| && DistinctIds(registry)
    requires rows.Keys == have + Ids(registry[..i])
    ensures var id := registry[i].id;
      && CreateMissing(registry, have, rows, i, faults) ==
           (if id in have then CreateMissing(registry, have, rows, i + 1, faults)
            else if faults(i).Some? then (rows, Some(Wrapped(StoreError(faults(i).value))))
            else CreateMissing(registry, have, rows[id := false], i + 1, faults))
      && (if id in have then rows else rows[id := false]).Keys == have + Ids(registry[..i + 1])
  {
    IdsGrow(registry, i);
  }

  lemma BootedKnown(registry: Registry, fetchers: Fetchers, attempt: Attempt, rows: Rows, r: Ref)
    requires rows.Keys == r.known && DistinctIds(registry)
    ensures var (rows', err) := Reconciled(registry, rows, attempt.listFault, attempt.faults);
      var (r', seen) := Booted(r, registry, fetchers, attempt);
      && seen == Done(err) && r'.up == err.None? && rows'.Keys == r'.known && r'.flags == r.flags
      && (r'.up ==> Ids(registry) <= r'.known)
  {
    if attempt.listFault.None? {
      var (rows', err) := CreateMissing(registry, rows.Keys, rows, 0, attempt.faults);
      CreationStopsWhereMissedFromStart(registry, rows, attempt.faults);
      BootedUpTo(registry, fetchers, attempt, r, rows'.Keys, err);
    }
  }

  lemma BootedUpTo(
    registry: Registry, fetchers: Fetchers, attempt: Attempt, r: Ref, known: set<Bytes>, err: Option<Error>)
    requires attempt.listFault.None?
    requires var n := FirstMissed(registry, r.known, attempt.faults);
      && known == r.known + Ids(registry[..n])
      && err == if n < |registry| then Some(Wrapped(StoreError(attempt.faults(n).value))) else None
    ensures var (r', seen) := Booted(r, registry, fetchers, attempt);
      && seen == Done(err) && r'.up == err.None? && r'.known == known && r'.flags == r.flags
      && (r'.up ==> Ids(registry) <= known)
  {
    assert registry[..|registry|] == registry;
  }

  lemma BootedRows(registry: Registry, fetchers: Fetchers, attempt: Attempt, rows: Rows, r: Ref)
    requires RowsMatch(rows, r) && DistinctIds(registry)
    ensures var (rows', err) := Reconciled(registry, rows, attempt.listFault, attempt.faults);
      var (r', seen) := Booted(r, registry, fetchers, attempt);
      && seen == Done(err) && r'.up == err.None? && RowsMatch(rows', r')
      && (r'.up ==> Ids(registry) <= r'.known)
  {
    BootedKnown(registry, fetchers, attempt, rows, r);
    ReconcilingAdds(registry, rows, attempt);
    NewRowsMatch(
      rows, r, Reconciled(registry, rows, attempt.listFault, attempt.faults).0, Booted(r, registry, fetchers, attempt).0);
  }

  lemma ReconcilingAdds(registry: Registry, rows: Rows, attempt: Attempt)
    ensures var rows' := Reconciled(registry, rows, attempt.listFault, attempt.faults).0;
      && rows.Keys <= rows'.Keys
      && (forall id :: id in rows ==> rows'[id] == rows[id])
      && (forall id :: id in rows' && id !in rows ==> !rows'[id])
  {
    CreatingOnlyAdds(registry, rows.Keys, rows, 0, attempt.faults);
  }

  lemma CreationStopsWhereMissedFromStart(registry: Registry, rows: Rows, faults: nat -> Fault)
    requires DistinctIds(registry)
    ensures var (rows', err) := CreateMissing(registry, rows.Keys, rows, 0, faults);
      var n := FirstMissed(registry, rows.Keys, faults);
      && rows'.Keys == rows.Keys + Ids(registry[..n])
      && err == if n < |registry| then Some(Wrapped(StoreError(faults(n).value))) else None
  {
    assert Ids(registry[..0]) == {};
    CreationStopsWhereMissed(registry, rows.Keys, rows, 0, faults);
  }

  lemma BootRefines(c: Config, s: State, r: Ref, op: Op)
    requires StandsFor(c, s, r) && op.Boot? && Legal(op)
    ensures Refines(c, s, r, op)
  {
    BootedRows(op.newRegistry, op.newFetchers, op.attempt, s.tables.rows, r);
    BootedRest(op.newRegistry, op.newFetchers, op.attempt, r);
    var s', r' := Apply(c, s, op).0, After(c.limits, r, op).0;
    assert s'.tables == s.tables.(rows := s'.tables.rows);
    assert StandsFor(c, s', r');
  }

  /** Starting up touches neither the credentials nor the collections, and forgets the cooldown. */
  lemma BootedRest(registry: Registry, fetchers: Fetchers, attempt: Attempt, r: Ref)
    ensures var r' := Booted(r, registry, fetchers, attempt).0;
      && r'.registry == registry && r'.fetchers == fetchers && r'.entries == map[]
      && r'.plain == r.plain && r'.latest == r.latest && r'.flags == r.flags
  {
  }

  /** Rows that are added disabled match a flag that was never set. */
  lemma NewRowsMatch(rows: Rows, r: Ref, rows': Rows, r': Ref)
    requires RowsMatch(rows, r) && r'.flags == r.flags && rows'.Keys == r'.known && r.known <= r'.known
    requires forall id :: id in rows ==> rows'[id] == rows[id]
    requires forall id :: id in rows' && id !in rows ==> !rows'[id]
    ensures RowsMatch(rows', r')
  {
  }

  lemma StepRefines(c: Config, s: State, r: Ref, op: Op)
    requires StandsFor(c, s, r) && Legal(op)
    ensures Refines(c, s, r, op)
  {
    if op.Boot? {
      BootRefines(c, s, r, op);
    } else if s.up {
      match op
      case Tick(_, _, _) => TickRefines(c, s, r, op);
      case Refresh(_, _) => RefreshRefines(c, s, r, op);
      case Put(_, _, _, _, _) => PutRefines(c, s, r, op);
      case Drop(_, _, _) => DropRefines(c, s, r, op);
      case Switch(_, _, _) => SwitchRefines(c, s, r, op);
    }
  }

  /**
    Refinement over whole runs: whatever operations, restarts with changed registries, store failures and Fetcher
    replies occur, callers see exactly what the plaintext reference shows them, and the tables stand for its facts.
  */
  lemma {:induction false} RunRefinesReference(c: Config, ops: seq<Op>)
    requires LegalRun(ops) && Ideal(c.vault.g) && |c.vault.key| == KEY_SIZE
    ensures Run(c, INITIAL, ops).1 == History(c.limits, ops).1
    ensures StandsFor(c, Run(c, INITIAL, ops).0, History(c.limits, ops).0)
  {
    if ops != [] {
      var n := |ops| - 1;
      RunRefinesReference(c, ops[..n]);
      StepRefines(c, Run(c, INITIAL, ops[..n]).0, History(c.limits, ops[..n]).0, ops[n]);
    }
  }

  // -------------------------------------------------------------------------------------------------
  // What the queries show

  /** Reveal and presence answer from the plaintext of the reference, for every provider and field. */
  lemma CredentialQueriesAnswerFromReference(c: Config, s: State, r: Ref, id: Bytes, field: Bytes)
    requires StandsFor(c, s, r)
    ensures RevealValue(c.vault, s.tables.creds, id, field, None)
      == if (id, field) in r.plain then Ok(r.plain[(id, field)]) else Err(Wrapped(NotFound))
    ensures field in StoredFields(s.tables.creds, id) <==> (id, field) in r.plain
  {
  }

  /** The usage of a known provider is pending until its first successful collection, then shows the latest one. */
  lemma UsageShowsLatestCollection(c: Config, s: State, r: Ref, id: Bytes)
    requires StandsFor(c, s, r) && s.up && Find(s.registry, id).Some?
    ensures var view := UsageView(s.registry, s.fetchers, s.tables.rows, s.tables.snaps, id, None, None);
      && view.Ok?
      && (id !in r.latest <==> view.value == PENDING)
      && (id in r.latest ==> Shows(view.value, r.latest[id].0, r.latest[id].1))
  {
    var m := Find(s.registry, id).value;
    assert m in s.registry && m.id in Ids(s.registry);
    if id in r.latest {
      assert s.tables.snaps[id] == Snapshot(id, ToStoreMetrics(r.latest[id].0), r.latest[id].1, None);
    }
  }

  /** While the process is up every registered provider has a row, and shows the flag last set for it, or disabled. */
  lemma FlagsShowLastSwitch(c: Config, s: State, r: Ref, id: Bytes)
    requires StandsFor(c, s, r) && s.up && Find(s.registry, id).Some?
    ensures var p := GetProvider(s.registry, s.tables.rows, s.fetchers, id, None);
      p.Ok? && p.value.enabled == On(r, id)
  {
  }

  /**
    The three answers together, after every run: credentials, usage and enabled flags are answered from what the
    reference, which has made the same observations, holds.
  */
  lemma EveryRunAnswersFromItsHistory(c: Config, ops: seq<Op>)
    requires LegalRun(ops) && Ideal(c.vault.g) && |c.vault.key| == KEY_SIZE
    ensures var (s, obs) := Run(c, INITIAL, ops);
      var (r, expected) := History(c.limits, ops);
      && obs == expected
      && (forall id, field ::
            RevealValue(c.vault, s.tables.creds, id, field, None)
              == if (id, field) in r.plain then Ok(r.plain[(id, field)]) else Err(Wrapped(NotFound)))
      && (s.up ==> forall id :: Find(s.registry, id).Some? ==>
            var view := UsageView(s.registry, s.fetchers, s.tables.rows, s.tables.snaps, id, None, None);
            view.Ok? && if id in r.latest then Shows(view.value, r.latest[id].0, r.latest[id].1) else view.value == PENDING)
      && (s.up ==> forall id :: Find(s.registry, id).Some? ==>
            var p := GetProvider(s.registry, s.tables.rows, s.fetchers, id, None);
            p.Ok? && p.value.enabled == On(r, id))
  {
    RunRefinesReference(c, ops);
    var s, r := Run(c, INITIAL, ops).0, History(c.limits, ops).0;
    forall id, field
      ensures RevealValue(c.vault, s.tables.creds, id, field, None)
        == if (id, field) in r.plain then Ok(r.plain[(id, field)]) else Err(Wrapped(NotFound))
    {
      CredentialQueriesAnswerFromReference(c, s, r, id, field);
    }
    forall id | s.up && Find(s.registry, id).Some?
      ensures var view := UsageView(s.registry, s.fetchers, s.tables.rows, s.tables.snaps, id, None, None);
        view.Ok? && if id in r.latest then Shows(view.value, r.latest[id].0, r.latest[id].1) else view.value == PENDING
      ensures var p := GetProvider(s.registry, s.tables.rows, s.fetchers, id, None);
        p.Ok? && p.value.enabled == On(r, id)
    {
      UsageShowsLatestCollection(c, s, r, id);
      FlagsShowLastSwitch(c, s, r, id);
    }
  }

  /** No operation and no restart removes a row. */
  lemma {:induction false} RowsAreNeverLost(c: Config, s: State, ops: seq<Op>)
    requires LegalRun(ops)
    ensures s.tables.rows.Keys <= Run(c, s, ops).0.tables.rows.Keys
  {
    if ops != [] {
      var n := |ops| - 1;
      RowsAreNeverLost(c, s, ops[..n]);
      StepKeepsRows(c, Run(c, s, ops[..n]).0, ops[n]);
    }
  }

  lemma StepKeepsRows(c: Config, s: State, op: Op)
    requires Legal(op)
    ensures s.tables.rows.Keys <= Apply(c, s, op).0.tables.rows.Keys
  {
    if op.Boot? {
      ReconcilingAdds(op.newRegistry, s.tables.rows, op.attempt);
    }
  }

  // -------------------------------------------------------------------------------------------------
  // Credentials between a successful set and a delete

  /** op neither deletes id's credentials nor boots a build that declares id differently. */
  predicate Spares(op: Op, id: Bytes, m: Metadata) {
    match op
    case Boot(registry, _, _) => Find(registry, id) == Some(m)
    case Drop(other, _, _) => other != id
    case _ => true
  }

  /** op does not set id's credentials either. */
  predicate LeavesAlone(op: Op, id: Bytes, m: Metadata) {
    Spares(op, id, m) && !(op.Put? && op.id == id)
  }

  ghost predicate AllSpare(ops: seq<Op>, id: Bytes, m: Metadata) {
    forall i :: 0 <= i < |ops| ==> Spares(ops[i], id, m)
  }

  ghost predicate AllLeaveAlone(ops: seq<Op>, id: Bytes, m: Metadata) {
    forall i :: 0 <= i < |ops| ==> LeavesAlone(ops[i], id, m)
  }

  /** put is an accepted PUT of all the fields m declares for its provider. */
  ghost predicate Accepted(c: Config, s: State, put: Op, m: Metadata) {
    && s.up && put.Put? && Legal(put) && Find(s.registry, put.id) == Some(m)
    && Apply(c, s, put).1 == Done(None)
  }

  lemma {:induction false} WritesKeepFields(
    v: Vault, creds: Creds, id: Bytes, values: map<Bytes, Bytes>, order: seq<Bytes>, env: WriteEnv)
    requires forall f :: f in order ==> f in values
    ensures var creds' := WriteFields(v, creds, id, values, order, env).0;
      && creds.Keys <= creds'.Keys
      && (forall k: (Bytes, Bytes) :: k.0 != id ==> ((k in creds <==> k in creds') && (k in creds ==> creds'[k] == creds[k])))
    decreases order
  {
    if order != [] {
      var sealed := SealField(v, id, order[0], values[order[0]], env);
      if sealed.Ok? && env.upsert(order[0]).None? {
        WritesKeepFields(v, creds[(id, order[0]) := sealed.value], id, values, order[1..], env);
      }
    }
  }

  /** id's rows of the credential table: none disappears, or none changes at all. */
  ghost predicate FieldsKept(before: Creds, after: Creds, id: Bytes) {
    forall f :: (id, f) in before ==> (id, f) in after
  }

  ghost predicate FieldsSame(before: Creds, after: Creds, id: Bytes) {
    forall f :: GetBlob(before, id, f, None) == GetBlob(after, id, f, None)
  }

  lemma PutSpares(c: Config, s: State, op: Op, id: Bytes)
    requires op.Put? && s.up && Legal(op)
    ensures var after := Apply(c, s, op).0.tables.creds;
      FieldsKept(s.tables.creds, after, id) && (op.id != id ==> FieldsSame(s.tables.creds, after, id))
  {
    WritesKeepFields(c.vault, s.tables.creds, op.id, op.values, op.order, op.write);
  }

  lemma SparingStep(c: Config, s: State, op: Op, id: Bytes, m: Metadata)
    requires Legal(op) && Spares(op, id, m) && Find(s.registry, id) == Some(m)
    ensures var s' := Apply(c, s, op).0;
      && Find(s'.registry, id) == Some(m)
      && FieldsKept(s.tables.creds, s'.tables.creds, id)
      && (LeavesAlone(op, id, m) ==> FieldsSame(s.tables.creds, s'.tables.creds, id))
  {
    if op.Put? && s.up {
      PutSpares(c, s, op, id);
    }
  }

  lemma {:induction false} SparingRun(c: Config, s: State, ops: seq<Op>, id: Bytes, m: Metadata)
    requires LegalRun(ops) && Find(s.registry, id) == Some(m)
    requires AllSpare(ops, id, m)
    ensures var s' := Run(c, s, ops).0;
      && Find(s'.registry, id) == Some(m)
      && FieldsKept(s.tables.creds, s'.tables.creds, id)
      && (AllLeaveAlone(ops, id, m) ==> FieldsSame(s.tables.creds, s'.tables.creds, id))
  {
    if ops != [] {
      var n := |ops| - 1;
      SparingRun(c, s, ops[..n], id, m);
      SparingStep(c, Run(c, s, ops[..n]).0, ops[n], id, m);
    }
  }

  /** Readability is kept by every operation. */
  lemma {:induction false} ReadableRun(c: Config, s: State, r: Ref, ops: seq<Op>) returns (r': Ref)
    requires StandsFor(c, s, r) && LegalRun(ops)
    ensures StandsFor(c, Run(c, s, ops).0, r')
  {
    if ops == [] {
      r' := r;
    } else {
      var n := |ops| - 1;
      var r1 := ReadableRun(c, s, r, ops[..n]);
      StepRefines(c, Run(c, s, ops[..n]).0, r1, ops[n]);
      r' := After(c.limits, r1, ops[n]).0;
    }
  }

  /**
    After a successful PUT of id's credentials and for as long as they are not deleted (nor redeclared by another
    build), every declared field keeps a value; with no other PUT of id in between, the value that was set.
  */
  lemma SetCredentialsStay(c: Config, s: State, r: Ref, put: Op, ops: seq<Op>, m: Metadata)
    requires StandsFor(c, s, r) && Accepted(c, s, put, m) && LegalRun(ops) && AllSpare(ops, put.id, m)
    ensures var s' := Run(c, Apply(c, s, put).0, ops).0;
      && Find(s'.registry, put.id) == Some(m)
      && Readable(c.vault, s'.tables.creds)
      && HasAll(Plaintext(c.vault, s'.tables.creds), m)
      && (AllLeaveAlone(ops, put.id, m) ==> DeclaredValues(Plaintext(c.vault, s'.tables.creds), m) == put.values)
  {
    var s1 := Apply(c, s, put).0;
    StepRefines(c, s, r, put);
    var r2 := ReadableRun(c, s1, After(c.limits, r, put).0, ops);
    SparingRun(c, s1, ops, put.id, m);
    PutStoresDeclared(c, s, put, m);
    forall f | f in FieldNames(m.fields)
      ensures f in put.values && (m.id, f) in s1.tables.creds
      ensures OpenRow(c.vault, s1.tables.creds, (m.id, f)) == Ok(put.values[f])
    {
      PutStoresValue(c, s, r, put, m, f);
    }
    DeclaredFieldsStay(c.vault, s1.tables.creds, Run(c, s1, ops).0.tables.creds, m, put.values);
  }

  lemma DeclaredFieldsStay(v: Vault, before: Creds, after: Creds, m: Metadata, values: map<Bytes, Bytes>)
    requires Readable(v, after) && values.Keys == FieldNames(m.fields)
    requires forall f :: f in values ==> (m.id, f) in before && OpenRow(v, before, (m.id, f)) == Ok(values[f])
    requires FieldsKept(before, after, m.id)
    ensures HasAll(Plaintext(v, after), m)
    ensures FieldsSame(before, after, m.id) ==> DeclaredValues(Plaintext(v, after), m) == values
  {
    if FieldsSame(before, after, m.id) {
      forall f | f in values
        ensures Plaintext(v, after)[(m.id, f)] == values[f]
      {
        assert GetBlob(before, m.id, f, None) == GetBlob(after, m.id, f, None);
      }
    }
  }

  /**
    In that time a collection of id, whatever fails in it, never ends for want of credentials; the Fetcher is called
    whenever the provider is enabled and live and all reads succeed, and it gets exactly the values that were set (or,
    after further PUTs, some value for every declared field and nothing else).
  */
  lemma SetCredentialsReachTheFetcher(c: Config, s: State, r: Ref, put: Op, ops: seq<Op>, m: Metadata, env: CollectEnv)
    requires StandsFor(c, s, r) && Accepted(c, s, put, m) && LegalRun(ops) && AllSpare(ops, put.id, m)
    ensures var s' := Run(c, Apply(c, s, put).0, ops).0;
      var got := CollectCycle(DepsOf(c, s'), s'.tables, put.id, env);
      && (RefreshStatus(got.outcome) == ConflictUncredentialed ==>
            env.fetch.Err? && Root(env.fetch.error) == ProviderUncredentialed)
      && (got.calledWith.Some? <==>
            && EnabledIn(s'.tables.rows, put.id) && put.id in s'.fetchers && env.get.None? && ReadsSucceed(m, env.secret))
      && (got.calledWith.Some? ==> got.calledWith.value.Keys == FieldNames(m.fields))
      && (got.calledWith.Some? && AllLeaveAlone(ops, put.id, m) ==> got.calledWith.value == put.values)
  {
    SetCredentialsStay(c, s, r, put, ops, m);
    var s' := Run(c, Apply(c, s, put).0, ops).0;
    DeclaredCollect(DepsOf(c, s'), s'.tables, put.id, m, env);
    DeclaredNames(Plaintext(c.vault, s'.tables.creds), m);
  }

  lemma DeclaredNames(p: Plain, m: Metadata)
    requires HasAll(p, m)
    ensures DeclaredValues(p, m).Keys == FieldNames(m.fields)
  {
  }

  ghost predicate ReadsSucceed(m: Metadata, secret: nat -> Fault) {
    forall i :: 0 <= i < |m.fields| ==> secret(i).None?
  }

  /** A provider with a value for every declared field is collected with exactly those values, or not at all. */
  lemma DeclaredCollect(d: Deps, t: Tables, id: Bytes, m: Metadata, env: CollectEnv)
    requires Find(d.registry, id) == Some(m)
    requires Readable(d.vault, t.creds) && HasAll(Plaintext(d.vault, t.creds), m)
    ensures var got := CollectCycle(d, t, id, env);
      && (RefreshStatus(got.outcome) == ConflictUncredentialed ==>
            env.fetch.Err? && Root(env.fetch.error) == ProviderUncredentialed)
      && (got.calledWith.Some? <==>
            EnabledIn(t.rows, id) && id in d.fetchers && env.get.None? && ReadsSucceed(m, env.secret))
      && (got.calledWith.Some? ==> got.calledWith.value == DeclaredValues(Plaintext(d.vault, t.creds), m))
  {
    var p := Plaintext(d.vault, t.creds);
    LoadsStoredPlaintext(d.vault, t.creds, m, env.secret);
    OnlyReadsFail(p, m, env.secret);
    match FirstUnavailable(p, m, env.secret)
    case Some(i) =>
      UncalledCollect(d, t, id, m, env, env.secret(i).value);
    case None =>
      CredentialedCall(d, t, id, m, env);
      CredentialedStatus(d, t, id, m, env);
  }

  lemma OnlyReadsFail(p: Plain, m: Metadata, secret: nat -> Fault)
    requires HasAll(p, m)
    ensures match FirstUnavailable(p, m, secret)
      case Some(i) => secret(i).Some? && !ReadsSucceed(m, secret)
      case None => ReadsSucceed(m, secret)
  {
    forall i | 0 <= i < |m.fields|
      ensures Unavailable(p, m, secret, i) <==> secret(i).Some?
    {
      assert m.fields[i].name in FieldNames(m.fields);
    }
  }

  /** A failed read of a credential is an internal error, and ends the collection before the Fetcher is called. */
  lemma UncalledCollect(d: Deps, t: Tables, id: Bytes, m: Metadata, env: CollectEnv, code: int)
    requires Find(d.registry, id) == Some(m)
    requires LoadAll(d.vault, t.creds, m, env.secret) == Err(Wrapped(Wrapped(StoreError(code))))
    ensures var got := CollectCycle(d, t, id, env);
      got.calledWith.None? && RefreshStatus(got.outcome) != ConflictUncredentialed
  {
    StoreErrorRoot(code);
    StatusOfRoot(Wrapped(Wrapped(StoreError(code))));
    if env.get.Some? {
      StoreErrorRoot(env.get.value);
    }
  }

  lemma PutStoresDeclared(c: Config, s: State, put: Op, m: Metadata)
    requires Accepted(c, s, put, m)
    ensures put.values.Keys == FieldNames(m.fields) && m.id == put.id
    ensures var s1 := Apply(c, s, put).0;
      (s1.tables.creds, None) == WriteFields(c.vault, s.tables.creds, put.id, put.values, put.order, put.write)
  {
    NamesAgree(m.fields);
  }

  lemma PutStoresValue(c: Config, s: State, r: Ref, put: Op, m: Metadata, f: Bytes)
    requires StandsFor(c, s, r) && Accepted(c, s, put, m) && f in FieldNames(m.fields)
    ensures var creds := Apply(c, s, put).0.tables.creds;
      f in put.values && (put.id, f) in creds && OpenRow(c.vault, creds, (put.id, f)) == Ok(put.values[f])
  {
    PutStoresDeclared(c, s, put, m);
    WrittenValueOpens(c.vault, s.tables.creds, put.id, put.values, put.order, put.write, f);
  }

  lemma WrittenValueOpens(
    v: Vault, creds: Creds, id: Bytes, values: map<Bytes, Bytes>, order: seq<Bytes>, env: WriteEnv, f: Bytes)
    requires Readable(v, creds) && IterationOrder(order, values) && f in values
    requires WriteFields(v, creds, id, values, order, env).1.None?
    ensures var creds' := WriteFields(v, creds, id, values, order, env).0;
      (id, f) in creds' && OpenRow(v, creds', (id, f)) == Ok(values[f])
  {
    WriteFieldsRefines(v, creds, id, values, order, env);
    SuccessWritesAll(v, creds, id, values, order, env);
    StoredValue(Plaintext(v, creds), id, values, f);
    assert (id, f) in Plaintext(v, WriteFields(v, creds, id, values, order, env).0);
  }

  lemma StoredValue(p: Plain, id: Bytes, values: map<Bytes, Bytes>, f: Bytes)
    requires f in values
    ensures (id, f) in Stored(p, id, values, values.Keys) && Stored(p, id, values, values.Keys)[(id, f)] == values[f]
  {
  }

  /** With credentials loaded, the Fetcher of an enabled provider is called, with these. */
  lemma CredentialedCall(d: Deps, t: Tables, id: Bytes, m: Metadata, env: CollectEnv)
    requires Find(d.registry, id) == Some(m)
    requires LoadAll(d.vault, t.creds, m, env.secret).Ok?
    ensures CollectCycle(d, t, id, env).calledWith ==
      if EnabledIn(t.rows, id) && id in d.fetchers && env.get.None? then Some(LoadAll(d.vault, t.creds, m, env.secret).value)
      else None
  {
    FetchMatches(d, t.snaps, id, LoadAll(d.vault, t.creds, m, env.secret).value, env);
  }

  /** ... and "uncredentialed" can only come out of the Fetcher's own error. */
  lemma CredentialedStatus(d: Deps, t: Tables, id: Bytes, m: Metadata, env: CollectEnv)
    requires Find(d.registry, id) == Some(m)
    requires LoadAll(d.vault, t.creds, m, env.secret).Ok?
    ensures RefreshStatus(CollectCycle(d, t, id, env).outcome) == ConflictUncredentialed ==>
      env.fetch.Err? && Root(env.fetch.error) == ProviderUncredentialed
  {
    if env.get.Some? {
      StoreErrorRoot(env.get.value);
    } else if EnabledIn(t.rows, id) {
      FetchStatus(d, t.snaps, id, LoadAll(d.vault, t.creds, m, env.secret).value, env);
      if env.fetch.Err? {
        StatusOfRoot(Root(env.fetch.error));
      }
    }
  }
}
