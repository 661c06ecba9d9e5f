/**
  What the service is meant to show: the same operations on plaintext and plain facts. There is no ciphertext, no
  table, no loop over fields or providers that carries state along, and a tick judges all providers at once.
*/
module Reference {
  import opened Basics
  import opened Errors
  import opened Cooldown
  import opened Store
  import opened Providers
  import opened Credentials
  import opened Collection
  import opened Scheduling

  datatype Op =
    | Boot(newRegistry: Registry, newFetchers: Fetchers, attempt: Attempt)
    | Tick(listFault: Fault, envs: Bytes -> TurnEnv, cancelled: nat -> bool)
    | Refresh(id: Bytes, env: CollectEnv)
    | Put(id: Bytes, values: map<Bytes, Bytes>, get: Fault, order: seq<Bytes>, write: WriteEnv)
    | Drop(id: Bytes, get: Fault, delete: Fault)
    | Switch(id: Bytes, on: bool, fault: Fault)

  /** What the caller of an operation, or the log of a tick, gets to see. */
  datatype Obs =
    | Down
    | Done(err: Option<Error>)
    | Ticked(log: seq<(Bytes, Turn)>)
    | Refreshed(outcome: Result<Snapshot, Error>, calledWith: Option<map<Bytes, Bytes>>)

  ghost predicate Legal(op: Op) {
    match op
    case Boot(registry, fetchers, _) => DistinctIds(registry) && FetchersKnown(registry, fetchers)
    case Put(_, values, _, order, _) => IterationOrder(order, values)
    case _ => true
  }

  /** What the Fetcher returned in the latest successful collection of each provider, and when. */
  type Latest = map<Bytes, (seq<UsageMetric>, Time)>

  /**
    Whether the process runs, and with which build; the providers known to any boot so far and the flag last set for
    each; the plaintext of every stored credential; the latest collections; the cooldown.
  */
  datatype Ref = Ref(
    up: bool, registry: Registry, fetchers: Fetchers, known: set<Bytes>, flags: map<Bytes, bool>,
    plain: Plain, latest: Latest, entries: Entries)

  const NOTHING := Ref(false, [], map[], {}, map[], map[], map[], map[])

  predicate On(r: Ref, id: Bytes) {
    id in r.flags && r.flags[id]
  }

  function Resolve(r: Ref, id: Bytes, fault: Fault): Result<Metadata, Error> {
    match Find(r.registry, id)
    case None => Err(NotFound)
    case Some(m) =>
      if fault.Some? then Err(StoreError(fault.value))
      else if id !in r.known then Err(NotFound)
      else Ok(m)
  }

  // -------------------------------------------------------------------------------------------------
  // Collecting

  /** What comes of a call of the Fetcher. */
  function Answer(id: Bytes, env: CollectEnv): Result<Snapshot, Error> {
    match env.fetch
    case Err(e) => Err(Wrapped(e))
    case Ok(metrics) =>
      if env.replace.Some? then Err(Wrapped(StoreError(env.replace.value)))
      else Ok(Snapshot(id, ToStoreMetrics(metrics), env.now, None))
  }

  /** The outcome of a collection, and the credentials the Fetcher is called with: all declared ones, or no call. */
  ghost function Expected(r: Ref, id: Bytes, env: CollectEnv): (Result<Snapshot, Error>, Option<map<Bytes, Bytes>>) {
    match Resolve(r, id, env.get)
    case Err(e) => (Err(e), None)
    case Ok(m) =>
      if !On(r, id) then (Err(ProviderDisabled), None)
      else match FirstUnavailable(r.plain, m, env.secret)
           case Some(i) => (Err(WhyUnavailable(env.secret(i))), None)
           case None =>
             NoneUnavailable(r.plain, m, env.secret);
             if id !in r.fetchers then (Err(FetcherNotFound), None)
             else (Answer(id, env), Some(DeclaredValues(r.plain, m)))
  }

  ghost function WithResult(latest: Latest, id: Bytes, env: CollectEnv, outcome: Result<Snapshot, Error>): Latest {
    if outcome.Ok? && env.fetch.Ok? then latest[id := (env.fetch.value, env.now)] else latest
  }

  ghost function ExpectedTurn(r: Ref, id: Bytes, env: TurnEnv): Turn {
    if Gated(r.entries, id, env.gateAt) then Skipped else Called(Expected(r, id, env.collect).0)
  }

  /** The turns of a tick from registry position i on, each judged by the state before the tick. */
  ghost function ExpectedTurns(r: Ref, envs: Bytes -> TurnEnv, i: nat, cancelled: nat -> bool): seq<(Bytes, Turn)>
    requires i <= |r.registry|
    decreases |r.registry| - i
  {
    if i == |r.registry| then []
    else
      var id := r.registry[i].id;
      if !On(r, id) then ExpectedTurns(r, envs, i + 1, cancelled)
      else if cancelled(i) then []
      else [(id, ExpectedTurn(r, id, envs(id)))] + ExpectedTurns(r, envs, i + 1, cancelled)
  }

  ghost function WithLog(latest: Latest, log: seq<(Bytes, Turn)>, envs: Bytes -> TurnEnv): Latest
    decreases log
  {
    if log == [] then latest
    else
      var (id, turn) := log[0];
      var latest1 := if turn.Called? then WithResult(latest, id, envs(id).collect, turn.outcome) else latest;
      WithLog(latest1, log[1..], envs)
  }

  /** The cooldown after the turns of a log: successes clear, rejections extend. */
  ghost function AfterLog(entries: Entries, limits: Limits, log: seq<(Bytes, Turn)>, envs: Bytes -> TurnEnv): Entries
    decreases log
  {
    if log == [] then entries
    else
      var (id, turn) := log[0];
      var entries1 :=
        if turn.Called? then AfterOutcome(entries, Some(limits), id, turn.outcome, envs(id).failAt) else entries;
      AfterLog(entries1, limits, log[1..], envs)
  }

  // -------------------------------------------------------------------------------------------------
  // Setting credentials, and starting up

  /** Why storing this field fails, if it does. */
  function Refusal(env: WriteEnv, field: Bytes): Option<Error> {
    if env.draw(field).Err? then Some(Wrapped(Wrapped(Other(env.draw(field).error))))
    else if env.upsert(field).Some? then Some(Wrapped(StoreError(env.upsert(field).value)))
    else None
  }

  /** How many fields of the order come before the first refused one. */
  function FirstRefused(env: WriteEnv, order: seq<Bytes>): (n: nat)
    ensures n <= |order| && forall j :: 0 <= j < n ==> Refusal(env, order[j]).None?
    ensures n < |order| ==> Refusal(env, order[n]).Some?
  {
    if order == [] || Refusal(env, order[0]).Some? then 0
    else
      var n := FirstRefused(env, order[1..]);
      assert forall j :: 1 <= j < 1 + n ==> order[j] == order[1..][j - 1];
      1 + n
  }

  /** The first registry position from i on that has no row and cannot be given one. */
  function FirstMissed(registry: Registry, known: set<Bytes>, faults: nat -> Fault, i: nat := 0): (n: nat)
    requires i <= |registry|
    ensures i <= n <= |registry|
    ensures forall j :: i <= j < n ==> registry[j].id in known || faults(j).None?
    ensures n < |registry| ==> registry[n].id !in known && faults(n).Some?
    decreases |registry| - i
  {
    if i == |registry| || (registry[i].id !in known && faults(i).Some?) then i
    else FirstMissed(registry, known, faults, i + 1)
  }

  ghost function Booted(r: Ref, registry: Registry, fetchers: Fetchers, attempt: Attempt): (Ref, Obs) {
    var stopped := r.(up := false, registry := registry, fetchers := fetchers, entries := map[]);
    if attempt.listFault.Some? then (stopped, Done(Some(Wrapped(StoreError(attempt.listFault.value)))))
    else
      var n := FirstMissed(registry, r.known, attempt.faults);
      var r' := stopped.(known := r.known + Ids(registry[..n]));
      if n < |registry| then (r', Done(Some(Wrapped(StoreError(attempt.faults(n).value)))))
      else (r'.(up := true), Done(None))
  }

  ghost function AfterSet(r: Ref, id: Bytes, values: map<Bytes, Bytes>, get: Fault, order: seq<Bytes>, env: WriteEnv)
    : (Ref, Obs)
    requires IterationOrder(order, values)
  {
    match Resolve(r, id, get)
    case Err(e) => (r, Done(Some(e)))
    case Ok(m) =>
      var names := FieldNames(m.fields);
      if values.Keys != names then (r, Done(Some(InvalidFields(names - values.Keys, values.Keys - names))))
      else
        var n := FirstRefused(env, order);
        if n < |order| then
          (r.(plain := Stored(r.plain, id, values, Elements(order[..n]))), Done(Refusal(env, order[n])))
        else (r.(plain := Stored(r.plain, id, values, values.Keys), entries := r.entries - {id}), Done(None))
  }

  // -------------------------------------------------------------------------------------------------
  // One operation

  ghost function After(limits: Limits, r: Ref, op: Op): (Ref, Obs)
    requires Legal(op)
  {
    if op.Boot? then Booted(r, op.newRegistry, op.newFetchers, op.attempt)
    else if !r.up then (r, Down)
    else match op
    case Tick(listFault, envs, cancelled) =>
      if listFault.Some? then (r, Ticked([]))
      else
        var log := ExpectedTurns(r, envs, 0, cancelled);
        (r.(latest := WithLog(r.latest, log, envs), entries := AfterLog(r.entries, limits, log, envs)), Ticked(log))
    case Refresh(id, env) =>
      var (outcome, calledWith) := Expected(r, id, env);
      (r.(latest := WithResult(r.latest, id, env, outcome)), Refreshed(outcome, calledWith))
    case Put(id, values, get, order, write) => AfterSet(r, id, values, get, order, write)
    case Drop(id, get, delete) =>
      (match Resolve(r, id, get)
       case Err(e) => (r, Done(Some(e)))
       case Ok(_) =>
         if delete.Some? then (r, Done(Some(Wrapped(StoreError(delete.value)))))
         else (r.(plain := map k | k in r.plain && k.0 != id :: r.plain[k]), Done(None)))
    case Switch(id, on, fault) =>
      match Resolve(r, id, fault)
      case Err(e) => (r, Done(Some(e)))
      case Ok(_) => (r.(flags := r.flags[id := on]), Done(None))
  }

  ghost predicate LegalRun(ops: seq<Op>) {
    forall i :: 0 <= i < |ops| ==> Legal(ops[i])
  }

  /** The reference run from nothing. */
  ghost function History(limits: Limits, ops: seq<Op>): (Ref, seq<Obs>)
    requires LegalRun(ops)
  {
    if ops == [] then (NOTHING, [])
    else
      var n := |ops| - 1;
      var (r, obs) := History(limits, ops[..n]);
      var (r', o) := After(limits, r, ops[n]);
      (r', obs + [o])
  }
}
