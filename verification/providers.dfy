/** The compiled-in registry merged with persisted rows, and the runtime fetcher registry. */
module Providers {
  import opened Basics
  import opened Errors
  import opened Backoff
  import opened Store

  datatype CredentialField = CredentialField(name: Bytes, title: Bytes, isSecret: bool)

  datatype Metadata = Metadata(id: Bytes, name: Bytes, fields: seq<CredentialField>)

  datatype Provider = Provider(meta: Metadata, enabled: bool, live: bool)

  /** provider.UsageMetric, declared apart from store.Metric as in the program. */
  datatype UsageMetric = UsageMetric(
    name: Bytes, window: Bytes, unit: Bytes, used: int64,
    limit: Option<int64>, remaining: Option<int64>, resetAt: Option<Time>)

  /** A Fetcher; what one call of it returns is an input of the operation that makes the call. */
  datatype Fetcher = Fetcher(meta: Metadata)

  type Registry = seq<Metadata>
  type Fetchers = map<Bytes, Fetcher>
  type FetchReply = Result<seq<UsageMetric>, Error>

  ghost predicate DistinctIds(registry: Registry) {
    forall i, j :: 0 <= i < j < |registry| ==> registry[i].id != registry[j].id
  }

  ghost function Ids(registry: Registry): set<Bytes> {
    set m | m in registry :: m.id
  }

  /** The first registry entry with this id. */
  function Find(registry: Registry, id: Bytes): (r: Option<Metadata>)
    ensures r.Some? <==> exists i :: 0 <= i < |registry| && registry[i].id == id
    ensures r.Some? ==> r.value in registry && r.value.id == id
  {
    if registry == [] then None
    else if registry[0].id == id then
      assert registry[0].id == id;
      Some(registry[0])
    else
      var r := Find(registry[1..], id);
      assert r.None? ==> forall i :: 0 <= i < |registry| && i > 0 ==> registry[i] == registry[1..][i - 1];
      assert r.Some? ==> exists i :: 0 <= i < |registry[1..]| && registry[1..][i].id == id && registry[i + 1].id == id;
      r
  }

  /** Of several entries with one id the first is found. */
  lemma {:induction false} FindIsFirst(registry: Registry, id: Bytes, i: nat)
    requires i < |registry| && registry[i].id == id && forall j :: 0 <= j < i ==> registry[j].id != id
    ensures Find(registry, id) == Some(registry[i])
  {
    if i > 0 {
      FindIsFirst(registry[1..], id, i - 1);
    }
  }

  // -------------------------------------------------------------------------------------------------
  // Queries

  predicate EnabledIn(rows: Rows, id: Bytes) {
    id in rows && rows[id]
  }

  function Merged(m: Metadata, rows: Rows, fetchers: Fetchers): Provider {
    Provider(m, EnabledIn(rows, m.id), m.id in fetchers)
  }

  function MergedList(registry: Registry, rows: Rows, fetchers: Fetchers): seq<Provider> {
    seq(|registry|, i requires 0 <= i < |registry| => Merged(registry[i], rows, fetchers))
  }

  function GetProvider(registry: Registry, rows: Rows, fetchers: Fetchers, id: Bytes, fault: Fault)
    : Result<Provider, Error>
  {
    match Find(registry, id)
    case None => Err(NotFound)
    case Some(m) =>
      match GetRow(rows, id, fault)
      case Err(e) => Err(e)
      case Ok(row) => Ok(Provider(m, row.enabled, id in fetchers))
  }

  /** The two queries never disagree: List shows exactly what Get returns, and a row-less entry as disabled. */
  lemma ListAgreesWithGet(registry: Registry, rows: Rows, fetchers: Fetchers, i: nat)
    requires DistinctIds(registry) && i < |registry|
    ensures var id, shown := registry[i].id, MergedList(registry, rows, fetchers)[i];
      && (id in rows ==> GetProvider(registry, rows, fetchers, id, None) == Ok(shown))
      && (id !in rows ==> GetProvider(registry, rows, fetchers, id, None) == Err(NotFound) && !shown.enabled)
  {
  }

  /** Service.SetEnabled on the rows: one flag of a known provider with a row, or an error and no change. */
  function SwitchRow(registry: Registry, rows: Rows, id: Bytes, enabled: bool, fault: Fault): (Rows, Option<Error>) {
    if Find(registry, id).None? then (rows, Some(NotFound))
    else match UpdateRow(rows, id, enabled, fault)
         case Err(e) => (rows, Some(e))
         case Ok(rows') => (rows', None)
  }

  /** Get and List see the flag that was set, and the switch of every other provider is as before. */
  lemma SwitchThenGet(registry: Registry, rows: Rows, fetchers: Fetchers, id: Bytes, enabled: bool, fault: Fault, other: Bytes)
    ensures var (rows', err) := SwitchRow(registry, rows, id, enabled, fault);
      && (err.None? <==> Find(registry, id).Some? && id in rows && fault.None?)
      && GetProvider(registry, rows', fetchers, other, None) ==
           (if err.None? && other == id then Ok(Provider(Find(registry, id).value, enabled, id in fetchers))
            else GetProvider(registry, rows, fetchers, other, None))
  {
  }

  /** Service.FetchUsage, given what the Fetcher replies if it is called. */
  function FetchOutcome(registry: Registry, fetchers: Fetchers, id: Bytes, reply: FetchReply): FetchReply {
    if Find(registry, id).None? then Err(FetcherNotFound)
    else if id !in fetchers then Err(FetcherNotFound)
    else match reply
         case Err(e) => Err(Wrapped(e))
         case Ok(metrics) => Ok(metrics)
  }

  /** Only ids of the metadata registry ever get a Fetcher. */
  ghost predicate FetchersKnown(registry: Registry, fetchers: Fetchers) {
    forall id :: id in fetchers ==> Find(registry, id).Some?
  }

  /** "No fetcher" is reported exactly for ids that are not live, unless the Fetcher itself claims it. */
  lemma FetcherNotFoundIffNotLive(registry: Registry, fetchers: Fetchers, id: Bytes, reply: FetchReply)
    requires FetchersKnown(registry, fetchers)
    ensures var r := FetchOutcome(registry, fetchers, id, reply);
      (r.Err? && Is(r.error, FetcherNotFound))
      <==> (id !in fetchers || (reply.Err? && Root(reply.error) == FetcherNotFound))
  {
    if reply.Err? {
      IsMatchesRoot(Wrapped(reply.error), FetcherNotFound);
    }
  }

  // -------------------------------------------------------------------------------------------------
  // Reconciliation

  /** The rows after creating, from entry i on, every registry entry that is not among the ids seen at the start. */
  function CreateMissing(registry: Registry, have: set<Bytes>, rows: Rows, i: nat, faults: nat -> Fault)
    : (Rows, Option<Error>)
    requires i <= |registry|
    decreases |registry| - i
  {
    if i == |registry| then (rows, None)
    else if registry[i].id in have then CreateMissing(registry, have, rows, i + 1, faults)
    else match CreateRow(rows, registry[i].id, false, faults(i))
         case Err(e) => (rows, Some(Wrapped(e)))
         case Ok(rows') => CreateMissing(registry, have, rows', i + 1, faults)
  }

  /** Wherever creation stops, old rows are untouched, and new ones belong to registered providers and are disabled. */
  lemma {:induction false} CreatingOnlyAdds(registry: Registry, have: set<Bytes>, rows: Rows, i: nat, faults: nat -> Fault)
    requires i <= |registry|
    ensures var rows' := CreateMissing(registry, have, rows, i, faults).0;
      && (forall id :: id in rows ==> id in rows' && rows'[id] == rows[id])
      && (forall id :: id in rows' && id !in rows ==> id in Ids(registry) && !rows'[id])
    decreases |registry| - i
  {
    if i < |registry| {
      var id := registry[i].id;
      if id in have {
        CreatingOnlyAdds(registry, have, rows, i + 1, faults);
      } else if faults(i).None? && id !in rows {
        assert id in Ids(registry);
        CreatingOnlyAdds(registry, have, rows[id := false], i + 1, faults);
      }
    }
  }

  lemma IdsUpTo(registry: Registry, i: nat)
    requires i < |registry|
    ensures Ids(registry[..i + 1]) == Ids(registry[..i]) + {registry[i].id}
  {
    assert registry[..i + 1] == registry[..i] + [registry[i]];
  }

  /** What the i-th entry comes to: nothing, an error, or one more row. */
  lemma NextCreated(registry: Registry, have: set<Bytes>, rows: Rows, i: nat, faults: nat -> Fault)
    requires i < |registry|
    ensures var created := CreateRow(rows, registry[i].id, false, faults(i));
      CreateMissing(registry, have, rows, i, faults) ==
        if registry[i].id in have then CreateMissing(registry, have, rows, i + 1, faults)
        else if created.Err? then (rows, Some(Wrapped(created.error)))
        else CreateMissing(registry, have, created.value, i + 1, faults)
  {
  }

  function Reconciled(registry: Registry, rows: Rows, listFault: Fault, faults: nat -> Fault): (Rows, Option<Error>) {
    if listFault.Some? then (rows, Some(Wrapped(StoreError(listFault.value))))
    else CreateMissing(registry, rows.Keys, rows, 0, faults)
  }

  /** What reconciliation is for: old rows untouched, every registered provider present, newcomers disabled. */
  ghost function Completed(registry: Registry, rows: Rows): Rows {
    (map id | id in Ids(registry) :: false) + rows
  }

  lemma {:induction false} CreateMissingOnSuccess(registry: Registry, have: set<Bytes>, rows: Rows, i: nat, faults: nat -> Fault)
    requires i <= |registry| && have <= rows.Keys
    requires CreateMissing(registry, have, rows, i, faults).1.None?
    ensures forall j :: i <= j < |registry| ==> registry[j].id in CreateMissing(registry, have, rows, i, faults).0
    decreases |registry| - i
  {
    if i < |registry| {
      CreatingOnlyAdds(registry, have, rows, i, faults);
      if registry[i].id in have {
        CreateMissingOnSuccess(registry, have, rows, i + 1, faults);
      } else {
        CreatingOnlyAdds(registry, have, rows[registry[i].id := false], i + 1, faults);
        CreateMissingOnSuccess(registry, have, rows[registry[i].id := false], i + 1, faults);
      }
    }
  }

  lemma ReconciledOnSuccess(registry: Registry, rows: Rows, listFault: Fault, faults: nat -> Fault)
    requires Reconciled(registry, rows, listFault, faults).1.None?
    ensures Reconciled(registry, rows, listFault, faults).0 == Completed(registry, rows)
  {
    CreateMissingOnSuccess(registry, rows.Keys, rows, 0, faults);
    CreatingOnlyAdds(registry, rows.Keys, rows, 0, faults);
    var after, want := Reconciled(registry, rows, listFault, faults).0, Completed(registry, rows);
    assert after.Keys == want.Keys;
  }

  /** A run that stops anywhere has only added disabled rows for registered ids: completing it loses nothing. */
  lemma ReconciledNeverStrays(registry: Registry, rows: Rows, listFault: Fault, faults: nat -> Fault)
    ensures Completed(registry, Reconciled(registry, rows, listFault, faults).0) == Completed(registry, rows)
  {
    CreatingOnlyAdds(registry, rows.Keys, rows, 0, faults);
  }

  lemma {:induction false} FaultFreeCreateSucceeds(registry: Registry, have: set<Bytes>, rows: Rows, i: nat, faults: nat -> Fault)
    requires i <= |registry| && DistinctIds(registry)
    requires forall j :: faults(j).None?
    requires forall j :: i <= j < |registry| && registry[j].id in rows ==> registry[j].id in have
    ensures CreateMissing(registry, have, rows, i, faults).1.None?
    decreases |registry| - i
  {
    if i < |registry| {
      if registry[i].id in have {
        FaultFreeCreateSucceeds(registry, have, rows, i + 1, faults);
      } else {
        FaultFreeCreateSucceeds(registry, have, rows[registry[i].id := false], i + 1, faults);
      }
    }
  }

  /** One boot attempt: whether listing fails, and which Create calls fail. */
  datatype Attempt = Attempt(listFault: Fault, faults: nat -> Fault)

  function AfterAttempts(registry: Registry, rows: Rows, attempts: seq<Attempt>): Rows {
    if attempts == [] then rows
    else
      var before := AfterAttempts(registry, rows, attempts[..|attempts| - 1]);
      var a := attempts[|attempts| - 1];
      Reconciled(registry, before, a.listFault, a.faults).0
  }

  lemma {:induction false} AttemptsNeverStray(registry: Registry, rows: Rows, attempts: seq<Attempt>)
    ensures Completed(registry, AfterAttempts(registry, rows, attempts)) == Completed(registry, rows)
  {
    if attempts != [] {
      var a := attempts[|attempts| - 1];
      AttemptsNeverStray(registry, rows, attempts[..|attempts| - 1]);
      ReconciledNeverStrays(registry, AfterAttempts(registry, rows, attempts[..|attempts| - 1]), a.listFault, a.faults);
    }
  }

  /**
    Crash tolerance: after any number of attempts that break off anywhere, the first one that succeeds leaves the
    rows of a single uninterrupted run, and with distinct ids an attempt without store faults does succeed.
  */
  lemma ReconcileIsCrashTolerant(registry: Registry, rows: Rows, attempts: seq<Attempt>, last: Attempt, clean: nat -> Fault)
    requires DistinctIds(registry) && forall j :: clean(j).None?
    ensures var before := AfterAttempts(registry, rows, attempts);
      && Reconciled(registry, rows, None, clean) == (Completed(registry, rows), None)
      && Reconciled(registry, before, None, clean) == (Completed(registry, rows), None)
      && var r := Reconciled(registry, before, last.listFault, last.faults);
         r.1.None? ==> r.0 == Completed(registry, rows)
  {
    var before := AfterAttempts(registry, rows, attempts);
    AttemptsNeverStray(registry, rows, attempts);
    FaultFreeCreateSucceeds(registry, rows.Keys, rows, 0, clean);
    ReconciledOnSuccess(registry, rows, None, clean);
    FaultFreeCreateSucceeds(registry, before.Keys, before, 0, clean);
    ReconciledOnSuccess(registry, before, None, clean);
    if Reconciled(registry, before, last.listFault, last.faults).1.None? {
      ReconciledOnSuccess(registry, before, last.listFault, last.faults);
    }
  }

  // -------------------------------------------------------------------------------------------------
  // The stateful services

  ghost function RowIds(listed: seq<Row>): set<Bytes> {
    set row | row in listed :: row.id
  }

  /** The ids of a listing, which are those of the table it lists. */
  method IdsOf(listed: seq<Row>, ghost rows: Rows) returns (have: set<Bytes>)
    requires Enumerates(listed, rows)
    ensures have == rows.Keys == RowIds(listed)
  {
    have := {};
    for i := 0 to |listed|
      invariant have == RowIds(listed[..i])
    {
      assert listed[..i + 1] == listed[..i] + [listed[i]];
      have := have + {listed[i].id};
    }
    assert listed[..|listed|] == listed;
    assert forall id :: id in rows ==> Row(id, rows[id]) in listed && Row(id, rows[id]).id in have;
  }

  /** The listed ids that no registry entry accounts for. */
  method Unknown(listed: seq<Row>, known: set<Bytes>) returns (warned: set<Bytes>)
    ensures warned == RowIds(listed) - known
  {
    warned := {};
    for i := 0 to |listed|
      invariant warned == RowIds(listed[..i]) - known
    {
      assert listed[..i + 1] == listed[..i] + [listed[i]];
      if listed[i].id !in known {
        warned := warned + {listed[i].id};
      }
    }
    assert listed[..|listed|] == listed;
  }

  class RuntimeRegistry {
    var fetch: Fetchers

    constructor ()
      ensures fetch == map[]
    {
      fetch := map[];
    }

    /** Reports the panic of a duplicate registration instead of raising it. */
    method Register(id: Bytes, fetcher: Fetcher) returns (panicked: bool)
      modifies this
      ensures panicked <==> id in old(fetch)
      ensures fetch == if panicked then old(fetch) else old(fetch)[id := fetcher]
    {
      if id in fetch {
        return true;
      }
      fetch := fetch[id := fetcher];
      return false;
    }

    method Lookup(id: Bytes) returns (r: Result<Fetcher, Error>)
      ensures r == if id in fetch then Ok(fetch[id]) else Err(FetcherNotFound)
    {
      if id !in fetch {
        return Err(FetcherNotFound);
      }
      return Ok(fetch[id]);
    }

    method Has(id: Bytes) returns (b: bool)
      ensures b <==> id in fetch
    {
      b := id in fetch;
    }
  }

  class Service {
    const registry: Registry
    const repo: Repository
    const fetchers: RuntimeRegistry

    ghost predicate Valid()
      reads fetchers
    {
      FetchersKnown(registry, fetchers.fetch)
    }

    constructor (repo: Repository, registry: Registry)
      ensures Valid() && fresh(fetchers)
      ensures this.repo == repo && this.registry == registry && fetchers.fetch == map[]
    {
      this.registry := registry;
      this.repo := repo;
      this.fetchers := new RuntimeRegistry();
    }

    method LookupMetadata(id: Bytes) returns (r: Option<Metadata>)
      ensures r == Find(registry, id)
    {
      var i := 0;
      while i < |registry|
        invariant 0 <= i <= |registry|
        invariant Find(registry, id) == Find(registry[i..], id)
      {
        if registry[i].id == id {
          return Some(registry[i]);
        }
        assert registry[i..][1..] == registry[i + 1..];
        i := i + 1;
      }
      return None;
    }

    method List(fault: Fault) returns (r: Result<seq<Provider>, Error>)
      ensures fault.Some? ==> r == Err(Wrapped(StoreError(fault.value)))
      ensures fault.None? ==> r == Ok(MergedList(registry, repo.rows, fetchers.fetch))
    {
      var listed := repo.List(fault);
      if listed.Err? {
        return Err(Wrapped(listed.error));
      }
      var rows := listed.value;
      var enabled: map<Bytes, bool> := map[];
      for i := 0 to |rows|
        invariant forall id :: id in enabled ==> id in repo.rows && enabled[id] == repo.rows[id]
        invariant forall j :: 0 <= j < i ==> rows[j].id in enabled
      {
        enabled := enabled[rows[i].id := rows[i].enabled];
      }
      assert forall id :: id in repo.rows ==> Row(id, repo.rows[id]) in rows;
      var providers: seq<Provider> := [];
      for i := 0 to |registry|
        invariant providers == MergedList(registry, repo.rows, fetchers.fetch)[..i]
      {
        var m := registry[i];
        var live := HasFetcher(m.id);
        providers := providers + [Provider(m, m.id in enabled && enabled[m.id], live)];
      }
      assert providers == MergedList(registry, repo.rows, fetchers.fetch);
      return Ok(providers);
    }

    method Get(id: Bytes, fault: Fault) returns (r: Result<Provider, Error>)
      ensures r == GetProvider(registry, repo.rows, fetchers.fetch, id, fault)
    {
      var m := LookupMetadata(id);
      if m.None? {
        return Err(NotFound);
      }
      var row := repo.Get(id, fault);
      if row.Err? {
        return Err(row.error);
      }
      var live := HasFetcher(id);
      return Ok(Provider(m.value, row.value.enabled, live));
    }

    method SetEnabled(id: Bytes, enabled: bool, fault: Fault) returns (r: Result<Provider, Error>)
      modifies repo`rows
      ensures var (rows', err) := SwitchRow(registry, old(repo.rows), id, enabled, fault);
        && repo.rows == rows'
        && (match err
            case Some(e) => r == Err(e)
            case None => Find(registry, id).Some? && r == Ok(Provider(Find(registry, id).value, enabled, id in fetchers.fetch)))
    {
      var m := LookupMetadata(id);
      if m.None? {
        return Err(NotFound);
      }
      var err := repo.SetEnabled(id, enabled, fault);
      if err.Some? {
        return Err(err.value);
      }
      var live := HasFetcher(id);
      return Ok(Provider(m.value, enabled, live));
    }

    /** `warned` are the persisted ids the program logs as having no registry entry. */
    method Reconcile(listFault: Fault, faults: nat -> Fault) returns (err: Option<Error>, warned: set<Bytes>)
      modifies repo`rows
      ensures (repo.rows, err) == Reconciled(registry, old(repo.rows), listFault, faults)
      ensures err.None? ==> warned == old(repo.rows).Keys - Ids(registry)
    {
      warned := {};
      var listed := repo.List(listFault);
      if listed.Err? {
        return Some(Wrapped(listed.error)), warned;
      }
      var existing := listed.value;
      var have := IdsOf(existing, repo.rows);
      var known: set<Bytes> := {};
      for i := 0 to |registry|
        invariant known == Ids(registry[..i])
        invariant CreateMissing(registry, have, repo.rows, i, faults)
               == CreateMissing(registry, have, old(repo.rows), 0, faults)
      {
        IdsUpTo(registry, i);
        known := known + {registry[i].id};
        NextCreated(registry, have, repo.rows, i, faults);
        if registry[i].id in have {
          continue;
        }
        var created := repo.Create(registry[i].id, false, faults(i));
        if created.Some? {
          return Some(Wrapped(created.value)), warned;
        }
      }
      assert registry[..|registry|] == registry;
      warned := Unknown(existing, known);
      return None, warned;
    }

    /** Reports the panics of an unknown or already registered id instead of raising them. */
    method RegisterFetcher(f: Fetcher) returns (panicked: bool)
      requires Valid()
      modifies fetchers
      ensures Valid()
      ensures panicked <==> Find(registry, f.meta.id).None? || f.meta.id in old(fetchers.fetch)
      ensures fetchers.fetch == if panicked then old(fetchers.fetch) else old(fetchers.fetch)[f.meta.id := f]
    {
      var m := LookupMetadata(f.meta.id);
      if m.None? {
        return true;
      }
      panicked := fetchers.Register(f.meta.id, f);
    }

    method HasFetcher(id: Bytes) returns (b: bool)
      ensures b <==> id in fetchers.fetch
    {
      b := fetchers.Has(id);
    }

    /** `called` tells whether the Fetcher was invoked; `reply` is what it answers in that case. */
    method FetchUsage(id: Bytes, reply: FetchReply) returns (r: FetchReply, called: bool)
      ensures r == FetchOutcome(registry, fetchers.fetch, id, reply)
      ensures called <==> Find(registry, id).Some? && id in fetchers.fetch
    {
      var m := LookupMetadata(id);
      if m.None? {
        return Err(FetcherNotFound), false;
      }
      var f := fetchers.Lookup(id);
      if f.Err? {
        return Err(f.error), false;
      }
      if reply.Err? {
        return Err(Wrapped(reply.error)), true;
      }
      return reply, true;
    }
  }
}
