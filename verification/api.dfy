/** The adapters behind the HTTP handlers: credential writes, the usage view, and refresh status codes. */
module Api {
  import opened Basics
  import opened Errors
  import opened Backoff
  import opened Store
  import opened Providers
  import opened Credentials
  import opened Collection

  // -------------------------------------------------------------------------------------------------
  // Credentials

  /** The full-replace contract: exactly the declared names, or an error naming the difference. */
  function FieldsError(declared: seq<CredentialField>, values: map<Bytes, Bytes>): Option<Error> {
    var names := set f | f in declared :: f.name;
    if values.Keys == names then None else Some(InvalidFields(names - values.Keys, values.Keys - names))
  }

  lemma NamesAgree(declared: seq<CredentialField>)
    ensures (set f | f in declared :: f.name) == FieldNames(declared)
  {
  }

  method ValidateCredentialFields(declared: seq<CredentialField>, values: map<Bytes, Bytes>) returns (err: Option<Error>)
    ensures err == FieldsError(declared, values)
    ensures err.None? <==> values.Keys == FieldNames(declared)
  {
    var declaredNames: set<Bytes> := {};
    for i := 0 to |declared|
      invariant declaredNames == set f | f in declared[..i] :: f.name
    {
      assert declared[..i + 1] == declared[..i] + [declared[i]];
      declaredNames := declaredNames + {declared[i].name};
    }
    assert declared[..|declared|] == declared;
    var missing: set<Bytes> := {};
    var todo := declaredNames;
    while todo != {}
      invariant todo <= declaredNames && missing == (declaredNames - todo) - values.Keys
      decreases todo
    {
      var name :| name in todo;
      if name !in values {
        missing := missing + {name};
      }
      todo := todo - {name};
    }
    var unknown: set<Bytes> := {};
    todo := values.Keys;
    while todo != {}
      invariant todo <= values.Keys && unknown == (values.Keys - todo) - declaredNames
      decreases todo
    {
      var name :| name in todo;
      if name !in declaredNames {
        unknown := unknown + {name};
      }
      todo := todo - {name};
    }
    NamesAgree(declared);
    assert missing == declaredNames - values.Keys && unknown == values.Keys - declaredNames;
    if missing == {} && unknown == {} {
      assert values.Keys == declaredNames;
      return None;
    }
    assert values.Keys != declaredNames;
    return Some(InvalidFields(missing, unknown));
  }

  /** SetCredentials for one iteration order of the submitted map. */
  function CredentialsSet(
    d: Deps, rows: Rows, creds: Creds, id: Bytes, values: map<Bytes, Bytes>, get: Fault, order: seq<Bytes>, env: WriteEnv)
    : (Creds, Option<Error>)
    requires forall f :: f in order ==> f in values
  {
    match GetProvider(d.registry, rows, d.fetchers, id, get)
    case Err(e) => (creds, Some(e))
    case Ok(p) =>
      match FieldsError(p.meta.fields, values)
      case Some(e) => (creds, Some(e))
      case None => WriteFields(d.vault, creds, id, values, order, env)
  }

  /** DeleteCredentials: nothing happens to an unknown provider. */
  function CredentialsDropped(d: Deps, rows: Rows, creds: Creds, id: Bytes, get: Fault, delete: Fault): (Creds, Option<Error>) {
    match GetProvider(d.registry, rows, d.fetchers, id, get)
    case Err(e) => (creds, Some(e))
    case Ok(_) =>
      if delete.Some? then (creds, Some(Wrapped(StoreError(delete.value))))
      else (WithoutProvider(creds, id), None)
  }

  class CredentialAdapter {
    const providers: Providers.Service
    const credentials: Credentials.Service

    constructor (providers: Providers.Service, credentials: Credentials.Service)
      ensures this.providers == providers && this.credentials == credentials
    {
      this.providers := providers;
      this.credentials := credentials;
    }

    ghost function Reads(): Deps
      reads providers.fetchers
    {
      Deps(providers.registry, providers.fetchers.fetch, credentials.vault)
    }

    method SetCredentials(providerId: Bytes, values: map<Bytes, Bytes>, get: Fault, env: WriteEnv)
      returns (err: Option<Error>, ghost order: seq<Bytes>)
      modifies credentials.repo`creds, credentials.cooldown
      ensures IterationOrder(order, values)
      ensures (credentials.repo.creds, err)
           == CredentialsSet(Reads(), old(providers.repo.rows), old(credentials.repo.creds), providerId, values, get, order, env)
      ensures credentials.cooldown != null ==>
        credentials.cooldown.entries
          == if err.None? then old(credentials.cooldown.entries) - {providerId} else old(credentials.cooldown.entries)
    {
      order := Listing(values.Keys);
      var p := providers.Get(providerId, get);
      if p.Err? {
        return Some(p.error), order;
      }
      var invalid := ValidateCredentialFields(p.value.meta.fields, values);
      if invalid.Some? {
        return invalid, order;
      }
      err, order := credentials.SetValues(providerId, values, env);
    }

    /** The cooldown is left alone. */
    method DeleteCredentials(providerId: Bytes, get: Fault, delete: Fault) returns (err: Option<Error>)
      modifies credentials.repo`creds
      ensures (credentials.repo.creds, err)
           == CredentialsDropped(Reads(), old(providers.repo.rows), old(credentials.repo.creds), providerId, get, delete)
    {
      var p := providers.Get(providerId, get);
      if p.Err? {
        return Some(p.error);
      }
      err := credentials.Delete(providerId, delete);
    }

    /** One entry per declared field, in declared order, configured exactly when a value is stored. */
    method GetCredentialPresence(providerId: Bytes, get: Fault, list: Fault) returns (r: Result<seq<(Bytes, bool)>, Error>)
      ensures var p := GetProvider(providers.registry, providers.repo.rows, providers.fetchers.fetch, providerId, get);
        match p
        case Err(e) => r == Err(e)
        case Ok(p) =>
          if list.Some? then r == Err(Wrapped(StoreError(list.value)))
          else
            && r.Ok? && |r.value| == |p.meta.fields|
            && forall i :: 0 <= i < |r.value| ==>
                 && r.value[i].0 == p.meta.fields[i].name
                 && (r.value[i].1 <==> (providerId, p.meta.fields[i].name) in credentials.repo.creds)
    {
      var p := providers.Get(providerId, get);
      if p.Err? {
        return Err(p.error);
      }
      var presence := credentials.Presence(providerId, list);
      if presence.Err? {
        return Err(presence.error);
      }
      var fields := p.value.meta.fields;
      var out: seq<(Bytes, bool)> := [];
      for i := 0 to |fields|
        invariant |out| == i
        invariant forall j :: 0 <= j < i ==>
          && out[j].0 == fields[j].name
          && (out[j].1 <==> (providerId, fields[j].name) in credentials.repo.creds)
      {
        StoredFieldsMeaning(credentials.repo.creds, providerId, fields[i].name);
        out := out + [(fields[i].name, fields[i].name in presence.value)];
      }
      return Ok(out);
    }
  }

  lemma StoredFieldsMeaning(creds: Creds, id: Bytes, field: Bytes)
    ensures field in StoredFields(creds, id) <==> (id, field) in creds
  {
  }

  // -------------------------------------------------------------------------------------------------
  // Usage

  /** The wire shape of a metric, a third declaration of the same seven fields. */
  datatype ApiMetric = ApiMetric(
    metric: Bytes, period: Bytes, unit: Bytes, used: int64,
    limit: Option<int64>, remaining: Option<int64>, resetAt: Option<Time>)

  /** collectedAt is None for a provider that has never been collected. */
  datatype UsageSnapshot = UsageSnapshot(collectedAt: Option<Time>, metrics: seq<ApiMetric>, lastError: Option<Bytes>)

  const PENDING := UsageSnapshot(None, [], None)

  function ToApiMetric(m: Metric): ApiMetric {
    ApiMetric(m.name, m.window, m.unit, m.used, m.limit, m.remaining, m.resetAt)
  }

  function ToApiSnapshot(s: Snapshot): UsageSnapshot {
    UsageSnapshot(Some(s.collectedAt), seq(|s.metrics|, i requires 0 <= i < |s.metrics| => ToApiMetric(s.metrics[i])), s.lastError)
  }

  method ConvertSnapshot(snap: Snapshot) returns (r: UsageSnapshot)
    ensures r == ToApiSnapshot(snap)
    ensures r.collectedAt == Some(snap.collectedAt) && r.lastError == snap.lastError && |r.metrics| == |snap.metrics|
    ensures forall i :: 0 <= i < |r.metrics| ==>
      var a, m := r.metrics[i], snap.metrics[i];
      && a.metric == m.name && a.period == m.window && a.unit == m.unit && a.used == m.used
      && a.limit == m.limit && a.remaining == m.remaining && a.resetAt == m.resetAt
  {
    var metrics: seq<ApiMetric> := [];
    for i := 0 to |snap.metrics|
      invariant metrics == ToApiSnapshot(snap).metrics[..i]
    {
      var m := snap.metrics[i];
      metrics := metrics + [ApiMetric(m.name, m.window, m.unit, m.used, m.limit, m.remaining, m.resetAt)];
    }
    return UsageSnapshot(Some(snap.collectedAt), metrics, snap.lastError);
  }

  function UsageView(registry: Registry, fetchers: Fetchers, rows: Rows, snaps: Snaps, id: Bytes, get: Fault, read: Fault)
    : Result<UsageSnapshot, Error>
  {
    match GetProvider(registry, rows, fetchers, id, get)
    case Err(e) => Err(e)
    case Ok(_) =>
      match FindSnapshot(snaps, id, read)
      case Err(e) => if Is(e, NotFound) then Ok(PENDING) else Err(e)
      case Ok(s) => Ok(ToApiSnapshot(s))
  }

  /**
    Every answer of the usage query: not-found for an unknown id or a missing row, the store error of a failed read,
    pending exactly for a readable provider without a snapshot, and otherwise the snapshot.
  */
  lemma UsageAnswers(registry: Registry, fetchers: Fetchers, rows: Rows, snaps: Snaps, id: Bytes, get: Fault, read: Fault)
    ensures var r := UsageView(registry, fetchers, rows, snaps, id, get, read);
      && (Find(registry, id).None? ==> r == Err(NotFound))
      && (Find(registry, id).Some? && get.Some? ==> r == Err(StoreError(get.value)))
      && (Find(registry, id).Some? && get.None? && id !in rows ==> r == Err(NotFound))
      && (Find(registry, id).Some? && get.None? && id in rows && read.Some? ==> r == Err(StoreError(read.value)))
      && (r.Ok? <==> Find(registry, id).Some? && get.None? && id in rows && read.None?)
      && (r.Ok? && r.value.collectedAt.None? ==> r.value == UsageSnapshot(None, [], None))
      && (r == Ok(PENDING) <==> Find(registry, id).Some? && get.None? && id in rows && read.None? && id !in snaps)
      && (r.Ok? && id in snaps ==>
            && r.value.collectedAt == Some(snaps[id].collectedAt) && r.value.lastError == snaps[id].lastError
            && |r.value.metrics| == |snaps[id].metrics|)
  {
    if read.Some? {
      assert !Is(Other(read.value), NotFound) && !Is(StoreError(read.value), NotFound);
    }
  }

  class UsageAdapter {
    const providers: Providers.Service
    const snapshots: Repository

    constructor (providers: Providers.Service, snapshots: Repository)
      ensures this.providers == providers && this.snapshots == snapshots
    {
      this.providers := providers;
      this.snapshots := snapshots;
    }

    method GetUsage(providerId: Bytes, get: Fault, read: Fault) returns (r: Result<UsageSnapshot, Error>)
      ensures r == UsageView(providers.registry, providers.fetchers.fetch, providers.repo.rows, snapshots.snaps,
                             providerId, get, read)
    {
      var p := providers.Get(providerId, get);
      if p.Err? {
        return Err(p.error);
      }
      var snap := snapshots.GetSnapshot(providerId, read);
      if snap.Err? {
        if Is(snap.error, NotFound) {
          return Ok(UsageSnapshot(None, [], None));
        }
        return Err(snap.error);
      }
      var view := ConvertSnapshot(snap.value);
      return Ok(view);
    }
  }

  /** The view shows these metrics: same order, every field of every metric. */
  ghost predicate Shows(view: UsageSnapshot, metrics: seq<UsageMetric>, at: Time) {
    && view.collectedAt == Some(at) && view.lastError == None
    && |view.metrics| == |metrics|
    && forall i :: 0 <= i < |metrics| ==>
         var a, m := view.metrics[i], metrics[i];
         && a.metric == m.name && a.period == m.window && a.unit == m.unit && a.used == m.used
         && a.limit == m.limit && a.remaining == m.remaining && a.resetAt == m.resetAt
  }

  // -------------------------------------------------------------------------------------------------
  // Refresh status

  datatype Status = StatusOk | StatusNotFound | ConflictDisabled | ConflictUncredentialed | ConflictNoFetcher | InternalError

  function ErrorStatus(e: Error): Status {
    if Is(e, NotFound) then StatusNotFound
    else if Is(e, ProviderDisabled) then ConflictDisabled
    else if Is(e, ProviderUncredentialed) then ConflictUncredentialed
    else if Is(e, FetcherNotFound) then ConflictNoFetcher
    else InternalError
  }

  function RefreshStatus(outcome: Result<Snapshot, Error>): Status {
    match outcome
    case Ok(_) => StatusOk
    case Err(e) => ErrorStatus(e)
  }

  predicate Mapped(e: Error) {
    e in {NotFound, ProviderDisabled, ProviderUncredentialed, FetcherNotFound}
  }

  /** The status is decided by the root of the chain alone; everything unmapped is a 500. */
  lemma StatusOfRoot(e: Error)
    ensures ErrorStatus(e) == ErrorStatus(Root(e))
    ensures ErrorStatus(e) == InternalError <==> !Mapped(Root(e))
  {
  }

  lemma StoreErrorRoot(code: int)
    ensures Root(StoreError(code)) == Root(Wrapped(StoreError(code))) == Other(code)
    ensures ErrorStatus(StoreError(code)) == ErrorStatus(Wrapped(StoreError(code))) == InternalError
  {
    assert Root(Other(code)) == Other(code);
    assert Root(StoreError(code)) == Root(Other(code));
    assert Root(Wrapped(StoreError(code))) == Root(StoreError(code));
    StatusOfRoot(StoreError(code));
    StatusOfRoot(Wrapped(StoreError(code)));
  }

  lemma LoadErrorStatus(v: Vault, creds: Creds, id: Bytes, field: Bytes, fault: Fault)
    requires LoadField(v, creds, id, field, fault).Err?
    ensures var e := LoadField(v, creds, id, field, fault).error;
      ErrorStatus(e) == if e == ProviderUncredentialed then ConflictUncredentialed else InternalError
    ensures LoadField(v, creds, id, field, fault).error == ProviderUncredentialed
       <==> fault.None? && (id, field) !in creds
  {
    var e := LoadField(v, creds, id, field, fault).error;
    var revealed := RevealValue(v, creds, id, field, fault).error;
    StatusOfRoot(e);
    IsMatchesRoot(revealed, NotFound);
    assert Root(e) == if e.Wrapped? then Root(revealed) else e;
    assert Root(revealed) == Root(revealed.inner);
    if fault.Some? {
      StoreErrorRoot(fault.value);
    }
  }

  /** The first declared field that cannot be read, if there is one. */
  ghost function FirstUnreadable(v: Vault, creds: Creds, m: Metadata, secret: nat -> Fault): (r: Option<nat>)
    ensures r.Some? ==> r.value < |m.fields| && exists e :: FirstProblem(v, creds, m.id, m.fields, 0, secret, r.value, e)
    ensures r.None? ==> forall i: nat, e :: !FirstProblem(v, creds, m.id, m.fields, 0, secret, i, e)
  {
    if exists i: nat, e :: FirstProblem(v, creds, m.id, m.fields, 0, secret, i, e) then
      var i: nat, e :| FirstProblem(v, creds, m.id, m.fields, 0, secret, i, e);
      Some(i)
    else None
  }

  /** The documented answer to a refresh once a field cannot be read: 409 if it was never set, 500 otherwise. */
  ghost function UnreadableStatus(creds: Creds, id: Bytes, field: Bytes, fault: Fault): Status {
    if fault.None? && (id, field) !in creds then ConflictUncredentialed else InternalError
  }

  lemma LoadStatus(v: Vault, creds: Creds, m: Metadata, secret: nat -> Fault)
    ensures match FirstUnreadable(v, creds, m, secret)
      case None => LoadAll(v, creds, m, secret).Ok?
      case Some(i) =>
        && LoadAll(v, creds, m, secret).Err?
        && ErrorStatus(LoadAll(v, creds, m, secret).error) == UnreadableStatus(creds, m.id, m.fields[i].name, secret(i))
  {
    var first := FirstUnreadable(v, creds, m, secret);
    if first.Some? {
      var e :| FirstProblem(v, creds, m.id, m.fields, 0, secret, first.value, e);
      FirstProblemEndsLoading(v, creds, m, secret, first.value, e);
      LoadErrorStatus(v, creds, m.id, m.fields[first.value].name, secret(first.value));
    } else if LoadAll(v, creds, m, secret).Err? {
      var i := LoadingFails(v, creds, m.id, m.fields, 0, map[], secret);
    }
  }

  lemma FetchStatus(d: Deps, snaps: Snaps, id: Bytes, creds: map<Bytes, Bytes>, env: CollectEnv)
    requires Find(d.registry, id).Some?
    ensures RefreshStatus(FetchAndPersist(d, snaps, id, creds, env).outcome) ==
      if id !in d.fetchers then ConflictNoFetcher
      else if env.fetch.Err? then ErrorStatus(Root(env.fetch.error))
      else if env.replace.Some? then InternalError
      else StatusOk
  {
    if env.fetch.Err? {
      StatusOfRoot(Wrapped(env.fetch.error));
    }
    if env.replace.Some? {
      StoreErrorRoot(env.replace.value);
    }
  }

  /**
    The precedence a refresh is documented to follow: unknown id, store failure, missing row, disabled, the first
    unreadable credential in declared order, no fetcher, the Fetcher's error, failure to persist.
  */
  ghost function DocumentedStatus(d: Deps, t: Tables, id: Bytes, env: CollectEnv): Status {
    match Find(d.registry, id)
    case None => StatusNotFound
    case Some(m) =>
      if env.get.Some? then InternalError
      else if id !in t.rows then StatusNotFound
      else if !t.rows[id] then ConflictDisabled
      else match FirstUnreadable(d.vault, t.creds, m, env.secret)
           case Some(i) => UnreadableStatus(t.creds, id, m.fields[i].name, env.secret(i))
           case None =>
             if id !in d.fetchers then ConflictNoFetcher
             else if env.fetch.Err? then
               if Mapped(Root(env.fetch.error)) then ErrorStatus(Root(env.fetch.error)) else InternalError
             else if env.replace.Some? then InternalError
             else StatusOk
  }

  /** The handler's error matching on the collector's outcome realises the documented precedence, for all inputs. */
  lemma RefreshPrecedence(d: Deps, t: Tables, id: Bytes, env: CollectEnv)
    ensures RefreshStatus(CollectCycle(d, t, id, env).outcome) == DocumentedStatus(d, t, id, env)
  {
    if env.get.Some? {
      StoreErrorRoot(env.get.value);
    } else if Find(d.registry, id).Some? && id in t.rows && t.rows[id] {
      var m := Find(d.registry, id).value;
      LoadStatus(d.vault, t.creds, m, env.secret);
      var loaded := LoadAll(d.vault, t.creds, m, env.secret);
      if loaded.Ok? {
        FetchStatus(d, t.snaps, id, loaded.value, env);
        if env.fetch.Err? {
          StatusOfRoot(Root(env.fetch.error));
        }
      }
    }
  }
}
