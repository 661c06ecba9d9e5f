/** One provider's cycle: resolve, load credentials, fetch, persist. Shared by the scheduler and on-demand refresh. */
module Collection {
  import opened Basics
  import opened Errors
  import opened Store
  import opened Providers
  import opened Credentials

  /** What a Collect call reads but never writes. */
  datatype Deps = Deps(registry: Registry, fetchers: Fetchers, vault: Vault)

  /** Everything one Collect call meets: which statements fail, what the Fetcher replies, what the clock says. */
  datatype CollectEnv = CollectEnv(get: Fault, secret: nat -> Fault, fetch: FetchReply, now: Time, replace: Fault)

  /** calledWith is the credential map the Fetcher received, if it was called. */
  datatype Collected = Collected(snaps: Snaps, outcome: Result<Snapshot, Error>, calledWith: Option<map<Bytes, Bytes>>)

  function ToStoreMetric(m: UsageMetric): Metric {
    Metric(m.name, m.window, m.unit, m.used, m.limit, m.remaining, m.resetAt)
  }

  function ToStoreMetrics(metrics: seq<UsageMetric>): seq<Metric> {
    seq(|metrics|, i requires 0 <= i < |metrics| => ToStoreMetric(metrics[i]))
  }

  /** What reading the i-th declared field contributes: a value, or the error that ends the loading. */
  function LoadField(v: Vault, creds: Creds, id: Bytes, field: Bytes, fault: Fault): Result<Bytes, Error> {
    match RevealValue(v, creds, id, field, fault)
    case Err(e) => Err(if Is(e, NotFound) then ProviderUncredentialed else Wrapped(e))
    case Ok(value) => Ok(value)
  }

  function LoadFrom(
    v: Vault, creds: Creds, id: Bytes, fields: seq<CredentialField>, i: nat, acc: map<Bytes, Bytes>, secret: nat -> Fault)
    : Result<map<Bytes, Bytes>, Error>
    requires i <= |fields|
    decreases |fields| - i
  {
    if i == |fields| then Ok(acc)
    else match LoadField(v, creds, id, fields[i].name, secret(i))
         case Err(e) => Err(e)
         case Ok(value) => LoadFrom(v, creds, id, fields, i + 1, acc[fields[i].name := value], secret)
  }

  function LoadAll(v: Vault, creds: Creds, m: Metadata, secret: nat -> Fault): Result<map<Bytes, Bytes>, Error> {
    LoadFrom(v, creds, m.id, m.fields, 0, map[], secret)
  }

  /** The names declared from position i on. */
  ghost function FieldNames(fields: seq<CredentialField>, i: nat := 0): set<Bytes> {
    set j | i <= j < |fields| :: fields[j].name
  }

  function CollectCycle(d: Deps, t: Tables, id: Bytes, env: CollectEnv): Collected {
    match GetProvider(d.registry, t.rows, d.fetchers, id, env.get)
    case Err(e) => Collected(t.snaps, Err(e), None)
    case Ok(p) =>
      if !p.enabled then Collected(t.snaps, Err(ProviderDisabled), None)
      else match LoadAll(d.vault, t.creds, p.meta, env.secret)
           case Err(e) => Collected(t.snaps, Err(e), None)
           case Ok(creds) => FetchAndPersist(d, t.snaps, id, creds, env)
  }

  function FetchAndPersist(d: Deps, snaps: Snaps, id: Bytes, creds: map<Bytes, Bytes>, env: CollectEnv): Collected {
    var called := if id in d.fetchers then Some(creds) else None;
    match FetchOutcome(d.registry, d.fetchers, id, env.fetch)
    case Err(e) => Collected(snaps, Err(e), if Find(d.registry, id).Some? then called else None)
    case Ok(metrics) =>
      var snap := Snapshot(id, ToStoreMetrics(metrics), env.now, None);
      if env.replace.Some? then Collected(snaps, Err(Wrapped(StoreError(env.replace.value))), called)
      else Collected(snaps[id := snap], Ok(snap), called)
  }

  // -------------------------------------------------------------------------------------------------
  // Loading: the first problem in declared order decides

  /** What a completed loading holds: every declared field read, nothing else added. */
  ghost predicate LoadedAll(
    v: Vault, creds: Creds, id: Bytes, fields: seq<CredentialField>, from: nat, acc: map<Bytes, Bytes>, secret: nat -> Fault,
    loaded: map<Bytes, Bytes>)
  {
    && loaded.Keys == acc.Keys + FieldNames(fields, from)
    && (forall i :: from <= i < |fields| ==>
          && fields[i].name in loaded
          && LoadField(v, creds, id, fields[i].name, secret(i)) == Ok(loaded[fields[i].name]))
    && (forall k :: k in acc && k !in FieldNames(fields, from) ==> loaded[k] == acc[k])
  }

  /** Field i is the first one, from `from` on, that cannot be read, and e is why. */
  ghost predicate FirstProblem(
    v: Vault, creds: Creds, id: Bytes, fields: seq<CredentialField>, from: nat, secret: nat -> Fault, i: nat, e: Error)
  {
    && from <= i < |fields|
    && LoadField(v, creds, id, fields[i].name, secret(i)) == Err(e)
    && forall j :: from <= j < i ==> LoadField(v, creds, id, fields[j].name, secret(j)).Ok?
  }

  lemma {:induction false} LoadingSucceeds(
    v: Vault, creds: Creds, id: Bytes, fields: seq<CredentialField>, from: nat, acc: map<Bytes, Bytes>, secret: nat -> Fault)
    requires from <= |fields|
    requires LoadFrom(v, creds, id, fields, from, acc, secret).Ok?
    ensures LoadedAll(v, creds, id, fields, from, acc, secret, LoadFrom(v, creds, id, fields, from, acc, secret).value)
    decreases |fields| - from
  {
    if from < |fields| {
      var name := fields[from].name;
      var here := LoadField(v, creds, id, name, secret(from)).value;
      LoadingSucceeds(v, creds, id, fields, from + 1, acc[name := here], secret);
      var loaded := LoadFrom(v, creds, id, fields, from + 1, acc[name := here], secret).value;
      LoadedStep(v, creds, id, fields, from, acc, secret, here, loaded);
    }
  }

  lemma LoadedStep(
    v: Vault, creds: Creds, id: Bytes, fields: seq<CredentialField>, from: nat, acc: map<Bytes, Bytes>, secret: nat -> Fault,
    here: Bytes, loaded: map<Bytes, Bytes>)
    requires from < |fields| && LoadField(v, creds, id, fields[from].name, secret(from)) == Ok(here)
    requires LoadedAll(v, creds, id, fields, from + 1, acc[fields[from].name := here], secret, loaded)
    ensures LoadedAll(v, creds, id, fields, from, acc, secret, loaded)
  {
    var name := fields[from].name;
    assert FieldNames(fields, from) == {name} + FieldNames(fields, from + 1);
    LoadedHere(v, creds, id, fields, from, acc, secret, here, loaded);
  }

  /** A name declared twice has the same value at both places. */
  lemma LoadedHere(
    v: Vault, creds: Creds, id: Bytes, fields: seq<CredentialField>, from: nat, acc: map<Bytes, Bytes>, secret: nat -> Fault,
    here: Bytes, loaded: map<Bytes, Bytes>)
    requires from < |fields| && LoadField(v, creds, id, fields[from].name, secret(from)) == Ok(here)
    requires LoadedAll(v, creds, id, fields, from + 1, acc[fields[from].name := here], secret, loaded)
    ensures fields[from].name in loaded && loaded[fields[from].name] == here
  {
    var name := fields[from].name;
    if name in FieldNames(fields, from + 1) {
      var i :| from + 1 <= i < |fields| && fields[i].name == name;
      assert LoadField(v, creds, id, fields[i].name, secret(i)) == Ok(loaded[name]);
      LoadFieldDeterministic(v, creds, id, name, secret(from), secret(i));
    }
  }

  /** A successful read does not depend on which call made it. */
  lemma LoadFieldDeterministic(v: Vault, creds: Creds, id: Bytes, field: Bytes, f: Fault, g: Fault)
    requires LoadField(v, creds, id, field, f).Ok? && LoadField(v, creds, id, field, g).Ok?
    ensures LoadField(v, creds, id, field, f) == LoadField(v, creds, id, field, g)
  {
  }

  lemma {:induction false} LoadingFails(
    v: Vault, creds: Creds, id: Bytes, fields: seq<CredentialField>, from: nat, acc: map<Bytes, Bytes>, secret: nat -> Fault)
    returns (i: nat)
    requires from <= |fields|
    requires LoadFrom(v, creds, id, fields, from, acc, secret).Err?
    ensures FirstProblem(v, creds, id, fields, from, secret, i, LoadFrom(v, creds, id, fields, from, acc, secret).error)
    decreases |fields| - from
  {
    var name := fields[from].name;
    var here := LoadField(v, creds, id, name, secret(from));
    if here.Ok? {
      i := LoadingFails(v, creds, id, fields, from + 1, acc[name := here.value], secret);
    } else {
      i := from;
    }
  }

  /** Loading ends with the error of the first unreadable field in declared order, or with all declared fields. */
  lemma FirstProblemDecides(v: Vault, creds: Creds, m: Metadata, secret: nat -> Fault)
    ensures match LoadAll(v, creds, m, secret)
      case Ok(loaded) => LoadedAll(v, creds, m.id, m.fields, 0, map[], secret, loaded)
      case Err(e) => exists i :: FirstProblem(v, creds, m.id, m.fields, 0, secret, i, e)
  {
    if LoadAll(v, creds, m, secret).Ok? {
      LoadingSucceeds(v, creds, m.id, m.fields, 0, map[], secret);
    } else {
      var i := LoadingFails(v, creds, m.id, m.fields, 0, map[], secret);
    }
  }

  lemma FirstProblemEndsLoading(v: Vault, creds: Creds, m: Metadata, secret: nat -> Fault, i: nat, e: Error)
    requires FirstProblem(v, creds, m.id, m.fields, 0, secret, i, e)
    ensures LoadAll(v, creds, m, secret) == Err(e)
  {
    if LoadAll(v, creds, m, secret).Ok? {
      LoadingSucceeds(v, creds, m.id, m.fields, 0, map[], secret);
    } else {
      var k := LoadingFails(v, creds, m.id, m.fields, 0, map[], secret);
      assert !(i < k) && !(k < i);
    }
  }

  /** Every field m declares has a value in the plaintext map. */
  ghost predicate HasAll(p: Plain, m: Metadata) {
    forall f :: f in FieldNames(m.fields) ==> (m.id, f) in p
  }

  /** The credential map a Fetcher is meant to get: exactly the declared names, with their plaintext. */
  ghost function DeclaredValues(p: Plain, m: Metadata): map<Bytes, Bytes>
    requires HasAll(p, m)
  {
    map f | f in FieldNames(m.fields) :: p[(m.id, f)]
  }

  /** The i-th declared field cannot be handed to a Fetcher: its read fails, or it has no value. */
  ghost predicate Unavailable(p: Plain, m: Metadata, secret: nat -> Fault, i: nat)
    requires i < |m.fields|
  {
    secret(i).Some? || (m.id, m.fields[i].name) !in p
  }

  /** The first such field from position `from` on. */
  ghost function FirstUnavailable(p: Plain, m: Metadata, secret: nat -> Fault, from: nat := 0): (r: Option<nat>)
    requires from <= |m.fields|
    ensures r.Some? ==> from <= r.value < |m.fields| && Unavailable(p, m, secret, r.value)
    ensures forall j :: from <= j < (if r.Some? then r.value else |m.fields|) ==> !Unavailable(p, m, secret, j)
    decreases |m.fields| - from
  {
    if from == |m.fields| then None
    else if Unavailable(p, m, secret, from) then Some(from)
    else FirstUnavailable(p, m, secret, from + 1)
  }

  lemma NoneUnavailable(p: Plain, m: Metadata, secret: nat -> Fault)
    requires FirstUnavailable(p, m, secret).None?
    ensures HasAll(p, m)
  {
    forall f | f in FieldNames(m.fields)
      ensures (m.id, f) in p
    {
      var i :| 0 <= i < |m.fields| && m.fields[i].name == f;
      assert !Unavailable(p, m, secret, i);
    }
  }

  /** A failed read is passed on; a value that was never set has a sentinel of its own. */
  ghost function WhyUnavailable(fault: Fault): Error {
    if fault.Some? then Wrapped(Wrapped(StoreError(fault.value))) else ProviderUncredentialed
  }

  /**
    With readable rows loading delivers exactly the declared fields with their stored plaintext, unless one of them
    is unavailable; then the first of these in declared order decides the error.
  */
  lemma LoadsStoredPlaintext(v: Vault, creds: Creds, m: Metadata, secret: nat -> Fault)
    requires Readable(v, creds)
    ensures var p := Plaintext(v, creds);
      match FirstUnavailable(p, m, secret)
      case Some(i) => LoadAll(v, creds, m, secret) == Err(WhyUnavailable(secret(i)))
      case None => HasAll(p, m) && LoadAll(v, creds, m, secret) == Ok(DeclaredValues(p, m))
  {
    var p := Plaintext(v, creds);
    match FirstUnavailable(p, m, secret)
    case Some(i) =>
      FirstUnavailableIsProblem(v, creds, m, secret, i);
      FirstProblemEndsLoading(v, creds, m, secret, i, WhyUnavailable(secret(i)));
    case None =>
      NoneUnavailable(p, m, secret);
      if LoadAll(v, creds, m, secret).Err? {
        var i := LoadingFails(v, creds, m.id, m.fields, 0, map[], secret);
        LoadFieldIsLookup(v, creds, m, secret, i);
      }
      LoadedIsDeclared(v, creds, m, secret);
  }

  lemma FirstUnavailableIsProblem(v: Vault, creds: Creds, m: Metadata, secret: nat -> Fault, i: nat)
    requires Readable(v, creds) && FirstUnavailable(Plaintext(v, creds), m, secret) == Some(i)
    ensures FirstProblem(v, creds, m.id, m.fields, 0, secret, i, WhyUnavailable(secret(i)))
  {
    forall j | 0 <= j <= i
      ensures LoadField(v, creds, m.id, m.fields[j].name, secret(j)).Ok? <==> j < i
    {
      LoadFieldIsLookup(v, creds, m, secret, j);
    }
    LoadFieldIsLookup(v, creds, m, secret, i);
  }

  lemma LoadedIsDeclared(v: Vault, creds: Creds, m: Metadata, secret: nat -> Fault)
    requires Readable(v, creds) && HasAll(Plaintext(v, creds), m)
    requires LoadAll(v, creds, m, secret).Ok?
    ensures LoadAll(v, creds, m, secret).value == DeclaredValues(Plaintext(v, creds), m)
  {
    LoadingSucceeds(v, creds, m.id, m.fields, 0, map[], secret);
    LoadedAllIsDeclared(v, creds, m, secret, LoadAll(v, creds, m, secret).value);
  }

  lemma LoadedAllIsDeclared(v: Vault, creds: Creds, m: Metadata, secret: nat -> Fault, loaded: map<Bytes, Bytes>)
    requires Readable(v, creds) && HasAll(Plaintext(v, creds), m)
    requires LoadedAll(v, creds, m.id, m.fields, 0, map[], secret, loaded)
    ensures loaded == DeclaredValues(Plaintext(v, creds), m)
  {
    var p := Plaintext(v, creds);
    LoadedNames(v, creds, m, secret, loaded);
    forall i: nat | i < |m.fields|
      ensures ValueAgrees(p, m, loaded, i)
    {
      LoadedValue(v, creds, m, secret, i, loaded);
    }
    AgreeingIsDeclared(p, m, loaded);
  }

  ghost predicate ValueAgrees(p: Plain, m: Metadata, loaded: map<Bytes, Bytes>, i: nat)
    requires i < |m.fields|
  {
    var name := m.fields[i].name;
    name in loaded && (m.id, name) in p && loaded[name] == p[(m.id, name)]
  }

  lemma AgreeingIsDeclared(p: Plain, m: Metadata, loaded: map<Bytes, Bytes>)
    requires loaded.Keys == FieldNames(m.fields) && HasAll(p, m)
    requires forall i: nat :: i < |m.fields| ==> ValueAgrees(p, m, loaded, i)
    ensures loaded == DeclaredValues(p, m)
  {
    forall f | f in loaded
      ensures loaded[f] == DeclaredValues(p, m)[f]
    {
      var i :| 0 <= i < |m.fields| && m.fields[i].name == f;
      assert ValueAgrees(p, m, loaded, i);
    }
  }

  lemma LoadedNames(v: Vault, creds: Creds, m: Metadata, secret: nat -> Fault, loaded: map<Bytes, Bytes>)
    requires LoadedAll(v, creds, m.id, m.fields, 0, map[], secret, loaded)
    ensures loaded.Keys == FieldNames(m.fields)
  {
  }

  lemma LoadedValue(v: Vault, creds: Creds, m: Metadata, secret: nat -> Fault, i: nat, loaded: map<Bytes, Bytes>)
    requires Readable(v, creds) && i < |m.fields|
    requires LoadedAll(v, creds, m.id, m.fields, 0, map[], secret, loaded)
    ensures ValueAgrees(Plaintext(v, creds), m, loaded, i)
  {
    LoadFieldIsLookup(v, creds, m, secret, i);
    assert LoadField(v, creds, m.id, m.fields[i].name, secret(i)) == Ok(loaded[m.fields[i].name]);
  }

  lemma LoadFieldIsLookup(v: Vault, creds: Creds, m: Metadata, secret: nat -> Fault, i: nat)
    requires Readable(v, creds) && i < |m.fields|
    ensures var p, name := Plaintext(v, creds), m.fields[i].name;
      LoadField(v, creds, m.id, name, secret(i))
        == if Unavailable(p, m, secret, i) then Err(WhyUnavailable(secret(i))) else Ok(p[(m.id, name)])
  {
    if secret(i).Some? {
      assert !Is(Other(secret(i).value), NotFound) && !Is(StoreError(secret(i).value), NotFound);
    }
  }

  // -------------------------------------------------------------------------------------------------
  // Effects

  /** Failure leaves every snapshot as it was; success replaces this provider's with what the Fetcher returned. */
  lemma CollectEffects(d: Deps, t: Tables, id: Bytes, env: CollectEnv)
    ensures var r := CollectCycle(d, t, id, env);
      && (r.outcome.Err? ==> r.snaps == t.snaps)
      && (r.outcome.Ok? ==>
            && env.fetch.Ok? && r.calledWith.Some?
            && r.outcome.value == Snapshot(id, ToStoreMetrics(env.fetch.value), env.now, None)
            && r.snaps == t.snaps[id := r.outcome.value])
  {
  }

  /** Only the provider's own row and credentials matter, and what the other providers' snapshots are does not. */
  lemma CollectIsLocal(d: Deps, t1: Tables, t2: Tables, id: Bytes, env: CollectEnv)
    requires GetRow(t1.rows, id, None) == GetRow(t2.rows, id, None)
    requires forall f :: GetBlob(t1.creds, id, f, None) == GetBlob(t2.creds, id, f, None)
    ensures CollectCycle(d, t1, id, env).outcome == CollectCycle(d, t2, id, env).outcome
    ensures CollectCycle(d, t1, id, env).calledWith == CollectCycle(d, t2, id, env).calledWith
  {
    if Find(d.registry, id).Some? {
      LoadIsLocal(d.vault, t1.creds, t2.creds, id, Find(d.registry, id).value.fields, 0, map[], env.secret);
    }
    CollectFollowsLoad(d, t1, t2, id, env);
  }

  lemma CollectFollowsLoad(d: Deps, t1: Tables, t2: Tables, id: Bytes, env: CollectEnv)
    requires GetRow(t1.rows, id, None) == GetRow(t2.rows, id, None)
    requires var m := Find(d.registry, id);
      m.Some? ==> LoadAll(d.vault, t1.creds, m.value, env.secret) == LoadAll(d.vault, t2.creds, m.value, env.secret)
    ensures CollectCycle(d, t1, id, env).outcome == CollectCycle(d, t2, id, env).outcome
    ensures CollectCycle(d, t1, id, env).calledWith == CollectCycle(d, t2, id, env).calledWith
  {
    SameRowSameProvider(d, t1.rows, t2.rows, id, env.get);
    var p := GetProvider(d.registry, t1.rows, d.fetchers, id, env.get);
    if p.Ok? && p.value.enabled {
      var loaded := LoadAll(d.vault, t1.creds, p.value.meta, env.secret);
      if loaded.Ok? {
        FetchIgnoresSnaps(d, t1.snaps, t2.snaps, id, loaded.value, env);
      }
    }
  }

  lemma FetchIgnoresSnaps(d: Deps, snaps1: Snaps, snaps2: Snaps, id: Bytes, creds: map<Bytes, Bytes>, env: CollectEnv)
    ensures FetchAndPersist(d, snaps1, id, creds, env).outcome == FetchAndPersist(d, snaps2, id, creds, env).outcome
    ensures FetchAndPersist(d, snaps1, id, creds, env).calledWith == FetchAndPersist(d, snaps2, id, creds, env).calledWith
  {
  }

  lemma SameRowSameProvider(d: Deps, rows1: Rows, rows2: Rows, id: Bytes, fault: Fault)
    requires GetRow(rows1, id, None) == GetRow(rows2, id, None)
    ensures GetProvider(d.registry, rows1, d.fetchers, id, fault) == GetProvider(d.registry, rows2, d.fetchers, id, fault)
  {
    assert id in rows1 <==> id in rows2;
  }

  lemma {:induction false} LoadIsLocal(
    v: Vault, c1: Creds, c2: Creds, id: Bytes, fields: seq<CredentialField>, i: nat, acc: map<Bytes, Bytes>, secret: nat -> Fault)
    requires i <= |fields|
    requires forall f :: GetBlob(c1, id, f, None) == GetBlob(c2, id, f, None)
    ensures LoadFrom(v, c1, id, fields, i, acc, secret) == LoadFrom(v, c2, id, fields, i, acc, secret)
    decreases |fields| - i
  {
    if i < |fields| {
      var name := fields[i].name;
      assert GetBlob(c1, id, name, None) == GetBlob(c2, id, name, None);
      assert GetBlob(c1, id, name, secret(i)) == GetBlob(c2, id, name, secret(i));
      var here := LoadField(v, c1, id, name, secret(i));
      if here.Ok? {
        LoadIsLocal(v, c1, c2, id, fields, i + 1, acc[name := here.value], secret);
      }
    }
  }

  // -------------------------------------------------------------------------------------------------
  // The stateful collector

  class Collector {
    const providers: Providers.Service
    const credentials: Credentials.Service
    const snapshots: Repository

    constructor (providers: Providers.Service, credentials: Credentials.Service, snapshots: Repository)
      ensures this.providers == providers && this.credentials == credentials && this.snapshots == snapshots
    {
      this.providers := providers;
      this.credentials := credentials;
      this.snapshots := snapshots;
    }

    ghost function Reads(): Deps
      reads providers.fetchers
    {
      Deps(providers.registry, providers.fetchers.fetch, credentials.vault)
    }

    ghost function Contents(): Tables
      reads providers.repo, credentials.repo, snapshots
    {
      Tables(providers.repo.rows, credentials.repo.creds, snapshots.snaps)
    }

    method Collect(providerId: Bytes, env: CollectEnv)
      returns (r: Result<Snapshot, Error>, calledWith: Option<map<Bytes, Bytes>>)
      modifies snapshots`snaps
      ensures Collected(snapshots.snaps, r, calledWith) == CollectCycle(Reads(), old(Contents()), providerId, env)
    {
      var p := providers.Get(providerId, env.get);
      if p.Err? {
        return Err(p.error), None;
      }
      if !p.value.enabled {
        return Err(ProviderDisabled), None;
      }
      var creds := LoadCredentials(p.value, env.secret);
      if creds.Err? {
        return Err(creds.error), None;
      }
      var metrics, called := providers.FetchUsage(providerId, env.fetch);
      calledWith := if called then Some(creds.value) else None;
      if metrics.Err? {
        return Err(metrics.error), calledWith;
      }
      var collectedAt := env.now;
      var storeMetrics := ConvertMetrics(metrics.value);
      var replaced := snapshots.Replace(providerId, storeMetrics, collectedAt, env.replace);
      if replaced.Some? {
        return Err(Wrapped(replaced.value)), calledWith;
      }
      return Ok(Snapshot(providerId, storeMetrics, collectedAt, None)), calledWith;
    }

    method LoadCredentials(p: Provider, secret: nat -> Fault) returns (r: Result<map<Bytes, Bytes>, Error>)
      ensures r == LoadAll(credentials.vault, credentials.repo.creds, p.meta, secret)
    {
      var creds: map<Bytes, Bytes> := map[];
      var fields := p.meta.fields;
      for i := 0 to |fields|
        invariant LoadAll(credentials.vault, credentials.repo.creds, p.meta, secret)
               == LoadFrom(credentials.vault, credentials.repo.creds, p.meta.id, fields, i, creds, secret)
      {
        var v := credentials.Reveal(p.meta.id, fields[i].name, secret(i));
        if v.Err? {
          if Is(v.error, NotFound) {
            return Err(ProviderUncredentialed);
          }
          return Err(Wrapped(v.error));
        }
        creds := creds[fields[i].name := v.value];
      }
      return Ok(creds);
    }
  }

  method ConvertMetrics(metrics: seq<UsageMetric>) returns (out: seq<Metric>)
    ensures out == ToStoreMetrics(metrics)
    ensures |out| == |metrics|
    ensures forall i :: 0 <= i < |out| ==>
      && out[i].name == metrics[i].name && out[i].window == metrics[i].window && out[i].unit == metrics[i].unit
      && out[i].used == metrics[i].used && out[i].limit == metrics[i].limit
      && out[i].remaining == metrics[i].remaining && out[i].resetAt == metrics[i].resetAt
  {
    out := [];
    for i := 0 to |metrics|
      invariant out == ToStoreMetrics(metrics)[..i]
    {
      var m := metrics[i];
      out := out + [Metric(m.name, m.window, m.unit, m.used, m.limit, m.remaining, m.resetAt)];
    }
  }
}
