/** The Minimax plugin: classification of a reply, and the projection of a quota block to a metric. */
module Minimax {
  import opened Basics
  import opened Errors
  import opened Backoff
  import opened Cooldown
  import opened Store
  import opened Providers
  import opened Collection
  import opened Scheduling
  import opened Api

  datatype Quota = Quota(remains: Option<int64>, limit: Option<int64>, resetAt: Option<Time>)

  datatype Payload = Payload(statusCode: int, current5h: Quota, currentWeek: Quota)

  /** What the HTTP exchange came to; body is None when the bytes do not parse as the expected JSON. */
  datatype Exchange =
    | NotSent(code: int)
    | Broken(code: int)
    | Complete(status: int, body: Option<Payload>)

  const SUBSCRIPTION_KEY: Bytes :=
    [115, 117, 98, 115, 99, 114, 105, 112, 116, 105, 111, 110, 95, 107, 101, 121]
  const TOKEN_PLAN_5H: Bytes := [116, 111, 107, 101, 110, 95, 112, 108, 97, 110, 95, 53, 104]
  const TOKEN_PLAN_WEEKLY: Bytes := [116, 111, 107, 101, 110, 95, 112, 108, 97, 110, 95, 119, 101, 101, 107, 108, 121]
  const WINDOW_5H: Bytes := [53, 104]
  const WINDOW_WEEK: Bytes := [119, 101, 101, 107]
  const PROMPTS: Bytes := [112, 114, 111, 109, 112, 116, 115]

  predicate IsAuthError(statusCode: int) {
    1000 <= statusCode < 2000
  }

  /** A reset instant that is not in the future is dropped. */
  function FutureOnly(resetAt: Option<Time>, now: Time): Option<Time> {
    if resetAt.Some? && resetAt.value > now then resetAt else None
  }

  function OrZero(x: Option<int64>): int64 {
    if x.Some? then x.value else 0
  }

  /** limit - remains in int64 arithmetic, clamped at zero. */
  function UsedCount(limit: int64, remains: int64): (used: int64)
    ensures used >= 0
  {
    var used := Wrap64(limit - remains);
    if used < 0 then 0 else used
  }

  /** The clamped difference is the true one exactly when the subtraction does not overflow. */
  lemma UsedIsTrueDifferenceIff(limit: int64, remains: int64)
    ensures UsedCount(limit, remains) == (if limit >= remains then limit - remains else 0)
       <==> -TWO_63 <= limit - remains < TWO_63
  {
  }

  /** A provider that reports -1 remaining of the largest possible limit shows no usage at all instead of 2^63. */
  lemma UsedOverflowWitness()
    ensures var q := Quota(Some(-1), Some(0x7FFF_FFFF_FFFF_FFFF), None);
      forall name, window, now ::
        Projected(q, name, window, now) == Ok(UsageMetric(name, window, PROMPTS, 0, q.limit, q.remains, None))
    ensures 0x7FFF_FFFF_FFFF_FFFF - (-1) == TWO_63
  {
    assert Wrap64(TWO_63) == -TWO_63;
  }

  /** Both counts missing is an error; otherwise the optional fields pass through as they came. */
  method ToMetric(q: Quota, name: Bytes, window: Bytes, now: Time) returns (r: Result<UsageMetric, Error>)
    ensures r == Projected(q, name, window, now)
  {
    if q.remains.None? && q.limit.None? {
      return Err(Other(0));
    }
    var used: int64, limit: int64, remaining: int64 := 0, 0, 0;
    if q.limit.Some? {
      limit := q.limit.value;
    }
    if q.remains.Some? {
      remaining := q.remains.value;
    }
    used := Wrap64(limit - remaining);
    if used < 0 {
      used := 0;
    }
    return Ok(UsageMetric(name, window, PROMPTS, used, q.limit, q.remains, FutureOnly(q.resetAt, now)));
  }

  function Projected(q: Quota, name: Bytes, window: Bytes, now: Time): Result<UsageMetric, Error> {
    if q.remains.None? && q.limit.None? then Err(Other(0))
    else Ok(UsageMetric(name, window, PROMPTS, UsedCount(OrZero(q.limit), OrZero(q.remains)), q.limit, q.remains,
                        FutureOnly(q.resetAt, now)))
  }

  function Metrics(p: Payload, now: Time): FetchReply {
    match Projected(p.current5h, TOKEN_PLAN_5H, WINDOW_5H, now)
    case Err(e) => Err(Wrapped(e))
    case Ok(fiveHour) =>
      match Projected(p.currentWeek, TOKEN_PLAN_WEEKLY, WINDOW_WEEK, now)
      case Err(e) => Err(Wrapped(e))
      case Ok(weekly) => Ok([fiveHour, weekly])
  }

  /** FetchUsage of the plugin; `creds` is what the collector loaded. */
  function Reply(creds: map<Bytes, Bytes>, x: Exchange, now: Time): FetchReply {
    if SUBSCRIPTION_KEY !in creds || creds[SUBSCRIPTION_KEY] == [] then Err(Other(1))
    else match x
         case NotSent(code) => Err(Wrapped(Other(code)))
         case Broken(code) => Err(Wrapped(Other(code)))
         case Complete(status, body) =>
           if status == 401 || status == 403 then Err(Wrapped(Auth))
           else if status < 200 || status >= 300 then Err(Other(status))
           else match body
                case None => Err(Wrapped(Other(2)))
                case Some(p) =>
                  if p.statusCode != 0 then
                    if IsAuthError(p.statusCode) then Err(Wrapped(Auth)) else Err(Other(p.statusCode))
                  else Metrics(p, now)
  }

  /** The early returns of FetchUsage, step by step. */
  method FetchUsage(creds: map<Bytes, Bytes>, x: Exchange, now: Time) returns (r: FetchReply)
    ensures r == Reply(creds, x, now)
  {
    if SUBSCRIPTION_KEY !in creds || creds[SUBSCRIPTION_KEY] == [] {
      return Err(Other(1));
    }
    if x.NotSent? || x.Broken? {
      return Err(Wrapped(Other(x.code)));
    }
    if x.status == 401 || x.status == 403 {
      return Err(Wrapped(Auth));
    }
    if x.status < 200 || x.status >= 300 {
      return Err(Other(x.status));
    }
    if x.body.None? {
      return Err(Wrapped(Other(2)));
    }
    var payload := x.body.value;
    if payload.statusCode != 0 {
      if IsAuthError(payload.statusCode) {
        return Err(Wrapped(Auth));
      }
      return Err(Other(payload.statusCode));
    }
    var fiveHour := ToMetric(payload.current5h, TOKEN_PLAN_5H, WINDOW_5H, now);
    if fiveHour.Err? {
      return Err(Wrapped(fiveHour.error));
    }
    var weekly := ToMetric(payload.currentWeek, TOKEN_PLAN_WEEKLY, WINDOW_WEEK, now);
    if weekly.Err? {
      return Err(Wrapped(weekly.error));
    }
    return Ok([fiveHour.value, weekly.value]);
  }

  /** The provider rejected the credential: by HTTP status, or by a 1xxx code in a body that parsed. */
  predicate Rejected(x: Exchange) {
    && x.Complete?
    && (x.status == 401 || x.status == 403
        || (200 <= x.status < 300 && x.body.Some? && 1000 <= x.body.value.statusCode <= 1999))
  }

  /** There is a key to send: without one, or with an empty one, nothing is sent. */
  predicate HasKey(creds: map<Bytes, Bytes>) {
    SUBSCRIPTION_KEY in creds && creds[SUBSCRIPTION_KEY] != []
  }

  lemma ReplyIsAuthIffRejected(creds: map<Bytes, Bytes>, x: Exchange, now: Time)
    ensures var r := Reply(creds, x, now);
      (r.Err? && Root(r.error) == Auth) <==> HasKey(creds) && Rejected(x)
  {
  }

  /** A missing or empty key is an error of its own, which neither engages the cooldown nor is a sentinel of the API. */
  lemma KeylessReply(creds: map<Bytes, Bytes>, x: Exchange, now: Time)
    requires !HasKey(creds)
    ensures var r := Reply(creds, x, now);
      r.Err? && Root(r.error).Other? && !Engages(r.error) && ErrorStatus(r.error) == InternalError
  {
    var e := Reply(creds, x, now).error;
    StatusOfRoot(e);
    IsMatchesRoot(e, Auth);
  }

  /** The names the plugin reads and shows. */
  lemma Labels()
    ensures SUBSCRIPTION_KEY == Ascii("subscription_key") && PROMPTS == Ascii("prompts")
    ensures TOKEN_PLAN_5H == Ascii("token_plan_5h") && WINDOW_5H == Ascii("5h")
    ensures TOKEN_PLAN_WEEKLY == Ascii("token_plan_weekly") && WINDOW_WEEK == Ascii("week")
  {
  }

  /**
    A metric tells the truth about its quota block: counts passed through, no reset in the past, and used is how far
    remains lies below limit, or zero if it does not, as long as that fits in an int64. With a limit alone all of it
    counts as used, with remains alone nothing does unless it is negative.
  */
  ghost predicate Depicts(m: UsageMetric, q: Quota, name: Bytes, window: Bytes, now: Time) {
    && m.name == name && m.window == window && m.unit == PROMPTS
    && m.limit == q.limit && m.remaining == q.remains && m.used >= 0
    && (m.resetAt.Some? ==> m.resetAt.value > now && m.resetAt == q.resetAt)
    && (m.resetAt.None? ==> q.resetAt.None? || q.resetAt.value <= now)
    && (q.limit.Some? && q.remains.None? ==> m.used == if q.limit.value >= 0 then q.limit.value else 0)
    && (q.limit.None? && q.remains.Some? ==>
          m.used == if -TWO_63 < q.remains.value <= 0 then -q.remains.value else 0)
    && (q.limit.Some? && q.remains.Some? ==>
          var difference := q.limit.value - q.remains.value;
          && (0 <= difference < TWO_63 ==> m.used == difference)
          && (-TWO_63 <= difference <= 0 || difference >= TWO_63 ==> m.used == 0)
          && (difference < -TWO_63 ==> m.used == difference + TWO_64))
  }

  lemma ProjectionDepicts(q: Quota, name: Bytes, window: Bytes, now: Time)
    ensures Projected(q, name, window, now).Ok? <==> q.limit.Some? || q.remains.Some?
    ensures q.limit.Some? || q.remains.Some? ==> Depicts(Projected(q, name, window, now).value, q, name, window, now)
  {
  }

  /** A count for each of the two windows. */
  predicate HasCounts(p: Payload) {
    && (p.current5h.limit.Some? || p.current5h.remains.Some?)
    && (p.currentWeek.limit.Some? || p.currentWeek.remains.Some?)
  }

  /** Success means exactly a key and a parsed 2xx reply with code 0 and a count for each window; the 5 h window comes first. */
  lemma SuccessfulReply(creds: map<Bytes, Bytes>, x: Exchange, now: Time)
    ensures Reply(creds, x, now).Ok? <==>
      && HasKey(creds) && x.Complete? && 200 <= x.status < 300 && x.body.Some? && x.body.value.statusCode == 0
      && HasCounts(x.body.value)
    ensures Reply(creds, x, now).Ok? ==>
      var ms := Reply(creds, x, now).value;
      && |ms| == 2
      && Depicts(ms[0], x.body.value.current5h, TOKEN_PLAN_5H, WINDOW_5H, now)
      && Depicts(ms[1], x.body.value.currentWeek, TOKEN_PLAN_WEEKLY, WINDOW_WEEK, now)
  {
    if x.Complete? && x.body.Some? {
      ProjectionDepicts(x.body.value.current5h, TOKEN_PLAN_5H, WINDOW_5H, now);
      ProjectionDepicts(x.body.value.currentWeek, TOKEN_PLAN_WEEKLY, WINDOW_WEEK, now);
    }
  }

  /** Wrapping a plugin error `layers` more times on its way to the scheduler. */
  function Relayed(r: FetchReply, layers: nat): FetchReply {
    match r
    case Ok(m) => Ok(m)
    case Err(e) => Err(WrapTimes(e, layers))
  }

  /**
    When a scheduler turn calls the plugin, the cooldown is engaged exactly by a rejection of a key that was sent; it is
    cleared by a success that could be stored, and left alone otherwise. Extra error-wrapping layers change nothing.
  */
  lemma CooldownIffRejected(
    w: World, s: Volatile, id: Bytes, env: TurnEnv, creds: map<Bytes, Bytes>, x: Exchange, now: Time, layers: nat)
    requires env.collect.fetch == Relayed(Reply(creds, x, now), layers)
    requires w.cooldown.Some? && !Gated(s.entries, id, env.gateAt)
    requires CollectCycle(w.deps, Tables(w.rows, w.creds, s.snaps), id, env.collect).calledWith == Some(creds)
    ensures TakeTurn(w, s, id, env).0.entries ==
      if HasKey(creds) && Rejected(x) then WithFailure(s.entries, w.cooldown.value, id, env.failAt)
      else if Reply(creds, x, now).Ok? && env.collect.replace.None? then s.entries - {id}
      else s.entries
  {
    ReplyIsAuthIffRejected(creds, x, now);
    var t := Tables(w.rows, w.creds, s.snaps);
    var r := CollectCycle(w.deps, t, id, env.collect);
    CalledOutcome(w.deps, t, id, env.collect);
    var plugin := Reply(creds, x, now);
    if plugin.Err? {
      ReplyNeverClaimsNoFetcher(creds, x, now);
      EngagesThroughLayers(plugin.error, layers);
    } else if r.outcome.Err? {
      EngagesThroughLayers(Other(env.collect.replace.value), 1);
    }
  }

  lemma EngagesThroughLayers(e: Error, layers: nat)
    ensures Engages(Wrapped(WrapTimes(e, layers))) <==> Root(e) == Auth
  {
    IsMatchesRoot(e, Auth);
    IsMatchesRoot(e, FetcherNotFound);
    IsThroughLayers(e, layers, Auth);
    IsThroughLayers(e, layers, FetcherNotFound);
  }

  lemma ReplyNeverClaimsNoFetcher(creds: map<Bytes, Bytes>, x: Exchange, now: Time)
    ensures var r := Reply(creds, x, now); r.Err? ==> Root(r.error) == Auth || Root(r.error).Other?
  {
  }

  /** Once the Fetcher has been called, the outcome is its error in one more layer, or depends on the write alone. */
  lemma CalledOutcome(d: Deps, t: Tables, id: Bytes, env: CollectEnv)
    requires CollectCycle(d, t, id, env).calledWith.Some?
    ensures var r := CollectCycle(d, t, id, env);
      match env.fetch
      case Err(e) => r.outcome == Err(Wrapped(e))
      case Ok(_) => if env.replace.Some? then r.outcome == Err(Wrapped(StoreError(env.replace.value))) else r.outcome.Ok?
  {
  }
}
