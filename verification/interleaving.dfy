/**
  The cooldown under concurrency: the scheduler goroutine and any number of HTTP handlers take turns at the granularity
  of single store statements, Fetcher calls and registry methods, in every order.
*/
module Interleaving {
  import opened Basics
  import opened Errors
  import opened Backoff
  import opened Cooldown
  import opened Store
  import opened Providers
  import opened Credentials
  import opened Collection
  import opened Scheduling
  import opened Api

  /** How far a running Collect has come. */
  datatype CollectPC =
    | AtGet
    | AtReveal(m: Metadata, i: nat, creds: map<Bytes, Bytes>)
    | AtFetch(creds: map<Bytes, Bytes>)
    | AtStamp(metrics: seq<UsageMetric>)
    | AtReplace(metrics: seq<UsageMetric>, at: Time)
    | Finished(outcome: Result<Snapshot, Error>)

  datatype SchedPC =
    | Idle
    | Loop(queue: seq<Bytes>)
    | Collecting(id: Bytes, rest: seq<Bytes>, began: nat, pc: CollectPC)

  datatype HttpPC =
    | Refreshing(id: Bytes, pc: CollectPC)
    | Putting(id: Bytes, values: map<Bytes, Bytes>, todo: set<Bytes>)
    | Dropping(id: Bytes)

  /** What happened to the cooldown, in order. `began` is the position of the Began event of the same Collect. */
  datatype Event =
    | Began(id: Bytes, at: Time)
    | Failed(id: Bytes, at: Time, failures: nat, until: Time, began: nat)
    | Succeeded(id: Bytes)
    | Cleared(id: Bytes)

  datatype State = State(
    tables: Tables, entries: Entries, clock: Time, sched: SchedPC, http: map<nat, HttpPC>, trace: seq<Event>)

  datatype Process = Process(deps: Deps, limits: Limits)

  /** Everything a single step may meet; each step uses the part it needs. */
  datatype Chance = Chance(fault: Fault, fetch: FetchReply, field: Bytes, write: WriteEnv)

  datatype Request =
    | Refresh(id: Bytes)
    | Put(id: Bytes, values: map<Bytes, Bytes>)
    | Drop(id: Bytes)
    | Switch(id: Bytes, on: bool)

  datatype Move =
    | Advance(elapsed: nat)
    | SchedStep(ch: Chance, cancelled: bool)
    | HttpStart(tid: nat, request: Request, ch: Chance)
    | HttpStep(tid: nat, ch: Chance)

  // -------------------------------------------------------------------------------------------------
  // Steps

  function CollectStep(d: Deps, t: Tables, clock: Time, id: Bytes, pc: CollectPC, ch: Chance): (Snaps, CollectPC) {
    match pc
    case AtGet =>
      (match GetProvider(d.registry, t.rows, d.fetchers, id, ch.fault)
       case Err(e) => (t.snaps, Finished(Err(e)))
       case Ok(p) => (t.snaps, if p.enabled then AtReveal(p.meta, 0, map[]) else Finished(Err(ProviderDisabled))))
    case AtReveal(m, i, creds) =>
      if i >= |m.fields| then (t.snaps, AtFetch(creds))
      else
        (match LoadField(d.vault, t.creds, m.id, m.fields[i].name, ch.fault)
         case Err(e) => (t.snaps, Finished(Err(e)))
         case Ok(value) => (t.snaps, AtReveal(m, i + 1, creds[m.fields[i].name := value])))
    case AtFetch(_) =>
      (match FetchOutcome(d.registry, d.fetchers, id, ch.fetch)
       case Err(e) => (t.snaps, Finished(Err(e)))
       case Ok(metrics) => (t.snaps, AtStamp(metrics)))
    case AtStamp(metrics) => (t.snaps, AtReplace(metrics, clock))
    case AtReplace(metrics, at) =>
      var snap := Snapshot(id, ToStoreMetrics(metrics), at, None);
      if ch.fault.Some? then (t.snaps, Finished(Err(Wrapped(StoreError(ch.fault.value)))))
      else (t.snaps[id := snap], Finished(Ok(snap)))
    case Finished(_) => (t.snaps, pc)
  }

  function EnabledIds(listed: seq<Provider>): seq<Bytes> {
    if listed == [] then []
    else (if listed[0].enabled then [listed[0].meta.id] else []) + EnabledIds(listed[1..])
  }

  /** The scheduler goroutine's next atomic action; Idle means waiting for the ticker. */
  function SchedNext(y: Process, s: State, ch: Chance, cancelled: bool): State {
    match s.sched
    case Idle =>
      if ch.fault.Some? then s
      else s.(sched := Loop(EnabledIds(MergedList(y.deps.registry, s.tables.rows, y.deps.fetchers))))
    case Loop(queue) =>
      if queue == [] || cancelled then s.(sched := Idle)
      else if Gated(s.entries, queue[0], s.clock) then s.(sched := Loop(queue[1..]))
      else s.(sched := Collecting(queue[0], queue[1..], |s.trace|, AtGet), trace := s.trace + [Began(queue[0], s.clock)])
    case Collecting(id, rest, began, pc) =>
      if pc.Finished? then Conclude(y, s, id, rest, began, pc.outcome)
      else
        var (snaps, pc') := CollectStep(y.deps, s.tables, s.clock, id, pc, ch);
        s.(tables := s.tables.(snaps := snaps), sched := Collecting(id, rest, began, pc'))
  }

  /** recordFailure, Clear, or neither: one locked section of the registry, or none. */
  function Conclude(y: Process, s: State, id: Bytes, rest: seq<Bytes>, began: nat, outcome: Result<Snapshot, Error>): State {
    var s' := s.(sched := Loop(rest), entries := AfterOutcome(s.entries, Some(y.limits), id, outcome, s.clock));
    match outcome
    case Ok(_) => s'.(trace := s.trace + [Succeeded(id)])
    case Err(e) =>
      if Engages(e) then
        var entry := s'.entries[id];
        s'.(trace := s.trace + [Failed(id, s.clock, entry.failures, entry.until, began)])
      else s'
  }

  function HttpBegin(y: Process, s: State, tid: nat, request: Request, ch: Chance): State {
    if tid in s.http then s
    else match request
    case Refresh(id) => s.(http := s.http[tid := Refreshing(id, AtGet)])
    case Put(id, values) =>
      (match GetProvider(y.deps.registry, s.tables.rows, y.deps.fetchers, id, ch.fault)
       case Err(_) => s
       case Ok(p) =>
         if FieldsError(p.meta.fields, values).Some? then s
         else s.(http := s.http[tid := Putting(id, values, values.Keys)]))
    case Drop(id) =>
      (match GetProvider(y.deps.registry, s.tables.rows, y.deps.fetchers, id, ch.fault)
       case Err(_) => s
       case Ok(_) => s.(http := s.http[tid := Dropping(id)]))
    case Switch(id, on) =>
      s.(tables := s.tables.(rows := SwitchRow(y.deps.registry, s.tables.rows, id, on, ch.fault).0))
  }

  /** One upsert per step; the cooldown is cleared in a step of its own once nothing is left to write. */
  function HttpNext(y: Process, s: State, tid: nat, ch: Chance): State {
    if tid !in s.http then s
    else match s.http[tid]
    case Refreshing(id, pc) =>
      if pc.Finished? then s.(http := s.http - {tid})
      else
        var (snaps, pc') := CollectStep(y.deps, s.tables, s.clock, id, pc, ch);
        s.(tables := s.tables.(snaps := snaps), http := s.http[tid := Refreshing(id, pc')])
    case Putting(id, values, todo) =>
      if todo == {} then
        s.(http := s.http - {tid}, entries := s.entries - {id}, trace := s.trace + [Cleared(id)])
      else if ch.field !in todo || ch.field !in values then s
      else
        (match SealField(y.deps.vault, id, ch.field, values[ch.field], ch.write)
         case Err(_) => s.(http := s.http - {tid})
         case Ok(blob) =>
           if ch.fault.Some? then s.(http := s.http - {tid})
           else s.(tables := s.tables.(creds := s.tables.creds[(id, ch.field) := blob]),
                   http := s.http[tid := Putting(id, values, todo - {ch.field})]))
    case Dropping(id) =>
      var s' := s.(http := s.http - {tid});
      if ch.fault.Some? then s' else s'.(tables := s.tables.(creds := WithoutProvider(s.tables.creds, id)))
  }

  /** A goroutine that may be inside a Collect. */
  datatype Runner = TheScheduler | Handler(tid: nat)

  /** The Collect a goroutine is in: of which provider, and how far. */
  function Running(s: State, who: Runner): Option<(Bytes, CollectPC)> {
    match who
    case TheScheduler => if s.sched.Collecting? then Some((s.sched.id, s.sched.pc)) else None
    case Handler(tid) => if tid in s.http && s.http[tid].Refreshing? then Some((s.http[tid].id, s.http[tid].pc)) else None
  }

  /** The goroutine's own next step. */
  function Own(who: Runner, ch: Chance): Move {
    match who
    case TheScheduler => SchedStep(ch, false)
    case Handler(tid) => HttpStep(tid, ch)
  }

  function Next(y: Process, s: State, move: Move): State {
    match move
    case Advance(elapsed) => s.(clock := s.clock + elapsed)
    case SchedStep(ch, cancelled) => SchedNext(y, s, ch, cancelled)
    case HttpStart(tid, request, ch) => HttpBegin(y, s, tid, request, ch)
    case HttpStep(tid, ch) => HttpNext(y, s, tid, ch)
  }

  function Exec(y: Process, s: State, moves: seq<Move>): State
    decreases moves
  {
    if moves == [] then s else Exec(y, Next(y, s, moves[0]), moves[1..])
  }

  lemma {:induction false} ExecAppend(y: Process, s: State, l1: seq<Move>, l2: seq<Move>)
    ensures Exec(y, s, l1 + l2) == Exec(y, Exec(y, s, l1), l2)
    decreases l1
  {
    if l1 == [] {
      assert l1 + l2 == l2;
    } else {
      assert (l1 + l2)[1..] == l1[1..] + l2;
      ExecAppend(y, Next(y, s, l1[0]), l1[1..], l2);
    }
  }

  lemma ExecOne(y: Process, s: State, a: Move)
    ensures Exec(y, s, [a]) == Next(y, s, a)
  {
    assert Exec(y, Next(y, s, a), [a][1..]) == Next(y, s, a);
  }

  lemma ExecTwo(y: Process, s: State, a: Move, b: Move)
    ensures Exec(y, s, [a, b]) == Next(y, Next(y, s, a), b)
  {
    assert [a, b][1..] == [b] && [b][1..] == [];
    assert Exec(y, Next(y, s, a), [b]) == Exec(y, Next(y, Next(y, s, a), b), []);
  }

  /** A process starts with an empty cooldown and nothing running, on whatever the tables hold. */
  predicate Initial(s: State) {
    s.entries == map[] && s.sched == Idle && s.http == map[] && s.trace == []
  }

  function WorldOf(y: Process, s: State): World {
    World(y.deps, Some(y.limits), s.tables.rows, s.tables.creds)
  }

  function VolatileOf(s: State): Volatile {
    Volatile(s.tables.snaps, s.entries)
  }

  // -------------------------------------------------------------------------------------------------
  // The history behind the cooldown

  /** The scheduler's auth-failure times of id since its last success or credential set. */
  function FailTimes(trace: seq<Event>, id: Bytes): seq<Time>
    decreases trace
  {
    if trace == [] then []
    else
      var before := FailTimes(trace[..|trace| - 1], id);
      var e := trace[|trace| - 1];
      if e.id != id || e.Began? then before
      else if e.Failed? then before + [e.at]
      else []
  }

  lemma FailTimesStep(trace: seq<Event>, e: Event, id: Bytes)
    ensures FailTimes(trace + [e], id) ==
      if e.id != id || e.Began? then FailTimes(trace, id)
      else if e.Failed? then FailTimes(trace, id) + [e.at]
      else []
  {
  }

  /** An entry exists exactly while there are such failures; it counts them and ends one window after the last. */
  ghost predicate EntryTellsHistory(y: Process, s: State, id: Bytes) {
    var ts := FailTimes(s.trace, id);
    && (id in s.entries <==> ts != [])
    && (ts != [] ==> s.entries[id] == Entry(|ts|, ts[|ts| - 1] + Window(y.limits.base, y.limits.max, |ts|)))
  }

  /** Consecutive failures are at least the window of the earlier one apart. */
  ghost predicate Spaced(limits: Limits, ts: seq<Time>) {
    forall k :: 1 <= k < |ts| ==> ts[k] >= ts[k - 1] + Window(limits.base, limits.max, k)
  }

  /** From position `from` on, only HTTP handlers touched the cooldown. */
  ghost predicate OnlyHttpSince(trace: seq<Event>, from: nat, to: nat)
    requires to <= |trace|
  {
    forall k :: from <= k < to ==> trace[k].Cleared?
  }

  /** The i-th event, a recorded failure, belongs to a Collect that began earlier with nothing of the scheduler between. */
  ghost predicate FailureAccounted(limits: Limits, trace: seq<Event>, i: nat)
    requires i < |trace| && trace[i].Failed?
  {
    var e := trace[i];
    && e.began < i && trace[e.began].Began? && trace[e.began].id == e.id
    && OnlyHttpSince(trace, e.began + 1, i)
    && e.failures == |FailTimes(trace[..i], e.id)| + 1
    && e.until == e.at + Window(limits.base, limits.max, e.failures)
  }

  ghost predicate FailuresAccounted(limits: Limits, trace: seq<Event>) {
    forall i :: 0 <= i < |trace| && trace[i].Failed? ==> FailureAccounted(limits, trace, i)
  }

  /** A running Collect passed the gate: whatever entry is left for its provider has run out. */
  ghost predicate CollectingAccounted(s: State) {
    s.sched.Collecting? ==>
      var id, began := s.sched.id, s.sched.began;
      && began < |s.trace| && s.trace[began].Began? && s.trace[began].id == id
      && OnlyHttpSince(s.trace, began + 1, |s.trace|)
      && (id in s.entries ==> s.entries[id].until <= s.clock)
  }

  ghost predicate Inv(y: Process, s: State) {
    && (forall id :: EntryTellsHistory(y, s, id))
    && (forall id :: Spaced(y.limits, FailTimes(s.trace, id)))
    && FailuresAccounted(y.limits, s.trace)
    && CollectingAccounted(s)
  }

  lemma AccountedStays(limits: Limits, trace: seq<Event>, e: Event)
    requires FailuresAccounted(limits, trace)
    requires e.Failed? ==> FailureAccounted(limits, trace + [e], |trace|)
    ensures FailuresAccounted(limits, trace + [e])
  {
    var longer := trace + [e];
    forall i | 0 <= i < |longer| && longer[i].Failed?
      ensures FailureAccounted(limits, longer, i)
    {
      if i < |trace| {
        assert FailureAccounted(limits, trace, i);
        assert longer[..i] == trace[..i];
        assert forall k :: 0 <= k < i ==> longer[k] == trace[k];
      }
    }
  }

  /** Events that are not failures: Began leaves the history alone, the two kinds of clearing erase it. */
  lemma ClearingEventKeepsInv(y: Process, s: State, s': State, e: Event)
    requires Inv(y, s) && !e.Failed? && s'.trace == s.trace + [e]
    requires s'.entries == if e.Began? then s.entries else s.entries - {e.id}
    requires CollectingAccounted(s')
    ensures Inv(y, s')
  {
    AccountedStays(y.limits, s.trace, e);
    forall id
      ensures EntryTellsHistory(y, s', id) && Spaced(y.limits, FailTimes(s'.trace, id))
    {
      assert EntryTellsHistory(y, s, id) && Spaced(y.limits, FailTimes(s.trace, id));
      ClearingEventFor(y, s, s', e, id);
    }
  }

  lemma ClearingEventFor(y: Process, s: State, s': State, e: Event, id: Bytes)
    requires EntryTellsHistory(y, s, id) && Spaced(y.limits, FailTimes(s.trace, id))
    requires !e.Failed? && s'.trace == s.trace + [e]
    requires s'.entries == if e.Began? then s.entries else s.entries - {e.id}
    ensures EntryTellsHistory(y, s', id) && Spaced(y.limits, FailTimes(s'.trace, id))
  {
    FailTimesStep(s.trace, e, id);
  }

  lemma FailedEventKeepsInv(y: Process, s: State, s': State, e: Event)
    requires Inv(y, s) && s.sched.Collecting? && e.Failed? && e.id == s.sched.id && e.began == s.sched.began
    requires e.at == s.clock
    requires s'.entries == WithFailure(s.entries, y.limits, e.id, e.at)
    requires e.failures == s'.entries[e.id].failures && e.until == s'.entries[e.id].until
    requires s'.trace == s.trace + [e] && !s'.sched.Collecting?
    ensures Inv(y, s')
  {
    NewFailureAccounted(y, s, e);
    AccountedStays(y.limits, s.trace, e);
    forall id
      ensures EntryTellsHistory(y, s', id) && Spaced(y.limits, FailTimes(s'.trace, id))
    {
      assert EntryTellsHistory(y, s, id) && Spaced(y.limits, FailTimes(s.trace, id));
      FailedEventFor(y, s, s', e, id);
    }
  }

  lemma FailedEventFor(y: Process, s: State, s': State, e: Event, id: Bytes)
    requires EntryTellsHistory(y, s, id) && Spaced(y.limits, FailTimes(s.trace, id))
    requires e.Failed? && s'.trace == s.trace + [e] && s'.entries == WithFailure(s.entries, y.limits, e.id, e.at)
    requires e.id in s.entries ==> s.entries[e.id].until <= e.at
    ensures EntryTellsHistory(y, s', id) && Spaced(y.limits, FailTimes(s'.trace, id))
  {
    FailTimesStep(s.trace, e, id);
    if id == e.id {
      OneFailureMore(y, s, FailTimes(s.trace, id), e.id, e.at);
    } else {
      OtherEntryUntouched(s.entries, y.limits, e.id, e.at, id);
    }
  }

  /** With the gate open, one failure more keeps the distance, and the entry counts it. */
  lemma OneFailureMore(y: Process, s: State, ts: seq<Time>, id: Bytes, at: Time)
    requires id in s.entries <==> ts != []
    requires ts != [] ==> s.entries[id] == Entry(|ts|, ts[|ts| - 1] + Window(y.limits.base, y.limits.max, |ts|))
    requires id in s.entries ==> s.entries[id].until <= at
    requires Spaced(y.limits, ts)
    ensures Spaced(y.limits, ts + [at])
    ensures WithFailure(s.entries, y.limits, id, at)[id]
      == Entry(|ts| + 1, at + Window(y.limits.base, y.limits.max, |ts| + 1))
  {
  }

  lemma NewFailureAccounted(y: Process, s: State, e: Event)
    requires EntryTellsHistory(y, s, e.id) && CollectingAccounted(s)
    requires s.sched.Collecting? && e.Failed? && e.id == s.sched.id && e.began == s.sched.began
    requires e.failures == FailureCount(s.entries, e.id) + 1
    requires e.until == e.at + Window(y.limits.base, y.limits.max, e.failures)
    ensures FailureAccounted(y.limits, s.trace + [e], |s.trace|)
  {
  }

  lemma OtherEntryUntouched(entries: Entries, limits: Limits, id: Bytes, at: Time, other: Bytes)
    requires other != id
    ensures var r := WithFailure(entries, limits, id, at);
      (other in r <==> other in entries) && (other in entries ==> r[other] == entries[other])
  {
  }

  lemma QuietStepKeepsInv(y: Process, s: State, s': State)
    requires Inv(y, s) && s'.trace == s.trace && s'.entries == s.entries
    requires CollectingAccounted(s')
    ensures Inv(y, s')
  {
    forall id
      ensures EntryTellsHistory(y, s', id)
    {
      assert EntryTellsHistory(y, s, id);
    }
  }

  lemma SchedKeepsInv(y: Process, s: State, ch: Chance, cancelled: bool)
    requires Inv(y, s)
    ensures Inv(y, SchedNext(y, s, ch, cancelled))
  {
    var s' := SchedNext(y, s, ch, cancelled);
    match s.sched
    case Idle => QuietStepKeepsInv(y, s, s');
    case Loop(queue) =>
      if s'.sched.Collecting? {
        ClearingEventKeepsInv(y, s, s', Began(queue[0], s.clock));
      } else {
        QuietStepKeepsInv(y, s, s');
      }
    case Collecting(id, rest, began, pc) =>
      if pc.Finished? {
        ConcludingKeepsInv(y, s, pc.outcome);
      } else {
        QuietStepKeepsInv(y, s, s');
      }
  }

  lemma ConcludingKeepsInv(y: Process, s: State, outcome: Result<Snapshot, Error>)
    requires Inv(y, s) && s.sched.Collecting?
    ensures Inv(y, Conclude(y, s, s.sched.id, s.sched.rest, s.sched.began, outcome))
  {
    var s' := Conclude(y, s, s.sched.id, s.sched.rest, s.sched.began, outcome);
    if outcome.Ok? {
      ClearingEventKeepsInv(y, s, s', Succeeded(s.sched.id));
    } else if Engages(outcome.error) {
      FailedEventKeepsInv(y, s, s', s'.trace[|s.trace|]);
    } else {
      QuietStepKeepsInv(y, s, s');
    }
  }

  lemma BeginKeepsInv(y: Process, s: State, tid: nat, request: Request, ch: Chance)
    requires Inv(y, s)
    ensures Inv(y, HttpBegin(y, s, tid, request, ch))
  {
    QuietStepKeepsInv(y, s, HttpBegin(y, s, tid, request, ch));
  }

  lemma HttpKeepsInv(y: Process, s: State, tid: nat, ch: Chance)
    requires Inv(y, s)
    ensures Inv(y, HttpNext(y, s, tid, ch))
  {
    var s' := HttpNext(y, s, tid, ch);
    if tid in s.http && s.http[tid].Putting? && s.http[tid].todo == {} {
      ClearingEventKeepsInv(y, s, s', Cleared(s.http[tid].id));
    } else {
      QuietStepKeepsInv(y, s, s');
    }
  }

  lemma StepKeepsInv(y: Process, s: State, move: Move)
    requires Inv(y, s)
    ensures Inv(y, Next(y, s, move))
  {
    match move
    case Advance(_) => QuietStepKeepsInv(y, s, Next(y, s, move));
    case SchedStep(ch, cancelled) => SchedKeepsInv(y, s, ch, cancelled);
    case HttpStart(tid, request, ch) => BeginKeepsInv(y, s, tid, request, ch);
    case HttpStep(tid, ch) => HttpKeepsInv(y, s, tid, ch);
  }

  lemma {:induction false} RunKeepsInv(y: Process, s: State, moves: seq<Move>)
    requires Inv(y, s)
    ensures Inv(y, Exec(y, s, moves))
    decreases moves
  {
    if moves != [] {
      StepKeepsInv(y, s, moves[0]);
      RunKeepsInv(y, Next(y, s, moves[0]), moves[1..]);
    }
  }

  lemma InvHolds(y: Process, s: State, moves: seq<Move>)
    requires Initial(s)
    ensures Inv(y, Exec(y, s, moves))
  {
    RunKeepsInv(y, s, moves);
  }

  // -------------------------------------------------------------------------------------------------
  // What follows for every run and every interleaving

  /** The cooldown is a summary of the history: which failures count, how many there were, and when the last one was. */
  lemma CooldownTellsHistory(y: Process, s: State, moves: seq<Move>, id: Bytes)
    requires Initial(s)
    ensures EntryTellsHistory(y, Exec(y, s, moves), id)
  {
    InvHolds(y, s, moves);
  }

  lemma {:induction false} SpacedTotal(limits: Limits, ts: seq<Time>)
    requires Spaced(limits, ts) && ts != []
    ensures ts[|ts| - 1] - ts[0] >= WindowSum(limits.base, limits.max, |ts| - 1)
  {
    if |ts| > 1 {
      var n := |ts| - 1;
      SpacedTotal(limits, ts[..n]);
      assert ts[n] >= ts[n - 1] + Window(limits.base, limits.max, n);
    }
  }

  /** Both durations positive, and the documented windows kept. */
  predicate Sound(limits: Limits) {
    limits.base > 0 && limits.max > 0 && ShortWrapFree(limits.base, limits.max)
  }

  /** The least time n + 1 failures can take: the doubling phase plus the cap for every window beyond it. */
  function LeastSpan(limits: Limits, n: nat): int {
    ClosedForm(limits.base, limits.max, n, Uncapped(limits.base, limits.max, n))
  }

  lemma SpacedClosedForm(limits: Limits, ts: seq<Time>)
    requires Sound(limits) && Spaced(limits, ts) && ts != []
    ensures ts[|ts| - 1] - ts[0] >= LeastSpan(limits, |ts| - 1)
  {
    SpacedTotal(limits, ts);
    WindowSumClosedForm(limits.base, limits.max, |ts| - 1);
  }

  /**
    Rate limit: the scheduler's consecutive auth failures of one provider, with no clearing in between, are a window
    apart each, in every interleaving; with a base and cap that keep the documented windows, the total follows.
  */
  lemma FailuresAreRateLimited(y: Process, s: State, moves: seq<Move>, id: Bytes)
    requires Initial(s)
    ensures var ts := FailTimes(Exec(y, s, moves).trace, id);
      && Spaced(y.limits, ts)
      && (Sound(y.limits) && ts != [] ==> ts[|ts| - 1] - ts[0] >= LeastSpan(y.limits, |ts| - 1))
  {
    InvHolds(y, s, moves);
    var ts := FailTimes(Exec(y, s, moves).trace, id);
    if Sound(y.limits) && ts != [] {
      SpacedClosedForm(y.limits, ts);
    }
  }

  /** A provider is never gated longer than max past its last recorded failure. */
  lemma GatingIsBounded(y: Process, s: State, moves: seq<Move>, id: Bytes, now: Time)
    requires Initial(s) && y.limits.max > 0
    ensures var ts := FailTimes(Exec(y, s, moves).trace, id);
      && (ts == [] ==> !Gated(Exec(y, s, moves).entries, id, now))
      && (ts != [] && now >= ts[|ts| - 1] + y.limits.max ==> !Gated(Exec(y, s, moves).entries, id, now))
  {
    InvHolds(y, s, moves);
    assert EntryTellsHistory(y, Exec(y, s, moves), id);
  }

  /** So one undisturbed tick that lists the provider as enabled, gated at or after that instant, calls Collect for it. */
  lemma UndisturbedTickCollects(
    y: Process, s: State, moves: seq<Move>, listed: seq<Provider>, envs: Bytes -> TurnEnv, cancelled: nat -> bool, id: Bytes)
    requires Initial(s) && y.limits.max > 0
    requires DistinctListing(listed) && Due(listed, 0, id) && forall j :: !cancelled(j)
    requires var ts := FailTimes(Exec(y, s, moves).trace, id);
      ts != [] ==> envs(id).gateAt >= ts[|ts| - 1] + y.limits.max
    ensures var s' := Exec(y, s, moves);
      exists o :: (id, Called(o)) in TickFrom(WorldOf(y, s'), VolatileOf(s'), listed, envs, 0, cancelled).1
  {
    var s' := Exec(y, s, moves);
    GatingIsBounded(y, s, moves, id, envs(id).gateAt);
    TickCallsCollect(WorldOf(y, s'), VolatileOf(s'), listed, envs, cancelled, id);
  }

  // -------------------------------------------------------------------------------------------------
  // A tick among handlers: an open gate stays open until the provider's turn

  /** In none of these moves does the scheduler find its context cancelled. */
  ghost predicate Uncancelled(moves: seq<Move>) {
    forall i :: 0 <= i < |moves| && moves[i].SchedStep? ==> !moves[i].cancelled
  }

  /** A Collect of id has begun at or after position `from`. */
  ghost predicate BeganSince(trace: seq<Event>, id: Bytes, from: nat) {
    exists k :: from <= k < |trace| && trace[k].Began? && trace[k].id == id
  }

  /** id's turn in the running tick is still to come, and its gate is open. */
  predicate DueUngated(s: State, id: Bytes) {
    && !Gated(s.entries, id, s.clock)
    && match s.sched
       case Idle => false
       case Loop(queue) => id in queue
       case Collecting(other, rest, _, _) => other != id && id in rest
  }

  lemma TraceGrows(y: Process, s: State, move: Move)
    ensures s.trace <= Next(y, s, move).trace
  {
  }

  lemma {:induction false} TraceOnlyGrows(y: Process, s: State, moves: seq<Move>)
    ensures s.trace <= Exec(y, s, moves).trace
    decreases moves
  {
    if moves != [] {
      TraceGrows(y, s, moves[0]);
      TraceOnlyGrows(y, Next(y, s, moves[0]), moves[1..]);
    }
  }

  lemma SchedKeepsDue(y: Process, s: State, ch: Chance, id: Bytes)
    requires DueUngated(s, id)
    ensures var s' := SchedNext(y, s, ch, false);
      DueUngated(s', id) || (|s'.trace| > |s.trace| && s'.trace[|s.trace|] == Began(id, s.clock))
  {
    match s.sched
    case Loop(queue) =>
      assert queue == [queue[0]] + queue[1..];
    case Collecting(other, rest, began, pc) =>
      if pc.Finished? {
        OtherEntryUntouched(s.entries, y.limits, other, s.clock, id);
      }
  }

  lemma StepKeepsDue(y: Process, s: State, move: Move, id: Bytes, from: nat)
    requires from <= |s.trace| && (DueUngated(s, id) || BeganSince(s.trace, id, from))
    requires move.SchedStep? ==> !move.cancelled
    ensures var s' := Next(y, s, move); DueUngated(s', id) || BeganSince(s'.trace, id, from)
  {
    if BeganSince(s.trace, id, from) {
      TraceGrows(y, s, move);
    } else if move.SchedStep? {
      SchedKeepsDue(y, s, move.ch, id);
    }
  }

  lemma {:induction false} RunKeepsDue(y: Process, s: State, moves: seq<Move>, id: Bytes, from: nat)
    requires from <= |s.trace| && (DueUngated(s, id) || BeganSince(s.trace, id, from))
    requires Uncancelled(moves)
    ensures var s' := Exec(y, s, moves); DueUngated(s', id) || BeganSince(s'.trace, id, from)
    decreases moves
  {
    if moves != [] {
      StepKeepsDue(y, s, moves[0], id, from);
      TraceGrows(y, s, moves[0]);
      RunKeepsDue(y, Next(y, s, moves[0]), moves[1..], id, from);
    }
  }

  /**
    Wherever a tick stands: if it still has to come to id and id is not gated, a Collect of id begins before the tick is
    over, whatever time passes and whatever the handlers do meanwhile.
  */
  lemma DueTurnHappens(y: Process, s: State, moves: seq<Move>, id: Bytes)
    requires DueUngated(s, id) && Uncancelled(moves) && Exec(y, s, moves).sched.Idle?
    ensures BeganSince(Exec(y, s, moves).trace, id, |s.trace|)
  {
    RunKeepsDue(y, s, moves, id, |s.trace|);
  }

  /** The next tick lists id as enabled, in a listing that succeeds. */
  predicate ListsEnabled(y: Process, s: State, moves: seq<Move>, id: Bytes) {
    && Find(y.deps.registry, id).Some? && EnabledIn(s.tables.rows, id)
    && moves != [] && moves[0].SchedStep? && moves[0].ch.fault.None?
  }

  lemma {:induction false} EnabledIsQueued(listed: seq<Provider>, i: nat)
    requires i < |listed| && listed[i].enabled
    ensures listed[i].meta.id in EnabledIds(listed)
  {
    if i > 0 {
      EnabledIsQueued(listed[1..], i - 1);
    }
  }

  /** A tick that finds id's gate open when it starts collects it. */
  lemma OpenGateIsUsed(y: Process, s: State, tick: seq<Move>, id: Bytes)
    requires s.sched.Idle? && !Gated(s.entries, id, s.clock)
    requires ListsEnabled(y, s, tick, id) && Uncancelled(tick) && Exec(y, s, tick).sched.Idle?
    ensures BeganSince(Exec(y, s, tick).trace, id, |s.trace|)
  {
    var i :| 0 <= i < |y.deps.registry| && y.deps.registry[i].id == id;
    EnabledIsQueued(MergedList(y.deps.registry, s.tables.rows, y.deps.fetchers), i);
    DueTurnHappens(y, Next(y, s, tick[0]), tick[1..], id);
  }

  /**
    The cooldown never silences a provider for good: in every interleaving, a tick that starts at or after the last
    recorded failure plus max and lists the provider as enabled begins a Collect of it.
  */
  lemma CollectedOnceGatingIsOver(y: Process, s0: State, before: seq<Move>, tick: seq<Move>, id: Bytes)
    requires Initial(s0) && y.limits.max > 0
    requires var s := Exec(y, s0, before);
      var ts := FailTimes(s.trace, id);
      s.sched.Idle? && (ts != [] ==> s.clock >= ts[|ts| - 1] + y.limits.max)
    requires var s := Exec(y, s0, before);
      ListsEnabled(y, s, tick, id) && Uncancelled(tick) && Exec(y, s, tick).sched.Idle?
    ensures var s := Exec(y, s0, before);
      BeganSince(Exec(y, s, tick).trace, id, |s.trace|)
  {
    var s := Exec(y, s0, before);
    GatingIsBounded(y, s0, before, id, s.clock);
    OpenGateIsUsed(y, s, tick, id);
  }

  // -------------------------------------------------------------------------------------------------
  // Failures that outlive a credential set

  lemma {:induction false} NoFailureSince(trace: seq<Event>, id: Bytes, from: nat)
    requires from < |trace| && trace[from] == Cleared(id)
    requires forall k :: from < k < |trace| && trace[k].Failed? ==> trace[k].id != id
    ensures FailTimes(trace, id) == []
    decreases trace
  {
    if from < |trace| - 1 {
      NoFailureSince(trace[..|trace| - 1], id, from);
    }
  }

  /** The Collect behind a later failure began after the earlier failure was recorded. */
  lemma CollectsDoNotOverlap(limits: Limits, trace: seq<Event>, i: nat, j: nat)
    requires FailuresAccounted(limits, trace)
    requires i < j < |trace| && trace[i].Failed? && trace[j].Failed?
    ensures trace[j].began > i
  {
  }

  /**
    A credential set races with a Collect that read the old credentials. At most one failure of such a Collect can
    still be recorded after the clear (position c); it counts as the first, so it gates for one base window only, and
    every other later failure comes from a Collect begun after the clear.
  */
  lemma StaleFailureAfterSet(y: Process, s: State, moves: seq<Move>, c: nat, i: nat)
    requires Initial(s)
    requires var trace := Exec(y, s, moves).trace;
      c < i < |trace| && trace[c].Cleared? && trace[i].Failed? && trace[i].id == trace[c].id && trace[i].began < c
    ensures var trace := Exec(y, s, moves).trace;
      && trace[i].failures == 1
      && trace[i].until == trace[i].at + Window(y.limits.base, y.limits.max, 1)
      && forall j :: c < j < |trace| && trace[j].Failed? && trace[j].id == trace[c].id && j != i ==> trace[j].began > c
  {
    InvHolds(y, s, moves);
    var trace := Exec(y, s, moves).trace;
    assert FailureAccounted(y.limits, trace, i);
    NoFailureSince(trace[..i], trace[c].id, c);
    forall j | c < j < |trace| && trace[j].Failed? && trace[j].id == trace[c].id && j != i
      ensures trace[j].began > c
    {
      if i < j {
        CollectsDoNotOverlap(y.limits, trace, i, j);
      }
    }
  }

  /** ... and if that stale failure is the latest, the provider is ungated from its time plus one window on. */
  lemma StaleFailureGatesOneWindow(y: Process, s: State, moves: seq<Move>, c: nat, i: nat, now: Time)
    requires Initial(s)
    requires var trace := Exec(y, s, moves).trace;
      c < i < |trace| && trace[c].Cleared? && trace[i].Failed? && trace[i].id == trace[c].id && trace[i].began < c
    requires var trace := Exec(y, s, moves).trace;
      forall j :: i < j < |trace| ==> trace[j].id != trace[i].id || trace[j].Began?
    ensures var s' := Exec(y, s, moves);
      Gated(s'.entries, s'.trace[i].id, now) <==> now < s'.trace[i].at + Window(y.limits.base, y.limits.max, 1)
  {
    InvHolds(y, s, moves);
    StaleFailureAfterSet(y, s, moves, c, i);
    LatestFailureDecides(y, Exec(y, s, moves), i);
  }

  /** The latest failure on record of a provider determines its entry. */
  lemma LatestFailureDecides(y: Process, s: State, i: nat)
    requires Inv(y, s) && i < |s.trace| && s.trace[i].Failed?
    requires forall j :: i < j < |s.trace| ==> s.trace[j].id != s.trace[i].id || s.trace[j].Began?
    ensures var e := s.trace[i]; e.id in s.entries && s.entries[e.id] == Entry(e.failures, e.until)
  {
    var e := s.trace[i];
    assert FailureAccounted(y.limits, s.trace, i);
    EndsWithLatest(s.trace, i);
    assert EntryTellsHistory(y, s, e.id);
  }

  lemma EndsWithLatest(trace: seq<Event>, i: nat)
    requires i < |trace| && trace[i].Failed?
    requires forall j :: i < j < |trace| ==> trace[j].id != trace[i].id || trace[j].Began?
    ensures var e := trace[i]; FailTimes(trace, e.id) == FailTimes(trace[..i], e.id) + [e.at]
  {
    LatestCounts(trace, i);
    HistoryUnchanged(trace, i + 1, trace[i].id);
  }

  lemma LatestCounts(trace: seq<Event>, i: nat)
    requires i < |trace| && trace[i].Failed?
    ensures var e := trace[i]; FailTimes(trace[..i + 1], e.id) == FailTimes(trace[..i], e.id) + [e.at]
  {
    FailTimesStep(trace[..i], trace[i], trace[i].id);
    assert trace[..i] + [trace[i]] == trace[..i + 1];
  }

  lemma {:induction false} HistoryUnchanged(trace: seq<Event>, from: nat, id: Bytes)
    requires from <= |trace| && forall k :: from <= k < |trace| ==> trace[k].id != id || trace[k].Began?
    ensures FailTimes(trace, id) == FailTimes(trace[..from], id)
    decreases trace
  {
    if from < |trace| {
      var shorter := trace[..|trace| - 1];
      HistoryUnchanged(shorter, from, id);
      assert shorter[..from] == trace[..from];
    } else {
      assert trace[..from] == trace;
    }
  }

  // -------------------------------------------------------------------------------------------------
  // Single steps

  /** A tick whose listing fails does nothing at all. */
  lemma FailedListingChangesNothing(y: Process, s: State, ch: Chance, cancelled: bool)
    requires s.sched.Idle? && ch.fault.Some?
    ensures Next(y, s, SchedStep(ch, cancelled)) == s
  {
  }

  /** A listing that succeeds queues exactly the registered providers that are enabled, and does nothing else. */
  lemma ListingQueuesEnabled(y: Process, s: State, ch: Chance, cancelled: bool, id: Bytes)
    requires s.sched.Idle? && ch.fault.None?
    ensures var s' := Next(y, s, SchedStep(ch, cancelled));
      && s'.sched.Loop? && s' == s.(sched := s'.sched)
      && (id in s'.sched.queue <==> Find(y.deps.registry, id).Some? && EnabledIn(s.tables.rows, id))
  {
    var listed := MergedList(y.deps.registry, s.tables.rows, y.deps.fetchers);
    QueuedIsEnabled(listed, id);
    assert forall i :: 0 <= i < |listed| ==> listed[i].meta.id == y.deps.registry[i].id;
  }

  lemma {:induction false} QueuedIsEnabled(listed: seq<Provider>, id: Bytes)
    ensures id in EnabledIds(listed) <==> exists i :: 0 <= i < |listed| && listed[i].enabled && listed[i].meta.id == id
  {
    if listed != [] {
      QueuedIsEnabled(listed[1..], id);
      if id in EnabledIds(listed[1..]) {
        var i :| 0 <= i < |listed[1..]| && listed[1..][i].enabled && listed[1..][i].meta.id == id;
        assert listed[i + 1].enabled && listed[i + 1].meta.id == id;
      }
      assert forall i :: 0 < i < |listed| ==> listed[i] == listed[1..][i - 1];
    }
  }

  /** A Switch that meets no fault shows in every later Get of that provider as the flag it was asked for. */
  lemma SwitchStep(y: Process, s: State, tid: nat, id: Bytes, on: bool, ch: Chance, other: Bytes)
    requires tid !in s.http
    ensures var s' := Next(y, s, HttpStart(tid, Switch(id, on), ch));
      var before, after := GetProvider(y.deps.registry, s.tables.rows, y.deps.fetchers, other, None),
                           GetProvider(y.deps.registry, s'.tables.rows, y.deps.fetchers, other, None);
      && s' == s.(tables := s.tables.(rows := s'.tables.rows))
      && after == (if ch.fault.None? && other == id && before.Ok? then Ok(before.value.(enabled := on)) else before)
  {
    SwitchThenGet(y.deps.registry, s.tables.rows, y.deps.fetchers, id, on, ch.fault, other);
  }

  /**
    A writing step of a PUT: a field that is not to be written any more is left alone; any other is stored, sealed for its
    own row, or the handler gives up and nothing is stored. The cooldown is not touched before everything is written.
  */
  lemma PutStep(y: Process, s: State, tid: nat, ch: Chance)
    requires tid in s.http && s.http[tid].Putting? && s.http[tid].todo != {} && s.http[tid].todo <= s.http[tid].values.Keys
    ensures var pc, s' := s.http[tid], Next(y, s, HttpStep(tid, ch));
      && s'.entries == s.entries && s'.trace == s.trace
      && (ch.field !in pc.todo ==> s' == s)
      && (ch.field in pc.todo ==>
            var sealed := SealField(y.deps.vault, pc.id, ch.field, pc.values[ch.field], ch.write);
            if sealed.Ok? && ch.fault.None? then
              && s'.tables.creds == s.tables.creds[(pc.id, ch.field) := sealed.value]
              && s'.http == s.http[tid := pc.(todo := pc.todo - {ch.field})]
            else s' == s.(http := s.http - {tid}))
  {
  }

  /**
    The deleting step of a DELETE: it ends the handler; unless its statement fails, no field of the provider can be
    revealed any more, whatever the vault; everybody else's credentials are as before.
  */
  lemma DropStep(y: Process, s: State, tid: nat, ch: Chance, v: Vault, k: (Bytes, Bytes))
    requires tid in s.http && s.http[tid].Dropping?
    ensures var s' := Next(y, s, HttpStep(tid, ch));
      && s' == s.(http := s.http - {tid}, tables := s.tables.(creds := s'.tables.creds))
      && (ch.fault.Some? ==> s'.tables.creds == s.tables.creds)
      && (ch.fault.None? && k.0 == s.http[tid].id ==>
            k !in s'.tables.creds && RevealValue(v, s'.tables.creds, k.0, k.1, None) == Err(Wrapped(NotFound)))
      && (k.0 != s.http[tid].id ==>
            GetBlob(s'.tables.creds, k.0, k.1, None) == GetBlob(s.tables.creds, k.0, k.1, None))
  {
  }

  /** On-demand refresh neither reads nor writes the cooldown: it does the same to the rest whatever the entries are. */
  lemma RefreshIgnoresCooldown(y: Process, s: State, tid: nat, ch: Chance, other: Entries)
    requires tid in s.http ==> s.http[tid].Refreshing?
    ensures HttpNext(y, s, tid, ch).entries == s.entries && HttpNext(y, s, tid, ch).trace == s.trace
    ensures HttpNext(y, s.(entries := other), tid, ch) == HttpNext(y, s, tid, ch).(entries := other)
  {
  }

  /** So a successful Collect removes its provider's entry exactly if the scheduler made it. */
  lemma SuccessClearsIffScheduled(y: Process, s: State, who: Runner, ch: Chance)
    requires Running(s, who).Some? && Running(s, who).value.1.Finished? && Running(s, who).value.1.outcome.Ok?
    requires Running(s, who).value.0 in s.entries
    ensures var id, s' := Running(s, who).value.0, Next(y, s, Own(who, ch));
      && Running(s', who).None?
      && (id !in s'.entries <==> who.TheScheduler?)
      && (who.Handler? ==> s'.entries == s.entries)
  {
  }
}
