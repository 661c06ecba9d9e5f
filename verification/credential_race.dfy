/**
  "Setting credentials clears the cooldown, so that the next tick retries at once": when this is true. A Collect may be
  running with the old credentials while they are replaced, and its rejection may be recorded after the clear.
*/
module CredentialRace {
  import opened Basics
  import opened Errors
  import opened Backoff
  import opened Secret
  import opened Cooldown
  import opened Store
  import opened Providers
  import opened Credentials
  import opened Collection
  import opened Scheduling
  import opened Api
  import opened Interleaving
  import opened Schedules

  /** The program refuses any other key size at start. */
  ghost predicate Usable(v: Vault) {
    Ideal(v.g) && |v.key| == KEY_SIZE
  }

  predicate Live(y: Process, id: Bytes) {
    Find(y.deps.registry, id).Some? && id in y.deps.fetchers
  }

  /** A Collect at this point can still end in a rejection: the Fetcher has yet to answer, or has rejected. */
  predicate CanReject(y: Process, id: Bytes, pc: CollectPC) {
    match pc
    case AtGet => Live(y, id)
    case AtReveal(_, _, _) => Live(y, id)
    case AtFetch(_) => Live(y, id)
    case AtStamp(_) => false
    case AtReplace(_, _) => false
    case Finished(outcome) => outcome.Err? && Engages(outcome.error)
  }

  /** The scheduler is inside such a Collect of id. */
  predicate RejectionPossible(y: Process, s: State, id: Bytes) {
    s.sched.Collecting? && s.sched.id == id && CanReject(y, id, s.sched.pc)
  }

  /** A failure of id recorded at or after position c, of a Collect begun before it. */
  ghost predicate StaleFailure(trace: seq<Event>, id: Bytes, c: nat) {
    exists k :: c <= k < |trace| && trace[k].Failed? && trace[k].id == id && trace[k].began < c
  }

  /** These moves, made from s on, record a failure of a Collect of id that was already running in s. */
  ghost predicate EndsStale(y: Process, s: State, moves: seq<Move>, id: Bytes) {
    StaleFailure(Exec(y, s, moves).trace, id, |s.trace|)
  }

  /** The promise: until a Collect of id begins after position c, its gate is open. */
  ghost predicate OpenUntilRetried(s: State, id: Bytes, c: nat) {
    Gated(s.entries, id, s.clock) ==> BeganSince(s.trace, id, c)
  }

  /** The handler of a PUT of id has written everything and is about to clear the cooldown. */
  predicate AboutToClear(s: State, tid: nat, id: Bytes) {
    tid in s.http && s.http[tid].Putting? && s.http[tid].id == id && s.http[tid].todo == {}
  }

  // -------------------------------------------------------------------------------------------------
  // The promise is kept

  /** Nothing begun before position c has failed for id since, and nothing running still can. */
  ghost predicate NoStale(y: Process, s: State, id: Bytes, c: nat) {
    && c <= |s.trace| && !StaleFailure(s.trace, id, c)
    && (RejectionPossible(y, s, id) ==> s.sched.began >= c)
  }

  lemma LoadErrorsNeverEngage(v: Vault, creds: Creds, id: Bytes, field: Bytes, fault: Fault)
    requires LoadField(v, creds, id, field, fault).Err?
    ensures !Engages(LoadField(v, creds, id, field, fault).error)
  {
    LoadErrorStatus(v, creds, id, field, fault);
    var e := LoadField(v, creds, id, field, fault).error;
    IsMatchesRoot(e, Auth);
    var revealed := RevealValue(v, creds, id, field, fault).error;
    assert e.Wrapped? ==> Root(e) == Root(revealed) == Root(revealed.inner);
    if fault.Some? {
      StoreErrorRoot(fault.value);
    }
  }

  lemma CannotRejectStays(y: Process, t: Tables, clock: Time, id: Bytes, pc: CollectPC, ch: Chance)
    requires !CanReject(y, id, pc)
    ensures !CanReject(y, id, CollectStep(y.deps, t, clock, id, pc, ch).1)
  {
    if ch.fault.Some? {
      assert !Is(Other(ch.fault.value), Auth) && !Is(StoreError(ch.fault.value), Auth);
    }
    if pc.AtReveal? && pc.i < |pc.m.fields| {
      var name := pc.m.fields[pc.i].name;
      if LoadField(y.deps.vault, t.creds, pc.m.id, name, ch.fault).Err? {
        LoadErrorsNeverEngage(y.deps.vault, t.creds, pc.m.id, name, ch.fault);
      }
    }
  }

  lemma StepStaysClean(y: Process, s: State, move: Move, id: Bytes, c: nat)
    requires NoStale(y, s, id, c)
    ensures NoStale(y, Next(y, s, move), id, c)
  {
    if move.SchedStep? {
      SchedStaysClean(y, s, move.ch, move.cancelled, id, c);
    } else {
      OthersNeverFail(y, s, move);
      CleanGoesOn(y, s, Next(y, s, move), id, c);
    }
  }

  /** Only the scheduler records failures. */
  lemma OthersNeverFail(y: Process, s: State, move: Move)
    requires !move.SchedStep?
    ensures var s' := Next(y, s, move);
      s'.sched == s.sched && (s'.trace == s.trace || exists e: Event :: !e.Failed? && s'.trace == s.trace + [e])
  {
    var s' := Next(y, s, move);
    if s'.trace != s.trace {
      assert s'.trace == s.trace + [Cleared(s.http[move.tid].id)];
    }
  }

  /** At most one event was added, and it is no failure of a Collect of id from before c. */
  lemma CleanGoesOn(y: Process, s: State, s': State, id: Bytes, c: nat)
    requires NoStale(y, s, id, c)
    requires s'.trace == s.trace
      || exists e: Event :: (e.Failed? && e.id == id ==> e.began >= c) && s'.trace == s.trace + [e]
    requires RejectionPossible(y, s', id) ==> s'.sched.began >= c
    ensures NoStale(y, s', id, c)
  {
    assert forall k :: 0 <= k < |s.trace| ==> s'.trace[k] == s.trace[k];
  }

  lemma SchedStaysClean(y: Process, s: State, ch: Chance, cancelled: bool, id: Bytes, c: nat)
    requires NoStale(y, s, id, c)
    ensures NoStale(y, SchedNext(y, s, ch, cancelled), id, c)
  {
    var s' := SchedNext(y, s, ch, cancelled);
    match s.sched
    case Idle => CleanGoesOn(y, s, s', id, c);
    case Loop(queue) =>
      assert s'.sched.Collecting? ==> s'.trace == s.trace + [Began(queue[0], s.clock)];
      CleanGoesOn(y, s, s', id, c);
    case Collecting(other, rest, began, pc) =>
      if pc.Finished? {
        ConcludeStaysClean(y, s, id, c);
      } else {
        if other == id && !CanReject(y, id, pc) {
          CannotRejectStays(y, s.tables, s.clock, id, pc, ch);
        }
        CleanGoesOn(y, s, s', id, c);
      }
  }

  lemma ConcludeStaysClean(y: Process, s: State, id: Bytes, c: nat)
    requires NoStale(y, s, id, c) && s.sched.Collecting? && s.sched.pc.Finished?
    ensures NoStale(y, Conclude(y, s, s.sched.id, s.sched.rest, s.sched.began, s.sched.pc.outcome), id, c)
  {
    var s' := Conclude(y, s, s.sched.id, s.sched.rest, s.sched.began, s.sched.pc.outcome);
    if s'.trace != s.trace {
      assert s'.trace == s.trace + [s'.trace[|s.trace|]];
    }
    CleanGoesOn(y, s, s', id, c);
  }

  lemma {:induction false} RunStaysClean(y: Process, s: State, moves: seq<Move>, id: Bytes, c: nat)
    requires NoStale(y, s, id, c)
    ensures NoStale(y, Exec(y, s, moves), id, c)
    decreases moves
  {
    if moves != [] {
      StepStaysClean(y, s, moves[0], id, c);
      RunStaysClean(y, Next(y, s, moves[0]), moves[1..], id, c);
    }
  }

  /** Without stale failures the promise holds: an entry made since the clear comes from a Collect begun since. */
  lemma CleanMeansOpen(y: Process, s: State, id: Bytes, c: nat)
    requires Inv(y, s) && NoStale(y, s, id, c)
    requires c >= 1 && s.trace[c - 1] == Cleared(id)
    ensures OpenUntilRetried(s, id, c)
  {
    if Gated(s.entries, id, s.clock) {
      assert EntryTellsHistory(y, s, id);
      if forall k :: c <= k < |s.trace| && s.trace[k].Failed? ==> s.trace[k].id != id {
        NoFailureSince(s.trace, id, c - 1);
        assert false;
      }
      var k :| c <= k < |s.trace| && s.trace[k].Failed? && s.trace[k].id == id;
      assert FailureAccounted(y.limits, s.trace, k);
      assert s.trace[k].began >= c;
    }
  }

  // -------------------------------------------------------------------------------------------------
  // The promise is broken

  /** A handler that writes credentials has found its provider and the provider's row. */
  ghost predicate PutsGrounded(y: Process, s: State) {
    forall t :: t in s.http ==> PutGrounded(y, s.tables.rows, s.http[t])
  }

  predicate PutGrounded(y: Process, rows: Rows, pc: HttpPC) {
    pc.Putting? ==> Find(y.deps.registry, pc.id).Some? && pc.id in rows
  }

  /** A Collect reads the fields its provider declares. */
  predicate RevealGrounded(y: Process, s: State) {
    s.sched.Collecting? && s.sched.pc.AtReveal? ==>
      Find(y.deps.registry, s.sched.id) == Some(s.sched.pc.m) && s.sched.pc.i <= |s.sched.pc.m.fields|
  }

  ghost predicate Grounded(y: Process, s: State) {
    PutsGrounded(y, s) && RevealGrounded(y, s)
  }

  lemma RevealStep(y: Process, t: Tables, clock: Time, id: Bytes, pc: CollectPC, ch: Chance)
    requires pc.AtReveal? ==> Find(y.deps.registry, id) == Some(pc.m) && pc.i <= |pc.m.fields|
    ensures var pc' := CollectStep(y.deps, t, clock, id, pc, ch).1;
      pc'.AtReveal? ==> Find(y.deps.registry, id) == Some(pc'.m) && pc'.i <= |pc'.m.fields|
  {
  }

  lemma StepKeepsReveal(y: Process, s: State, move: Move)
    requires RevealGrounded(y, s)
    ensures RevealGrounded(y, Next(y, s, move))
  {
    if move.SchedStep? {
      SchedKeepsReveal(y, s, move.ch, move.cancelled);
    } else {
      OthersNeverFail(y, s, move);
    }
  }

  lemma SchedKeepsReveal(y: Process, s: State, ch: Chance, cancelled: bool)
    requires RevealGrounded(y, s)
    ensures RevealGrounded(y, SchedNext(y, s, ch, cancelled))
  {
    if s.sched.Collecting? {
      RevealStep(y, s.tables, s.clock, s.sched.id, s.sched.pc, ch);
    }
  }

  lemma RowsStay(y: Process, s: State, move: Move)
    ensures s.tables.rows.Keys <= Next(y, s, move).tables.rows.Keys
  {
  }

  lemma HandlerStaysGrounded(y: Process, s: State, tid: nat, ch: Chance, t: nat)
    requires t in s.http ==> PutGrounded(y, s.tables.rows, s.http[t])
    ensures var s' := HttpNext(y, s, tid, ch);
      t in s'.http ==> PutGrounded(y, s.tables.rows, s'.http[t])
  {
  }

  lemma NewHandlerGrounded(y: Process, s: State, tid: nat, request: Request, ch: Chance, t: nat)
    requires t in s.http ==> PutGrounded(y, s.tables.rows, s.http[t])
    ensures var s' := HttpBegin(y, s, tid, request, ch);
      t in s'.http ==> PutGrounded(y, s.tables.rows, s'.http[t])
  {
  }

  lemma MoreRowsStayGrounded(y: Process, rows: Rows, rows': Rows, pc: HttpPC)
    requires PutGrounded(y, rows, pc) && rows.Keys <= rows'.Keys
    ensures PutGrounded(y, rows', pc)
  {
  }

  lemma StepKeepsPut(y: Process, s: State, move: Move, t: nat)
    requires t in s.http ==> PutGrounded(y, s.tables.rows, s.http[t])
    ensures var s' := Next(y, s, move);
      t in s'.http ==> PutGrounded(y, s'.tables.rows, s'.http[t])
  {
    RowsStay(y, s, move);
    if move.HttpStart? {
      NewHandlerGrounded(y, s, move.tid, move.request, move.ch, t);
    } else if move.HttpStep? {
      HandlerStaysGrounded(y, s, move.tid, move.ch, t);
    }
    var s' := Next(y, s, move);
    if t in s'.http {
      assert PutGrounded(y, s.tables.rows, s'.http[t]);
      MoreRowsStayGrounded(y, s.tables.rows, s'.tables.rows, s'.http[t]);
    }
  }

  lemma StepStaysGrounded(y: Process, s: State, move: Move)
    requires Grounded(y, s)
    ensures Grounded(y, Next(y, s, move))
  {
    StepKeepsReveal(y, s, move);
    var s' := Next(y, s, move);
    forall t | t in s'.http
      ensures PutGrounded(y, s'.tables.rows, s'.http[t])
    {
      StepKeepsPut(y, s, move, t);
    }
  }

  lemma {:induction false} RunStaysGrounded(y: Process, s: State, moves: seq<Move>)
    requires Grounded(y, s)
    ensures Grounded(y, Exec(y, s, moves))
    decreases moves
  {
    if moves != [] {
      StepStaysGrounded(y, s, moves[0]);
      RunStaysGrounded(y, Next(y, s, moves[0]), moves[1..]);
    }
  }

  /** From s to s' a failure of a Collect begun at `began` was recorded, no other Collect began, and id is gated now. */
  ghost predicate Recorded(y: Process, s: State, s': State, id: Bytes, began: nat) {
    && s.trace < s'.trace
    && (var last := s'.trace[|s'.trace| - 1]; last.Failed? && last.id == id && last.began == began)
    && !BeganSince(s'.trace, id, |s.trace|)
    && (y.limits.max > 0 ==> Gated(s'.entries, id, s'.clock))
  }

  /** Preparations: the running Collect and the clock are as before, and at most credentials were set. */
  ghost predicate Prepared(s: State, s': State, id: Bytes) {
    && s'.sched == s.sched && s'.clock == s.clock
    && (s'.trace == s.trace || s'.trace == s.trace + [Cleared(id)])
  }

  lemma PreparedThenRecorded(y: Process, s: State, s1: State, s': State, id: Bytes, began: nat)
    requires Prepared(s, s1, id) && Recorded(y, s1, s', id, began)
    ensures Recorded(y, s, s', id, began)
  {
    assert s'.trace[..|s1.trace|] == s1.trace;
  }

  /** A rejection that has been returned is recorded in the next step. */
  lemma RejectionIsRecorded(y: Process, s: State) returns (moves: seq<Move>)
    requires s.sched.Collecting? && s.sched.pc.Finished? && CanReject(y, s.sched.id, s.sched.pc)
    ensures Recorded(y, s, Exec(y, s, moves), s.sched.id, s.sched.began)
  {
    moves := [Pass(false)];
    ExecOne(y, s, moves[0]);
  }

  /** Everything works until the Fetcher is called, and the Fetcher rejects. */
  function RejectedAt(now: Time): CollectEnv {
    CollectEnv(None, i => None, Err(Auth), now, None)
  }

  lemma WrappedAuthEngages()
    ensures Engages(Wrapped(Auth))
  {
    assert Is(Auth, Auth) && !Is(Auth, FetcherNotFound);
  }

  /** The Fetcher of a live provider has been chosen to reject: the rejection is returned, then recorded. */
  lemma FinishRejected(y: Process, s: State, middle: seq<Move>) returns (moves: seq<Move>)
    requires s.sched.Collecting?
    requires Exec(y, s, middle) == s.(sched := s.sched.(pc := Finished(Err(Wrapped(Auth)))))
    ensures Recorded(y, s, Exec(y, s, moves), s.sched.id, s.sched.began)
  {
    WrappedAuthEngages();
    var s1 := Exec(y, s, middle);
    var last := RejectionIsRecorded(y, s1);
    ExecAppend(y, s, middle, last);
    moves := middle + last;
  }

  lemma FetchRejected(y: Process, s: State) returns (moves: seq<Move>)
    requires s.sched.Collecting? && s.sched.pc.AtFetch? && Live(y, s.sched.id)
    ensures Recorded(y, s, Exec(y, s, moves), s.sched.id, s.sched.began)
  {
    var middle := FinishUndisturbed(y, s, TheScheduler, RejectedAt(s.clock));
    moves := FinishRejected(y, s, middle);
  }

  /** Every field m declares can be read. */
  ghost predicate AllReadable(v: Vault, creds: Creds, m: Metadata) {
    forall i :: 0 <= i < |m.fields| ==> LoadField(v, creds, m.id, m.fields[i].name, None).Ok?
  }

  lemma {:induction false} ReadableLoads(v: Vault, creds: Creds, m: Metadata, i: nat, acc: map<Bytes, Bytes>, secret: nat -> Fault)
    requires AllReadable(v, creds, m) && i <= |m.fields| && forall j :: secret(j).None?
    ensures LoadFrom(v, creds, m.id, m.fields, i, acc, secret).Ok?
    decreases |m.fields| - i
  {
    if i < |m.fields| {
      var value := LoadField(v, creds, m.id, m.fields[i].name, None).value;
      ReadableLoads(v, creds, m, i + 1, acc[m.fields[i].name := value], secret);
    }
  }

  lemma LoadingRejected(y: Process, s: State) returns (moves: seq<Move>)
    requires s.sched.Collecting? && s.sched.pc.AtReveal? && Live(y, s.sched.id) && RevealGrounded(y, s)
    requires AllReadable(y.deps.vault, s.tables.creds, s.sched.pc.m)
    ensures Recorded(y, s, Exec(y, s, moves), s.sched.id, s.sched.began)
  {
    var pc, env := s.sched.pc, RejectedAt(s.clock);
    ReadableLoads(y.deps.vault, s.tables.creds, pc.m, pc.i, pc.creds, env.secret);
    var middle := LoadUndisturbed(y, s, TheScheduler, env);
    moves := FinishRejected(y, s, middle);
  }

  lemma CollectRejected(y: Process, s: State) returns (moves: seq<Move>)
    requires s.sched.Collecting? && s.sched.pc.AtGet? && Live(y, s.sched.id) && EnabledIn(s.tables.rows, s.sched.id)
    requires AllReadable(y.deps.vault, s.tables.creds, Find(y.deps.registry, s.sched.id).value)
    ensures Recorded(y, s, Exec(y, s, moves), s.sched.id, s.sched.began)
  {
    var m, env := Find(y.deps.registry, s.sched.id).value, RejectedAt(s.clock);
    ReadableLoads(y.deps.vault, s.tables.creds, m, 0, map[], env.secret);
    var middle := CollectUndisturbed(y, s, TheScheduler, env);
    moves := FinishRejected(y, s, middle);
  }

  /** Nothing fails while fields are written. */
  const SMOOTH := WriteEnv(f => Ok([0, 0, 0, 0, 0, 0, 0, 0, 0, 0, 0, 0]), f => None)

  /** What was sealed and stored without a failure can be read. */
  lemma SealedIsReadable(v: Vault, creds: Creds, m: Metadata, values: map<Bytes, Bytes>)
    requires Usable(v) && values.Keys == FieldNames(m.fields)
    ensures AllReadable(v, Sealed(v, creds, m.id, values, values.Keys, SMOOTH), m)
  {
    var creds' := Sealed(v, creds, m.id, values, values.Keys, SMOOTH);
    forall i | 0 <= i < |m.fields|
      ensures LoadField(v, creds', m.id, m.fields[i].name, None).Ok?
    {
      var f := m.fields[i].name;
      assert f in values && (m.id, f) in creds';
      OpenSealed(v.g, v.key, SMOOTH.draw(f).value, values[f], AAD(m.id, f));
    }
  }

  /** A further PUT, undisturbed, makes every declared field of id readable. */
  lemma MakeReadable(y: Process, s: State, tid: nat, id: Bytes) returns (moves: seq<Move>)
    requires Usable(y.deps.vault)
    requires tid !in s.http && Find(y.deps.registry, id).Some? && id in s.tables.rows
    ensures var s' := Exec(y, s, moves);
      && Prepared(s, s', id) && s'.tables.rows == s.tables.rows
      && AllReadable(y.deps.vault, s'.tables.creds, Find(y.deps.registry, id).value)
  {
    var v, m := y.deps.vault, Find(y.deps.registry, id).value;
    var values := map f | f in FieldNames(m.fields) :: [];
    var order := Listing(values.Keys);
    moves := PutIsASchedule(y, s, tid, id, values, None, order, SMOOTH);
    SmoothSet(y.deps, s.tables.rows, s.tables.creds, id, m, values, order);
  }

  lemma SmoothSet(
    d: Deps, rows: Rows, creds: Creds, id: Bytes, m: Metadata, values: map<Bytes, Bytes>, order: seq<Bytes>)
    requires Usable(d.vault) && Find(d.registry, id) == Some(m) && id in rows
    requires values.Keys == FieldNames(m.fields) && IterationOrder(order, values)
    ensures var (creds', err) := CredentialsSet(d, rows, creds, id, values, None, order, SMOOTH);
      err.None? && AllReadable(d.vault, creds', m)
  {
    NamesAgree(m.fields);
    SmoothWrites(d.vault, creds, m, values, order);
  }

  lemma SmoothWrites(v: Vault, creds: Creds, m: Metadata, values: map<Bytes, Bytes>, order: seq<Bytes>)
    requires Usable(v) && values.Keys == FieldNames(m.fields) && IterationOrder(order, values)
    ensures var (creds', err) := WriteFields(v, creds, m.id, values, order, SMOOTH);
      err.None? && AllReadable(v, creds', m)
  {
    WriteFailsIff(v, creds, m.id, values, order, SMOOTH);
    WriteFieldsUnordered(v, creds, m.id, values, order, SMOOTH);
    assert Elements(order) == values.Keys;
    SealedIsReadable(v, creds, m, values);
  }

  /** From wherever the Collect stands: enable the provider, set its credentials, and let the Fetcher reject. */
  lemma StaleFailureReachable(y: Process, s: State, tid: nat, id: Bytes) returns (moves: seq<Move>)
    requires Usable(y.deps.vault)
    requires RejectionPossible(y, s, id) && RevealGrounded(y, s) && tid !in s.http && id in s.tables.rows
    ensures Recorded(y, s, Exec(y, s, moves), id, s.sched.began)
  {
    match s.sched.pc
    case Finished(_) => moves := RejectionIsRecorded(y, s);
    case AtFetch(_) => moves := FetchRejected(y, s);
    case AtReveal(_, _, _) =>
      var put := MakeReadable(y, s, tid, id);
      var s1 := Exec(y, s, put);
      var rest := LoadingRejected(y, s1);
      moves := put + rest;
      ExecAppend(y, s, put, rest);
      PreparedThenRecorded(y, s, s1, Exec(y, s1, rest), id, s.sched.began);
    case AtGet =>
      var enable := HttpStart(tid, Switch(id, true), Chance(None, Err(Other(0)), [], SMOOTH));
      var s1 := Next(y, s, enable);
      var put := MakeReadable(y, s1, tid, id);
      var s2 := Exec(y, s1, put);
      var rest := CollectRejected(y, s2);
      moves := [enable] + (put + rest);
      assert moves[1..] == put + rest;
      ExecAppend(y, s1, put, rest);
      PreparedThenRecorded(y, s1, s2, Exec(y, s2, rest), id, s.sched.began);
  }

  // -------------------------------------------------------------------------------------------------
  // Exactly when

  /**
    The state s in which a handler is about to clear the cooldown decides: a failure of the old Collect can be recorded
    after the clear if and only if the scheduler is then inside a Collect of this provider that can still be rejected.
  */
  lemma StaleFailureIff(y: Process, s0: State, before: seq<Move>, tid: nat, id: Bytes, ch: Chance)
    requires Initial(s0) && Usable(y.deps.vault)
    requires AboutToClear(Exec(y, s0, before), tid, id)
    ensures var s := Exec(y, s0, before);
      var s1 := Next(y, s, HttpStep(tid, ch));
      (exists moves :: EndsStale(y, s1, moves, id)) <==> RejectionPossible(y, s, id)
  {
    var s := Exec(y, s0, before);
    var s1 := Next(y, s, HttpStep(tid, ch));
    if RejectionPossible(y, s, id) {
      var moves := RecordStale(y, s0, before, tid, id, ch);
      StaleAtEnd(y, s1, Exec(y, s1, moves), id, s.sched.began);
      assert EndsStale(y, s1, moves, id);
    } else {
      forall moves
        ensures !EndsStale(y, s1, moves, id)
      {
        RunStaysClean(y, s1, moves, id, |s1.trace|);
      }
    }
  }

  lemma StaleAtEnd(y: Process, s1: State, s': State, id: Bytes, began: nat)
    requires Recorded(y, s1, s', id, began) && began < |s1.trace|
    ensures StaleFailure(s'.trace, id, |s1.trace|)
  {
    assert s'.trace[|s'.trace| - 1].Failed?;
  }

  lemma RecordStale(y: Process, s0: State, before: seq<Move>, tid: nat, id: Bytes, ch: Chance) returns (moves: seq<Move>)
    requires Initial(s0) && Usable(y.deps.vault)
    requires AboutToClear(Exec(y, s0, before), tid, id) && RejectionPossible(y, Exec(y, s0, before), id)
    ensures var s := Exec(y, s0, before);
      var s1 := Next(y, s, HttpStep(tid, ch));
      s.sched.began < |s1.trace| && Recorded(y, s1, Exec(y, s1, moves), id, s.sched.began)
  {
    var s := Exec(y, s0, before);
    InvHolds(y, s0, before);
    RunStaysGrounded(y, s0, before);
    StepStaysGrounded(y, s, HttpStep(tid, ch));
    moves := StaleFailureReachable(y, Next(y, s, HttpStep(tid, ch)), tid, id);
  }

  /**
    Exactly when a credential set lets the next tick retry at once: no continuation finds the provider gated before it
    is collected again if and only if no Collect of it was underway that could still be rejected.
  */
  lemma RetryAtOnceIff(y: Process, s0: State, before: seq<Move>, tid: nat, id: Bytes, ch: Chance)
    requires Initial(s0) && Usable(y.deps.vault) && y.limits.max > 0
    requires AboutToClear(Exec(y, s0, before), tid, id)
    ensures var s := Exec(y, s0, before);
      var s1 := Next(y, s, HttpStep(tid, ch));
      (forall moves :: OpenUntilRetried(Exec(y, s1, moves), id, |s1.trace|)) <==> !RejectionPossible(y, s, id)
  {
    var s := Exec(y, s0, before);
    var s1 := Next(y, s, HttpStep(tid, ch));
    if RejectionPossible(y, s, id) {
      var moves := RecordStale(y, s0, before, tid, id, ch);
      assert !OpenUntilRetried(Exec(y, s1, moves), id, |s1.trace|);
    } else {
      forall moves
        ensures OpenUntilRetried(Exec(y, s1, moves), id, |s1.trace|)
      {
        OpenAfterClear(y, s0, before, tid, id, ch, moves);
      }
    }
  }

  lemma OpenAfterClear(y: Process, s0: State, before: seq<Move>, tid: nat, id: Bytes, ch: Chance, moves: seq<Move>)
    requires Initial(s0) && AboutToClear(Exec(y, s0, before), tid, id)
    requires !RejectionPossible(y, Exec(y, s0, before), id)
    ensures var s1 := Next(y, Exec(y, s0, before), HttpStep(tid, ch));
      OpenUntilRetried(Exec(y, s1, moves), id, |s1.trace|)
  {
    var s := Exec(y, s0, before);
    var s1 := Next(y, s, HttpStep(tid, ch));
    var c := |s1.trace|;
    InvHolds(y, s0, before);
    StepKeepsInv(y, s, HttpStep(tid, ch));
    RunKeepsInv(y, s1, moves);
    RunStaysClean(y, s1, moves, id, c);
    TraceOnlyGrows(y, s1, moves);
    assert Exec(y, s1, moves).trace[c - 1] == s1.trace[c - 1];
    CleanMeansOpen(y, Exec(y, s1, moves), id, c);
  }

  /**
    The documented sentence, then: after such a set the next tick that lists the provider as enabled collects it, unless
    a Collect of it has begun in between, whatever handlers do before and during that tick.
  */
  lemma NextTickRetries(
    y: Process, s0: State, before: seq<Move>, tid: nat, id: Bytes, ch: Chance, between: seq<Move>, tick: seq<Move>)
    requires Initial(s0) && AboutToClear(Exec(y, s0, before), tid, id)
    requires !RejectionPossible(y, Exec(y, s0, before), id)
    requires var s2 := Exec(y, Next(y, Exec(y, s0, before), HttpStep(tid, ch)), between);
      s2.sched.Idle? && ListsEnabled(y, s2, tick, id) && Uncancelled(tick) && Exec(y, s2, tick).sched.Idle?
    ensures var s1 := Next(y, Exec(y, s0, before), HttpStep(tid, ch));
      BeganSince(Exec(y, Exec(y, s1, between), tick).trace, id, |s1.trace|)
  {
    var s1 := Next(y, Exec(y, s0, before), HttpStep(tid, ch));
    var s2 := Exec(y, s1, between);
    OpenAfterClear(y, s0, before, tid, id, ch, between);
    TraceOnlyGrows(y, s1, between);
    TraceOnlyGrows(y, s2, tick);
    if !Gated(s2.entries, id, s2.clock) {
      OpenGateIsUsed(y, s2, tick, id);
    }
  }

  // -------------------------------------------------------------------------------------------------
  // The race, step by step

  /** One provider with one credential field, enabled and with a Fetcher; the shipped durations. */
  const KEYED := Metadata([1], [], [CredentialField([2], [], true)])

  function Race(v: Vault): Process {
    Process(Deps([KEYED], map[[1] := Fetcher(KEYED)], v), Limits(DEFAULT_BASE, DEFAULT_MAX))
  }

  /** The store works, the Fetcher rejects whatever it is called with, and a writing handler turns to the field. */
  function Rejecting(): Chance {
    Chance(None, Err(Auth), [2], SMOOTH)
  }

  function Poll(): Move {
    SchedStep(Rejecting(), false)
  }

  /** The table with the provider's one field set to this value. */
  function Holding(v: Vault, value: Bytes): Creds {
    map[([1], [2]) := BlobOrEmpty(SealField(v, [1], [2], value, SMOOTH))]
  }

  function RaceTables(v: Vault, value: Bytes): Tables {
    Tables(map[[1] := true], Holding(v, value), map[])
  }

  lemma HoldingReveals(v: Vault, value: Bytes)
    requires Usable(v)
    ensures RevealValue(v, Holding(v, value), [1], [2], None) == Ok(value)
  {
    OpenSealed(v.g, v.key, SMOOTH.draw([2]).value, value, AAD([1], [2]));
  }

  /** The scheduler lists and passes the gate. */
  lemma RaceGate(v: Vault, s: State)
    requires s.tables.rows == map[[1] := true] && s.entries == map[] && s.sched == Idle && s.trace == []
    ensures Exec(Race(v), s, [Poll(), Poll()])
      == s.(sched := Collecting([1], [], 0, AtGet), trace := [Began([1], s.clock)])
  {
    var listed := MergedList(Race(v).deps.registry, s.tables.rows, Race(v).deps.fetchers);
    assert listed == [Provider(KEYED, true, true)];
    assert EnabledIds(listed[1..]) == [];
    assert Next(Race(v), s, Poll()) == s.(sched := Loop([[1]]));
    ExecTwo(Race(v), s, Poll(), Poll());
  }

  /** It finds the provider enabled. */
  lemma RaceGet(v: Vault, s: State)
    requires s.tables.rows == map[[1] := true] && s.sched == Collecting([1], [], 0, AtGet)
    ensures Next(Race(v), s, Poll()) == s.(sched := Collecting([1], [], 0, AtReveal(KEYED, 0, map[])))
  {
    assert Find(Race(v).deps.registry, [1]) == Some(KEYED);
  }

  /** It reveals the provider's one field. */
  lemma RaceReveal(v: Vault, s: State, value: Bytes)
    requires Usable(v) && s.tables == RaceTables(v, value) && s.sched == Collecting([1], [], 0, AtReveal(KEYED, 0, map[]))
    ensures Exec(Race(v), s, [Poll(), Poll()]) == s.(sched := Collecting([1], [], 0, AtFetch(map[[2] := value])))
  {
    HoldingReveals(v, value);
    assert LoadField(v, s.tables.creds, [1], [2], None) == Ok(value);
    assert map[][[2] := value] == map[[2] := value];
    assert Next(Race(v), s, Poll()) == s.(sched := Collecting([1], [], 0, AtReveal(KEYED, 1, map[[2] := value])));
    ExecTwo(Race(v), s, Poll(), Poll());
  }

  function RacePut(value: Bytes): Move {
    HttpStart(0, Put([1], map[[2] := value]), Rejecting())
  }

  function RaceWrite(): Move {
    HttpStep(0, Rejecting())
  }

  /** A handler is about to write the field. */
  lemma RaceStartsPut(v: Vault, s: State, value: Bytes)
    requires s.tables.rows == map[[1] := true] && s.http == map[]
    ensures Next(Race(v), s, RacePut(value)) == s.(http := map[0 := Putting([1], map[[2] := value], {[2]})])
  {
    var values: map<Bytes, Bytes> := map[[2] := value];
    NamesAgree(KEYED.fields);
    assert FieldNames(KEYED.fields) == {KEYED.fields[0].name} == values.Keys;
    assert Find(Race(v).deps.registry, [1]) == Some(KEYED);
  }

  /** It writes a new value. */
  lemma RaceWrites(v: Vault, s: State, before: Bytes, value: Bytes)
    requires Usable(v) && s.tables == RaceTables(v, before) && s.http == map[0 := Putting([1], map[[2] := value], {[2]})]
    ensures Next(Race(v), s, RaceWrite())
      == s.(tables := RaceTables(v, value), http := map[0 := Putting([1], map[[2] := value], {})])
  {
    var values: map<Bytes, Bytes> := map[[2] := value];
    HoldingReplaced(v, before, value);
    WriteStep(Race(v), s, 0, [1], values, {[2]}, Rejecting());
    assert {[2]} - {[2]} == {};
    assert s.http[0 := Putting([1], values, {})] == map[0 := Putting([1], values, {})];
  }

  lemma HoldingReplaced(v: Vault, before: Bytes, value: Bytes)
    requires |v.key| == KEY_SIZE
    ensures var blob := SealField(v, [1], [2], value, SMOOTH);
      blob.Ok? && Holding(v, before)[([1], [2]) := blob.value] == Holding(v, value)
  {
  }

  lemma WriteStep(y: Process, s: State, tid: nat, id: Bytes, values: map<Bytes, Bytes>, todo: set<Bytes>, ch: Chance)
    requires tid in s.http && s.http[tid] == Putting(id, values, todo) && ch.field in todo && ch.field in values
    requires ch.fault.None? && SealField(y.deps.vault, id, ch.field, values[ch.field], ch.write).Ok?
    ensures var blob := SealField(y.deps.vault, id, ch.field, values[ch.field], ch.write).value;
      Next(y, s, HttpStep(tid, ch))
        == s.(tables := s.tables.(creds := s.tables.creds[(id, ch.field) := blob]),
              http := s.http[tid := Putting(id, values, todo - {ch.field})])
  {
  }

  /** It clears the cooldown. */
  lemma RaceClears(v: Vault, s: State, value: Bytes)
    requires s.entries == map[] && s.http == map[0 := Putting([1], map[[2] := value], {})]
    ensures Next(Race(v), s, RaceWrite()) == s.(http := map[], trace := s.trace + [Cleared([1])])
  {
    assert s.http - {0} == map[] && s.entries - {[1]} == map[];
  }

  lemma RacePuts(v: Vault, s: State, before: Bytes, value: Bytes)
    requires Usable(v) && s.tables == RaceTables(v, before) && s.entries == map[] && s.http == map[]
    ensures Exec(Race(v), s, [RacePut(value)] + [RaceWrite(), RaceWrite()])
      == s.(tables := RaceTables(v, value), trace := s.trace + [Cleared([1])])
  {
    RaceStartsPut(v, s, value);
    var s1 := Next(Race(v), s, RacePut(value));
    RaceWrites(v, s1, before, value);
    RaceClears(v, Next(Race(v), s1, RaceWrite()), value);
    ExecTwo(Race(v), s1, RaceWrite(), RaceWrite());
    ExecOne(Race(v), s, RacePut(value));
    ExecAppend(Race(v), s, [RacePut(value)], [RaceWrite(), RaceWrite()]);
  }

  /** The Fetcher rejects the credentials it was called with, and the rejection is recorded. */
  lemma RaceReject(v: Vault, s: State, creds: map<Bytes, Bytes>)
    requires s.sched == Collecting([1], [], 0, AtFetch(creds)) && s.entries == map[]
    ensures var s' := Exec(Race(v), s, [Poll(), Poll()]);
      && s'.trace == s.trace + [Failed([1], s.clock, 1, s.clock + DEFAULT_BASE, 0)]
      && Gated(s'.entries, [1], s'.clock) && s'.clock == s.clock
      && s'.tables == s.tables && s'.http == s.http
  {
    var rejected := s.(sched := Collecting([1], [], 0, Finished(Err(Wrapped(Auth)))));
    RaceFetches(v, s, creds);
    RaceConcludes(v, rejected);
    ExecTwo(Race(v), s, Poll(), Poll());
  }

  lemma RaceFetches(v: Vault, s: State, creds: map<Bytes, Bytes>)
    requires s.sched == Collecting([1], [], 0, AtFetch(creds))
    ensures Next(Race(v), s, Poll()) == s.(sched := Collecting([1], [], 0, Finished(Err(Wrapped(Auth)))))
  {
    assert Find(Race(v).deps.registry, [1]) == Some(KEYED);
  }

  lemma RaceConcludes(v: Vault, s: State)
    requires s.sched == Collecting([1], [], 0, Finished(Err(Wrapped(Auth)))) && s.entries == map[]
    ensures var s' := Next(Race(v), s, Poll());
      && s'.trace == s.trace + [Failed([1], s.clock, 1, s.clock + DEFAULT_BASE, 0)]
      && Gated(s'.entries, [1], s'.clock) && s'.clock == s.clock
      && s'.tables == s.tables && s'.http == s.http
  {
    WrappedAuthEngages();
    assert Pow2(0) == 1;
  }

  /**
    One such run: the scheduler has revealed the old value [3] and is calling the Fetcher with it, a PUT replaces it by
    [4] and clears the cooldown, and then the rejection of [3] gates the provider, which holds [4], for 5 minutes.
  */
  lemma StaleFailureWitness(v: Vault) returns (s0: State, polls: seq<Move>, puts: seq<Move>, rejects: seq<Move>)
    requires Usable(v)
    ensures Initial(s0)
    ensures var s1 := Exec(Race(v), s0, polls);
      && RevealValue(v, s1.tables.creds, [1], [2], None) == Ok([3])
      && s1.sched == Collecting([1], [], 0, AtFetch(map[[2] := [3]]))
      && var s2 := Exec(Race(v), s1, puts);
      && s2.trace == [Began([1], 0), Cleared([1])]
      && RevealValue(v, s2.tables.creds, [1], [2], None) == Ok([4])
      && s2.sched == Collecting([1], [], 0, AtFetch(map[[2] := [3]]))
      && var s3 := Exec(Race(v), s2, rejects);
      && s3.trace == s2.trace + [Failed([1], 0, 1, DEFAULT_BASE, 0)]
      && Gated(s3.entries, [1], s3.clock) && s3.clock == 0
      && s3.tables == RaceTables(v, [4]) && s3.http == map[]
  {
    s0 := State(RaceTables(v, [3]), map[], 0, Idle, map[], []);
    HoldingReveals(v, [3]);
    HoldingReveals(v, [4]);
    RaceGate(v, s0);
    var s := Exec(Race(v), s0, [Poll(), Poll()]);
    RaceGet(v, s);
    ExecOne(Race(v), s, Poll());
    RaceReveal(v, Next(Race(v), s, Poll()), [3]);
    ExecAppend(Race(v), s, [Poll()], [Poll(), Poll()]);
    ExecAppend(Race(v), s0, [Poll(), Poll()], [Poll()] + [Poll(), Poll()]);
    polls := [Poll(), Poll()] + ([Poll()] + [Poll(), Poll()]);
    var s1 := Exec(Race(v), s0, polls);
    RacePuts(v, s1, [3], [4]);
    puts := [RacePut([4])] + [RaceWrite(), RaceWrite()];
    var s2 := Exec(Race(v), s1, puts);
    RaceReject(v, s2, map[[2] := [3]]);
    rejects := [Poll(), Poll()];
  }

  /**
    A successful collection need not clear the cooldown: in the state that run ends in, with provider [1] gated, an
    on-demand refresh succeeds and stores what the Fetcher returned, and the provider stays gated.
  */
  lemma RefreshedStillGatedWitness(v: Vault) returns (s0: State, before: seq<Move>, refresh: seq<Move>)
    requires Usable(v)
    ensures Initial(s0)
    ensures var s := Exec(Race(v), s0, before);
      && Gated(s.entries, [1], s.clock) && s.tables.snaps == map[]
      && var s' := Exec(Race(v), s, refresh);
      && s'.tables.snaps == map[[1] := Snapshot([1], [], 0, None)]
      && Gated(s'.entries, [1], s'.clock) && s'.entries == s.entries
  {
    var polls, puts, rejects;
    s0, polls, puts, rejects := StaleFailureWitness(v);
    before := (polls + puts) + rejects;
    ExecAppend(Race(v), s0, polls, puts);
    ExecAppend(Race(v), s0, polls + puts, rejects);
    var s := Exec(Race(v), s0, before);
    var env := CollectEnv(None, i => None, Ok([]), 0, None);
    RaceCollects(v, s.tables, env);
    refresh := RefreshIsASchedule(Race(v), s, 0, [1], env);
  }

  lemma RaceCollects(v: Vault, t: Tables, env: CollectEnv)
    requires Usable(v) && t == RaceTables(v, [4])
    requires env.get.None? && env.fetch == Ok([]) && env.now == 0 && env.replace.None? && forall i :: env.secret(i).None?
    ensures CollectCycle(Race(v).deps, t, [1], env).snaps == map[[1] := Snapshot([1], [], 0, None)]
  {
    HoldingReveals(v, [4]);
    assert Find(Race(v).deps.registry, [1]) == Some(KEYED);
    assert KEYED.fields[0].name == [2];
    assert AllReadable(v, t.creds, KEYED);
    ReadableLoads(v, t.creds, KEYED, 0, map[], env.secret);
    assert ToStoreMetrics([]) == [];
  }
}
