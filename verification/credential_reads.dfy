/**
  Credentials while they are read and written concurrently: stored values stay readable, and what a Fetcher is called with
  was stored while its Collect was running.
*/
module CredentialReads {
  import opened Basics
  import opened Errors
  import opened Store
  import opened Providers
  import opened Credentials
  import opened Collection
  import opened Interleaving

  // -------------------------------------------------------------------------------------------------
  // Readability

  lemma HandlerKeepsReadable(y: Process, s: State, tid: nat, ch: Chance)
    requires Readable(y.deps.vault, s.tables.creds)
    ensures Readable(y.deps.vault, HttpNext(y, s, tid, ch).tables.creds)
  {
    if tid in s.http && s.http[tid].Putting? {
      var pc := s.http[tid];
      if ch.field in pc.values && SealField(y.deps.vault, pc.id, ch.field, pc.values[ch.field], ch.write).Ok? {
        PutField(y.deps.vault, s.tables.creds, pc.id, ch.field, pc.values[ch.field], ch.write);
      }
    } else if tid in s.http && s.http[tid].Dropping? {
      DeleteRefines(y.deps.vault, s.tables.creds, s.http[tid].id);
    }
  }

  /** Only a handler's own steps write credentials. */
  lemma OthersKeepCredentials(y: Process, s: State, move: Move)
    requires !move.HttpStep?
    ensures Next(y, s, move).tables.creds == s.tables.creds
  {
  }

  /** No step of anybody leaves a row that cannot be opened where it is stored. */
  lemma StepKeepsReadable(y: Process, s: State, move: Move)
    requires Readable(y.deps.vault, s.tables.creds)
    ensures Readable(y.deps.vault, Next(y, s, move).tables.creds)
  {
    if move.HttpStep? {
      HandlerKeepsReadable(y, s, move.tid, move.ch);
    } else {
      OthersKeepCredentials(y, s, move);
    }
  }

  lemma {:induction false} RunKeepsReadable(y: Process, s: State, moves: seq<Move>)
    requires Readable(y.deps.vault, s.tables.creds)
    ensures Readable(y.deps.vault, Exec(y, s, moves).tables.creds)
    decreases moves
  {
    if moves != [] {
      StepKeepsReadable(y, s, moves[0]);
      RunKeepsReadable(y, Next(y, s, moves[0]), moves[1..]);
    }
  }

  // -------------------------------------------------------------------------------------------------
  // What a Fetcher is called with

  /** The state after the first k moves of a run. */
  function At(y: Process, s0: State, moves: seq<Move>, k: nat): State
    requires k <= |moves|
  {
    Exec(y, s0, moves[..k])
  }

  /** This is the plaintext stored for the field: what is stored there opens to it. */
  predicate Holds(v: Vault, creds: Creds, id: Bytes, field: Bytes, value: Bytes) {
    RevealValue(v, creds, id, field, None) == Ok(value)
  }

  /** From the moment b on, at which it began, `who` has been in one Collect of id. */
  ghost predicate CollectingSince(y: Process, s0: State, moves: seq<Move>, who: Runner, id: Bytes, b: nat) {
    && b <= |moves| && Running(At(y, s0, moves, b), who) == Some((id, AtGet))
    && forall k :: b <= k <= |moves| ==> RunningFor(At(y, s0, moves, k), who, id)
  }

  predicate RunningFor(s: State, who: Runner, id: Bytes) {
    Running(s, who).Some? && Running(s, who).value.0 == id
  }

  /** The value was the field's stored plaintext at some moment from b on. */
  ghost predicate HeldSince(y: Process, s0: State, moves: seq<Move>, id: Bytes, field: Bytes, value: Bytes, b: nat) {
    exists k :: b <= k <= |moves| && HeldAt(y, s0, moves, k, id, field, value)
  }

  ghost predicate HeldAt(y: Process, s0: State, moves: seq<Move>, k: nat, id: Bytes, field: Bytes, value: Bytes)
    requires k <= |moves|
  {
    Holds(y.deps.vault, At(y, s0, moves, k).tables.creds, id, field, value)
  }

  ghost predicate AllHeldSince(y: Process, s0: State, moves: seq<Move>, id: Bytes, creds: map<Bytes, Bytes>, b: nat) {
    forall f :: f in creds ==> HeldSince(y, s0, moves, id, f, creds[f], b)
  }

  /** How far the credentials of a Collect have been read, and where from. */
  ghost predicate ReadSoFar(y: Process, s0: State, moves: seq<Move>, id: Bytes, pc: CollectPC, b: nat) {
    match pc
    case AtReveal(m, i, creds) =>
      && Find(y.deps.registry, id) == Some(m) && i <= |m.fields|
      && creds.Keys == FieldNames(m.fields[..i]) && AllHeldSince(y, s0, moves, id, creds, b)
    case AtFetch(creds) =>
      && Find(y.deps.registry, id).Some?
      && creds.Keys == FieldNames(Find(y.deps.registry, id).value.fields) && AllHeldSince(y, s0, moves, id, creds, b)
    case _ => true
  }

  /** A Collect begins with AtGet, takes a step of the cycle, or is left alone. */
  predicate Follows(y: Process, s: State, r: Option<(Bytes, CollectPC)>, ch: Chance, r': (Bytes, CollectPC)) {
    || (r.None? && r'.1 == AtGet)
    || (r.Some? && r'.0 == r.value.0
        && (r'.1 == r.value.1 || r'.1 == CollectStep(y.deps, s.tables, s.clock, r'.0, r.value.1, ch).1))
  }

  lemma SchedFollows(y: Process, s: State, ch: Chance, cancelled: bool)
    requires SchedNext(y, s, ch, cancelled).sched.Collecting?
    ensures Follows(y, s, Running(s, TheScheduler), ch, Running(SchedNext(y, s, ch, cancelled), TheScheduler).value)
  {
  }

  lemma HandlerFollows(y: Process, s: State, tid: nat, ch: Chance, who: Runner)
    requires who.Handler? && Running(HttpNext(y, s, tid, ch), who).Some?
    ensures Follows(y, s, Running(s, who), ch, Running(HttpNext(y, s, tid, ch), who).value)
  {
  }

  lemma NewHandlerFollows(y: Process, s: State, tid: nat, request: Request, ch: Chance, who: Runner)
    requires who.Handler? && Running(HttpBegin(y, s, tid, request, ch), who).Some?
    ensures Follows(y, s, Running(s, who), ch, Running(HttpBegin(y, s, tid, request, ch), who).value)
  {
  }

  lemma OthersLeaveAlone(y: Process, s: State, move: Move, who: Runner)
    requires move.Advance? || (move.SchedStep? <==> who.Handler?)
    ensures Running(Next(y, s, move), who) == Running(s, who)
  {
  }

  /** So two Collects of one goroutine never adjoin. */
  lemma RunnerStep(y: Process, s: State, move: Move, who: Runner) returns (ch: Chance)
    requires Running(Next(y, s, move), who).Some?
    ensures Follows(y, s, Running(s, who), ch, Running(Next(y, s, move), who).value)
  {
    ch := if move.Advance? then Chance(None, Err(Other(0)), [], WriteEnv(f => Err(0), f => None)) else move.ch;
    if move.Advance? || (move.SchedStep? <==> who.Handler?) {
      OthersLeaveAlone(y, s, move, who);
    } else if move.SchedStep? {
      SchedFollows(y, s, move.ch, move.cancelled);
    } else if move.HttpStart? {
      NewHandlerFollows(y, s, move.tid, move.request, move.ch, who);
    } else {
      HandlerFollows(y, s, move.tid, move.ch, who);
    }
  }

  lemma HeldLonger(y: Process, s0: State, moves: seq<Move>, move: Move, id: Bytes, creds: map<Bytes, Bytes>, b: nat)
    requires AllHeldSince(y, s0, moves, id, creds, b)
    ensures AllHeldSince(y, s0, moves + [move], id, creds, b)
  {
    forall f | f in creds
      ensures HeldSince(y, s0, moves + [move], id, f, creds[f], b)
    {
      StillHeld(y, s0, moves, move, id, f, creds[f], b);
    }
  }

  lemma StillHeld(y: Process, s0: State, moves: seq<Move>, move: Move, id: Bytes, field: Bytes, value: Bytes, b: nat)
    requires HeldSince(y, s0, moves, id, field, value, b)
    ensures HeldSince(y, s0, moves + [move], id, field, value, b)
  {
    var k :| b <= k <= |moves| && HeldAt(y, s0, moves, k, id, field, value);
    assert (moves + [move])[..k] == moves[..k];
    assert HeldAt(y, s0, moves + [move], k, id, field, value);
  }

  /** One more field is read: its value is the one stored right now. */
  lemma OneMoreHeld(
    y: Process, s0: State, moves: seq<Move>, id: Bytes, creds: map<Bytes, Bytes>, b: nat, field: Bytes, value: Bytes)
    requires AllHeldSince(y, s0, moves, id, creds, b) && b <= |moves|
    requires Holds(y.deps.vault, Exec(y, s0, moves).tables.creds, id, field, value)
    ensures AllHeldSince(y, s0, moves, id, creds[field := value], b)
  {
    assert moves[..|moves|] == moves;
    assert HeldAt(y, s0, moves, |moves|, id, field, value);
  }

  lemma ReadIsHeld(v: Vault, creds: Creds, id: Bytes, field: Bytes, fault: Fault)
    requires LoadField(v, creds, id, field, fault).Ok?
    ensures Holds(v, creds, id, field, LoadField(v, creds, id, field, fault).value)
  {
  }

  lemma NamesGrow(fields: seq<CredentialField>, i: nat)
    requires i < |fields|
    ensures FieldNames(fields[..i + 1]) == FieldNames(fields[..i]) + {fields[i].name}
  {
    assert fields[..i + 1] == fields[..i] + [fields[i]];
  }

  /** The next field is read. */
  lemma CycleReadsField(y: Process, s0: State, moves: seq<Move>, id: Bytes, pc: CollectPC, b: nat, value: Bytes)
    requires b <= |moves| && pc.AtReveal? && pc.i < |pc.m.fields| && ReadSoFar(y, s0, moves, id, pc, b)
    requires Holds(y.deps.vault, Exec(y, s0, moves).tables.creds, id, pc.m.fields[pc.i].name, value)
    ensures ReadSoFar(y, s0, moves, id, AtReveal(pc.m, pc.i + 1, pc.creds[pc.m.fields[pc.i].name := value]), b)
  {
    NamesGrow(pc.m.fields, pc.i);
    OneMoreHeld(y, s0, moves, id, pc.creds, b, pc.m.fields[pc.i].name, value);
  }

  lemma AllNamesRead(fields: seq<CredentialField>, i: nat)
    requires i == |fields|
    ensures FieldNames(fields[..i]) == FieldNames(fields)
  {
    assert fields[..i] == fields;
  }

  /** A step of the cycle reads nothing, or one field more. */
  lemma CycleReads(y: Process, s0: State, moves: seq<Move>, id: Bytes, pc: CollectPC, b: nat, ch: Chance)
    requires b <= |moves| && ReadSoFar(y, s0, moves, id, pc, b)
    ensures var s := Exec(y, s0, moves);
      ReadSoFar(y, s0, moves, id, CollectStep(y.deps, s.tables, s.clock, id, pc, ch).1, b)
  {
    var s := Exec(y, s0, moves);
    if pc.AtGet? {
      NothingReadYet(y, s0, moves, id, b, ch);
    } else if pc.AtReveal? {
      if pc.i == |pc.m.fields| {
        AllNamesRead(pc.m.fields, pc.i);
      } else {
        var name := pc.m.fields[pc.i].name;
        var read := LoadField(y.deps.vault, s.tables.creds, id, name, ch.fault);
        if read.Ok? {
          ReadIsHeld(y.deps.vault, s.tables.creds, id, name, ch.fault);
          CycleReadsField(y, s0, moves, id, pc, b, read.value);
        }
      }
    }
  }

  lemma NothingReadYet(y: Process, s0: State, moves: seq<Move>, id: Bytes, b: nat, ch: Chance)
    ensures var s := Exec(y, s0, moves);
      ReadSoFar(y, s0, moves, id, CollectStep(y.deps, s.tables, s.clock, id, AtGet, ch).1, b)
  {
    var none: map<Bytes, Bytes> := map[];
    assert AllHeldSince(y, s0, moves, id, none, b);
  }

  lemma {:induction false} CollectReads(y: Process, s0: State, moves: seq<Move>, who: Runner) returns (b: nat)
    requires Initial(s0) && Running(Exec(y, s0, moves), who).Some?
    ensures var (id, pc) := Running(Exec(y, s0, moves), who).value;
      CollectingSince(y, s0, moves, who, id, b) && ReadSoFar(y, s0, moves, id, pc, b)
    decreases |moves|
  {
    if moves == [] {
      assert false;
    } else {
      var n := |moves| - 1;
      var before, move := moves[..n], moves[n];
      assert moves == before + [move];
      ExecAppend(y, s0, before, [move]);
      var s := Exec(y, s0, before);
      ExecOne(y, s, move);
      var ch := RunnerStep(y, s, move, who);
      var id := Running(Exec(y, s0, moves), who).value.0;
      assert moves[..|moves|] == moves;
      if Running(s, who).None? {
        b := |moves|;
      } else {
        b := CollectReads(y, s0, before, who);
        StillCollecting(y, s0, before, move, who, id, b);
        CycleReads(y, s0, before, id, Running(s, who).value.1, b, ch);
        ReadsStay(y, s0, before, move, id, Running(Exec(y, s0, moves), who).value.1, b);
      }
    }
  }

  lemma StillCollecting(y: Process, s0: State, moves: seq<Move>, move: Move, who: Runner, id: Bytes, b: nat)
    requires CollectingSince(y, s0, moves, who, id, b) && RunningFor(Exec(y, s0, moves + [move]), who, id)
    ensures CollectingSince(y, s0, moves + [move], who, id, b)
  {
    var longer := moves + [move];
    forall k | b <= k <= |longer|
      ensures RunningFor(At(y, s0, longer, k), who, id)
    {
      if k <= |moves| {
        assert longer[..k] == moves[..k];
        assert RunningFor(At(y, s0, moves, k), who, id);
      } else {
        assert longer[..k] == longer;
      }
    }
    assert longer[..b] == moves[..b];
  }

  lemma ReadsStay(y: Process, s0: State, moves: seq<Move>, move: Move, id: Bytes, pc: CollectPC, b: nat)
    requires ReadSoFar(y, s0, moves, id, pc, b)
    ensures ReadSoFar(y, s0, moves + [move], id, pc, b)
  {
    if pc.AtReveal? || pc.AtFetch? {
      HeldLonger(y, s0, moves, move, id, pc.creds, b);
    }
  }

  /**
    In every interleaving, whoever collects: the map a Fetcher is called with has exactly the declared names, and every
    value was the stored plaintext of its field at some moment since the Collect began.
  */
  lemma FetcherGetsStoredValues(
    y: Process, s0: State, moves: seq<Move>, who: Runner, id: Bytes, creds: map<Bytes, Bytes>) returns (b: nat)
    requires Initial(s0) && Running(Exec(y, s0, moves), who) == Some((id, AtFetch(creds)))
    ensures CollectingSince(y, s0, moves, who, id, b)
    ensures Find(y.deps.registry, id).Some? && creds.Keys == FieldNames(Find(y.deps.registry, id).value.fields)
    ensures forall f :: f in creds ==> HeldSince(y, s0, moves, id, f, creds[f], b)
  {
    b := CollectReads(y, s0, moves, who);
  }

  /** Nothing of id's credentials has changed from b on. */
  ghost predicate UnchangedSince(y: Process, s0: State, moves: seq<Move>, id: Bytes, b: nat) {
    forall k, f :: b <= k <= |moves| ==>
      GetBlob(At(y, s0, moves, k).tables.creds, id, f, None) == GetBlob(Exec(y, s0, moves).tables.creds, id, f, None)
  }

  /** With no write in between, what the Fetcher gets is what is stored: all declared fields, of one moment. */
  lemma UnchangedMeansCurrent(
    y: Process, s0: State, moves: seq<Move>, who: Runner, id: Bytes, creds: map<Bytes, Bytes>) returns (b: nat)
    requires Initial(s0) && Readable(y.deps.vault, s0.tables.creds)
    requires Running(Exec(y, s0, moves), who) == Some((id, AtFetch(creds)))
    ensures CollectingSince(y, s0, moves, who, id, b)
    ensures UnchangedSince(y, s0, moves, id, b) ==>
      var v, now := y.deps.vault, Exec(y, s0, moves).tables.creds;
      Readable(v, now) && Find(y.deps.registry, id).Some? && var m := Find(y.deps.registry, id).value;
      HasAll(Plaintext(v, now), m) && creds == DeclaredValues(Plaintext(v, now), m)
  {
    b := FetcherGetsStoredValues(y, s0, moves, who, id, creds);
    RunKeepsReadable(y, s0, moves);
    if UnchangedSince(y, s0, moves, id, b) {
      var v, now := y.deps.vault, Exec(y, s0, moves).tables.creds;
      forall f | f in creds
        ensures Holds(v, now, id, f, creds[f])
      {
        UnchangedStillHolds(y, s0, moves, id, b, f, creds[f]);
      }
      AllHeldIsDeclared(v, now, Find(y.deps.registry, id).value, creds);
    }
  }

  lemma AllHeldIsDeclared(v: Vault, now: Creds, m: Metadata, creds: map<Bytes, Bytes>)
    requires Readable(v, now) && creds.Keys == FieldNames(m.fields)
    requires forall f :: f in creds ==> Holds(v, now, m.id, f, creds[f])
    ensures HasAll(Plaintext(v, now), m) && creds == DeclaredValues(Plaintext(v, now), m)
  {
    forall f | f in creds
      ensures (m.id, f) in Plaintext(v, now) && Plaintext(v, now)[(m.id, f)] == creds[f]
    {
      assert Holds(v, now, m.id, f, creds[f]);
      RevealIsLookup(v, now, m.id, f);
    }
  }

  lemma UnchangedStillHolds(y: Process, s0: State, moves: seq<Move>, id: Bytes, b: nat, field: Bytes, value: Bytes)
    requires UnchangedSince(y, s0, moves, id, b) && HeldSince(y, s0, moves, id, field, value, b)
    ensures Holds(y.deps.vault, Exec(y, s0, moves).tables.creds, id, field, value)
  {
    var k :| b <= k <= |moves| && HeldAt(y, s0, moves, k, id, field, value);
    SameBlobHolds(y.deps.vault, At(y, s0, moves, k).tables.creds, Exec(y, s0, moves).tables.creds, id, field, value);
  }

  lemma SameBlobHolds(v: Vault, creds: Creds, creds': Creds, id: Bytes, field: Bytes, value: Bytes)
    requires Holds(v, creds, id, field, value)
    requires GetBlob(creds, id, field, None) == GetBlob(creds', id, field, None)
    ensures Holds(v, creds', id, field, value)
  {
  }
}
