/** run(): start, shutdown and the deferred clean-up, interleaved with the scheduler goroutine and the signal. */
module Lifecycle {
  import opened Basics

  /** The deferred calls of run, in the order they are registered. */
  datatype Deferred = CloseStore | WaitScheduler | CancelScheduler | CancelShutdown

  /** None is a nil error. */
  type Exit = Option<int>

  datatype MainPC =
    | Configuring
    | Reconciling
    | Registering
    | Launching
    | Launched
    | WaitDeferred
    | Serving
    | ShuttingDown
    | Returning(exit: Exit)
    | Returned(exit: Exit)

  /** `left` providers of the current tick are still to be visited; Checked has just seen ctx.Err() == nil. */
  datatype SchedPC =
    | NotStarted
    | Selecting
    | Listing
    | Looping(left: nat)
    | Checked(left: nat)
    | Reading(left: nat)
    | Fetching(left: nat)
    | Writing(left: nat)
    | Stopped

  /** late counts the scheduler's fetches in flight when its context was cancelled or started after that. */
  datatype State = State(
    main: MainPC, defers: seq<Deferred>, signalled: bool, cancelCalled: bool, storeOpen: bool,
    served: Option<Exit>, sched: SchedPC, late: nat)

  const INITIAL := State(Configuring, [], false, false, false, None, NotStarted, 0)

  datatype Move =
    | Signal
    | ServerEnds(exit: Exit)
    | MainStep(failure: Option<int>, preferSignal: bool)
    | SchedStep(tick: bool, providers: nat, proceed: bool)

  predicate Cancelled(s: State) {
    s.signalled || s.cancelCalled
  }

  /** The server goroutine has been started and run has not decided to return. */
  predicate Listening(s: State) {
    s.main.Serving? || s.main.ShuttingDown?
  }

  /** A cancellation that finds a fetch in flight makes it a late one. */
  function NoteCancel(s: State): State {
    if !Cancelled(s) && s.sched.Fetching? then s.(late := s.late + 1) else s
  }

  function Fail(s: State, code: int): State {
    s.(main := Returning(Some(code)))
  }

  /** Unwinding pops the deferred calls last-in first-out; waiting for the scheduler blocks until it has stopped. */
  function Unwind(s: State, exit: Exit): State {
    if s.defers == [] then s.(main := Returned(exit))
    else
      var last := s.defers[|s.defers| - 1];
      var s' := s.(defers := s.defers[..|s.defers| - 1]);
      match last
      case CancelShutdown => s'
      case CancelScheduler => NoteCancel(s').(cancelCalled := true)
      case WaitScheduler => if s.sched.Stopped? then s' else s
      case CloseStore => s'.(storeOpen := false)
  }

  function MainNext(s: State, failure: Option<int>, preferSignal: bool): State {
    match s.main
    case Configuring =>
      if failure.Some? then Fail(s, failure.value)
      else s.(main := Reconciling, storeOpen := true, defers := s.defers + [CloseStore])
    case Reconciling => if failure.Some? then Fail(s, failure.value) else s.(main := Registering)
    case Registering => if failure.Some? then Fail(s, failure.value) else s.(main := Launching)
    case Launching => s.(main := Launched, sched := Selecting)
    case Launched => s.(main := WaitDeferred, defers := s.defers + [WaitScheduler])
    case WaitDeferred => s.(main := Serving, defers := s.defers + [CancelScheduler])
    case Serving =>
      if s.signalled && (preferSignal || s.served.None?) then s.(main := ShuttingDown, defers := s.defers + [CancelShutdown])
      else if s.served.Some? then s.(main := Returning(s.served.value))
      else s
    case ShuttingDown => s.(main := Returning(failure))
    case Returning(exit) => Unwind(s, exit)
    case Returned(_) => s
  }

  function OneFewer(left: nat): nat {
    if left > 0 then left - 1 else 0
  }

  /** One step of Scheduler.Run; with the context cancelled, the select may take either ready case. */
  function SchedNext(s: State, tick: bool, providers: nat, proceed: bool): State {
    match s.sched
    case NotStarted => s
    case Selecting =>
      if tick then s.(sched := Listing)
      else if Cancelled(s) then s.(sched := Stopped)
      else s
    case Listing => s.(sched := if proceed then Looping(providers) else Selecting)
    case Looping(left) => s.(sched := if left == 0 || Cancelled(s) then Selecting else Checked(left))
    case Checked(left) => s.(sched := if proceed then Reading(left) else Looping(OneFewer(left)))
    case Reading(left) =>
      if proceed then s.(sched := Fetching(left), late := if Cancelled(s) then s.late + 1 else s.late)
      else s.(sched := Looping(OneFewer(left)))
    case Fetching(left) => s.(sched := if proceed then Writing(left) else Looping(OneFewer(left)))
    case Writing(left) => s.(sched := Looping(OneFewer(left)))
    case Stopped => s
  }

  function Next(s: State, move: Move): State {
    match move
    case Signal => NoteCancel(s).(signalled := true)
    case ServerEnds(exit) => if Listening(s) && s.served.None? then s.(served := Some(exit)) else s
    case MainStep(failure, preferSignal) => MainNext(s, failure, preferSignal)
    case SchedStep(tick, providers, proceed) => SchedNext(s, tick, providers, proceed)
  }

  function Exec(s: State, moves: seq<Move>): State
    decreases moves
  {
    if moves == [] then s else Exec(Next(s, moves[0]), moves[1..])
  }

  // -------------------------------------------------------------------------------------------------
  // Safety

  const ALL: seq<Deferred> := [CloseStore, WaitScheduler, CancelScheduler, CancelShutdown]

  predicate Idle(sched: SchedPC) {
    sched.NotStarted? || sched.Stopped?
  }

  /** Which deferred calls are pending, and what holds because of those already made. */
  predicate StackFits(s: State) {
    match s.main
    case Configuring => s.defers == [] && !s.storeOpen && s.sched.NotStarted?
    case Reconciling => s.defers == ALL[..1] && s.storeOpen && s.sched.NotStarted?
    case Registering => s.defers == ALL[..1] && s.storeOpen && s.sched.NotStarted?
    case Launching => s.defers == ALL[..1] && s.storeOpen && s.sched.NotStarted?
    case Launched => s.defers == ALL[..1] && s.storeOpen && !s.sched.NotStarted?
    case WaitDeferred => s.defers == ALL[..2] && s.storeOpen && !s.sched.NotStarted?
    case Serving => s.defers == ALL[..3] && s.storeOpen && !s.sched.NotStarted?
    case ShuttingDown => s.defers == ALL && s.storeOpen && !s.sched.NotStarted?
    case Returning(_) =>
      && |s.defers| <= 4 && s.defers == ALL[..|s.defers|]
      && (|s.defers| >= 1 <==> s.storeOpen)
      && (|s.defers| >= 2 ==> !s.sched.NotStarted?)
      && (|s.defers| == 2 ==> s.cancelCalled)
      && (|s.defers| <= 1 ==> Idle(s.sched))
    case Returned(_) => s.defers == [] && !s.storeOpen && Idle(s.sched)
  }

  /** Once cancelled, nobody gets past the ctx.Err check again, so one fetch is the most that can follow. */
  predicate LateFits(s: State) {
    && s.late <= 1
    && (!Cancelled(s) ==> s.late == 0)
    && (Cancelled(s) && (s.sched.Checked? || s.sched.Reading?) ==> s.late == 0)
    && (Cancelled(s) && s.sched.Fetching? ==> s.late == 1)
  }

  predicate Inv(s: State) {
    StackFits(s) && LateFits(s)
  }

  lemma PrefixesOfAll()
    ensures ALL[..0] == [] && ALL[..1] == [CloseStore] && ALL[..2] == [CloseStore, WaitScheduler]
    ensures ALL[..3] == [CloseStore, WaitScheduler, CancelScheduler] && ALL[..4] == ALL
  {
  }

  /** Before it returns, run registers its deferred calls in this order. */
  lemma ForwardKeepsStack(s: State, failure: Option<int>, preferSignal: bool)
    requires StackFits(s) && !s.main.Returning?
    ensures StackFits(MainNext(s, failure, preferSignal))
  {
    PrefixesOfAll();
  }

  lemma PrefixPops(n: nat)
    requires 1 <= n <= 4
    ensures ALL[..n][..n - 1] == ALL[..n - 1] && ALL[..n][n - 1] == ALL[n - 1]
  {
  }

  lemma UnwindKeepsStack(s: State, exit: Exit)
    requires StackFits(s) && s.main == Returning(exit)
    ensures StackFits(Unwind(s, exit))
  {
    if s.defers != [] {
      PrefixPops(|s.defers|);
    }
  }

  lemma MainKeepsLate(s: State, failure: Option<int>, preferSignal: bool)
    requires Inv(s)
    ensures LateFits(MainNext(s, failure, preferSignal))
  {
    if s.main.Returning? {
      UnwindKeepsLate(s, s.main.exit);
    }
  }

  lemma UnwindKeepsLate(s: State, exit: Exit)
    requires LateFits(s)
    ensures LateFits(Unwind(s, exit))
  {
  }

  lemma MainKeepsInv(s: State, failure: Option<int>, preferSignal: bool)
    requires Inv(s)
    ensures Inv(MainNext(s, failure, preferSignal))
  {
    MainKeepsLate(s, failure, preferSignal);
    if s.main.Returning? {
      UnwindKeepsStack(s, s.main.exit);
    } else {
      ForwardKeepsStack(s, failure, preferSignal);
    }
  }

  /** A started scheduler never becomes an unstarted one, and one that is done does nothing any more. */
  lemma SchedOnlyAdvances(s: State, tick: bool, providers: nat, proceed: bool)
    ensures var s' := SchedNext(s, tick, providers, proceed);
      && s' == s.(sched := s'.sched, late := s'.late)
      && (s'.sched.NotStarted? <==> s.sched.NotStarted?)
      && (Idle(s.sched) ==> s' == s)
  {
  }

  lemma SchedKeepsStack(s: State, tick: bool, providers: nat, proceed: bool)
    requires StackFits(s)
    ensures StackFits(SchedNext(s, tick, providers, proceed))
  {
    SchedOnlyAdvances(s, tick, providers, proceed);
    if !Idle(s.sched) {
      StackOfAnyBusy(s, SchedNext(s, tick, providers, proceed));
    }
  }

  /** What is pending does not depend on where a busy scheduler is. */
  lemma StackOfAnyBusy(s: State, s': State)
    requires StackFits(s) && !Idle(s.sched) && !s'.sched.NotStarted?
    requires s' == s.(sched := s'.sched, late := s'.late)
    ensures StackFits(s')
  {
  }

  lemma SchedKeepsLate(s: State, tick: bool, providers: nat, proceed: bool)
    requires LateFits(s)
    ensures LateFits(SchedNext(s, tick, providers, proceed))
  {
  }

  lemma OthersKeepInv(s: State, move: Move)
    requires Inv(s) && (move.Signal? || move.ServerEnds?)
    ensures Inv(Next(s, move))
  {
  }

  lemma StepKeepsInv(s: State, move: Move)
    requires Inv(s)
    ensures Inv(Next(s, move))
  {
    match move
    case Signal => OthersKeepInv(s, move);
    case ServerEnds(_) => OthersKeepInv(s, move);
    case MainStep(failure, preferSignal) => MainKeepsInv(s, failure, preferSignal);
    case SchedStep(tick, providers, proceed) =>
      SchedKeepsStack(s, tick, providers, proceed);
      SchedKeepsLate(s, tick, providers, proceed);
  }

  lemma {:induction false} RunKeepsInv(s: State, moves: seq<Move>)
    requires Inv(s)
    ensures Inv(Exec(s, moves))
    decreases moves
  {
    if moves != [] {
      StepKeepsInv(s, moves[0]);
      RunKeepsInv(Next(s, moves[0]), moves[1..]);
    }
  }

  /** The scheduler returns only once its context has been cancelled. */
  lemma {:induction false} StoppedOnlyIfCancelled(s: State, moves: seq<Move>)
    requires s.sched.Stopped? ==> Cancelled(s)
    ensures var s' := Exec(s, moves); s'.sched.Stopped? ==> Cancelled(s')
    decreases moves
  {
    if moves != [] {
      StoppingStep(s, moves[0]);
      StoppedOnlyIfCancelled(Next(s, moves[0]), moves[1..]);
    }
  }

  lemma StoppingStep(s: State, move: Move)
    requires s.sched.Stopped? ==> Cancelled(s)
    ensures Next(s, move).sched.Stopped? ==> Cancelled(Next(s, move))
  {
  }

  /** Steps of the scheduler goroutine that run a store statement. */
  predicate UsesStore(sched: SchedPC) {
    sched.Listing? || sched.Reading? || sched.Writing?
  }

  /**
    On every exit path and in every interleaving: once the store has been closed the scheduler has returned for good,
    so no store statement of it ever meets a closed store; and at most one of its fetches is in flight at, or starts
    after, the cancellation of its context.
  */
  lemma StoreOutlivesScheduler(moves: seq<Move>)
    ensures var s := Exec(INITIAL, moves);
      && (!s.storeOpen ==> Idle(s.sched))
      && (UsesStore(s.sched) ==> s.storeOpen)
      && s.late <= 1
  {
    RunKeepsInv(INITIAL, moves);
  }

  lemma {:induction false} OnceClosedStaysQuiet(s: State, moves: seq<Move>)
    requires Inv(s) && !s.storeOpen && !s.main.Configuring?
    ensures var s' := Exec(s, moves); !s'.storeOpen && s'.sched == s.sched
    decreases moves
  {
    if moves != [] {
      StepKeepsInv(s, moves[0]);
      OnceClosedStaysQuiet(Next(s, moves[0]), moves[1..]);
    }
  }

  // -------------------------------------------------------------------------------------------------
  // The clean-up cannot deadlock

  /** While run waits for the scheduler, its context is cancelled: the wait is never for a scheduler told to go on. */
  lemma WaitingImpliesCancelled(moves: seq<Move>)
    ensures var s := Exec(INITIAL, moves);
      s.main.Returning? && s.defers != [] && s.defers[|s.defers| - 1] == WaitScheduler ==> Cancelled(s)
  {
    RunKeepsInv(INITIAL, moves);
  }

  /** A number of own steps after which a cancelled scheduler can have returned. */
  function StepsToStop(sched: SchedPC): nat {
    match sched
    case NotStarted => 0
    case Stopped => 0
    case Selecting => 1
    case Looping(_) => 2
    case Listing => 2
    case Checked(_) => 3
    case Reading(_) => 3
    case Writing(_) => 3
    case Fetching(_) => 3
  }

  lemma {:induction false} CancelledSchedulerCanStop(s: State) returns (moves: seq<Move>)
    requires Cancelled(s) && !s.sched.NotStarted?
    ensures |moves| == StepsToStop(s.sched) <= 3
    ensures Exec(s, moves) == s.(sched := Stopped)
    decreases StepsToStop(s.sched)
  {
    if s.sched.Stopped? {
      moves := [];
    } else {
      var move := SchedStep(false, 0, false);
      var s1 := Next(s, move);
      var rest := CancelledSchedulerCanStop(s1);
      moves := [move] + rest;
      assert moves[1..] == rest;
    }
  }

  /** The most own steps a cancelled scheduler has left, whatever its calls come to, if the ticker stays silent. */
  function Remaining(sched: SchedPC): nat {
    match sched
    case NotStarted => 0
    case Stopped => 0
    case Selecting => 1
    case Looping(_) => 2
    case Listing => 3
    case Writing(_) => 3
    case Fetching(_) => 4
    case Reading(_) => 5
    case Checked(_) => 6
  }

  function OwnSteps(moves: seq<Move>): nat {
    if moves == [] then 0 else OwnSteps(moves[1..]) + if moves[0].SchedStep? then 1 else 0
  }

  /** How often the scheduler may find its ticker ready. */
  function Ticks(moves: seq<Move>): nat {
    if moves == [] then 0 else Ticks(moves[1..]) + if moves[0].SchedStep? && moves[0].tick then 1 else 0
  }

  lemma CancelledSchedStep(s: State, tick: bool, providers: nat, proceed: bool)
    requires Cancelled(s) && !s.sched.NotStarted? && !s.sched.Stopped?
    ensures var s' := SchedNext(s, tick, providers, proceed);
      !s'.sched.NotStarted? && Remaining(s'.sched) + 1 <= Remaining(s.sched) + if tick then 3 else 0
  {
  }

  lemma OthersLeaveSched(s: State, move: Move)
    requires StackFits(s) && Cancelled(s) && !s.sched.NotStarted? && !move.SchedStep?
    ensures Cancelled(Next(s, move)) && Next(s, move).sched == s.sched
  {
  }

  /** Every own step comes closer to the end, except that taking the ticker costs one empty tick. */
  lemma CancelledStep(s: State, move: Move)
    requires StackFits(s) && Cancelled(s) && !s.sched.NotStarted?
    ensures var s' := Next(s, move);
      && Cancelled(s') && !s'.sched.NotStarted?
      && (s.sched.Stopped? ==> s'.sched.Stopped?)
      && (!s.sched.Stopped? && move.SchedStep? ==>
            Remaining(s'.sched) + 1 <= Remaining(s.sched) + if move.tick then 3 else 0)
      && (!move.SchedStep? ==> s'.sched == s.sched)
  {
    if !move.SchedStep? {
      OthersLeaveSched(s, move);
    } else if !s.sched.Stopped? {
      CancelledSchedStep(s, move.tick, move.providers, move.proceed);
    }
  }

  /**
    A cancelled scheduler returns, whatever its store statements and Fetcher calls come to and whatever run, the
    server and signals do meanwhile: it has at most six own steps, and three more for each ticker event it takes.
  */
  lemma {:induction false} CancelledSchedulerStops(s: State, moves: seq<Move>)
    requires Inv(s) && Cancelled(s) && !s.sched.NotStarted?
    ensures var sched := Exec(s, moves).sched;
      sched.Stopped? || Remaining(sched) + OwnSteps(moves) <= Remaining(s.sched) + 3 * Ticks(moves)
    ensures OwnSteps(moves) >= Remaining(s.sched) + 3 * Ticks(moves) ==> Exec(s, moves).sched.Stopped?
    decreases moves
  {
    if moves != [] {
      CancelledStep(s, moves[0]);
      StepKeepsInv(s, moves[0]);
      CancelledSchedulerStops(Next(s, moves[0]), moves[1..]);
      if s.sched.Stopped? {
        StoppedStays(Next(s, moves[0]), moves[1..]);
      }
    }
  }

  lemma {:induction false} StoppedStays(s: State, moves: seq<Move>)
    requires Inv(s) && s.sched.Stopped?
    ensures Exec(s, moves).sched.Stopped?
    decreases moves
  {
    if moves != [] {
      StepKeepsInv(s, moves[0]);
      StoppedStep(s, moves[0]);
      StoppedStays(Next(s, moves[0]), moves[1..]);
    }
  }

  lemma StoppedStep(s: State, move: Move)
    requires StackFits(s) && s.sched.Stopped?
    ensures Next(s, move).sched.Stopped?
  {
  }

  lemma {:induction false} ExecAppend(s: State, m1: seq<Move>, m2: seq<Move>)
    ensures Exec(s, m1 + m2) == Exec(Exec(s, m1), m2)
    decreases m1
  {
    if m1 == [] {
      assert m1 + m2 == m2;
    } else {
      assert (m1 + m2)[1..] == m1[1..] + m2;
      ExecAppend(Next(s, m1[0]), m1[1..], m2);
    }
  }

  /** From wherever run starts to return, it can finish, with the exit it decided on and the store closed. */
  lemma {:induction false} ReturningCanFinish(s: State) returns (moves: seq<Move>)
    requires Inv(s) && s.main.Returning?
    ensures Exec(s, moves).main == Returned(s.main.exit) && !Exec(s, moves).storeOpen
    decreases |s.defers|
  {
    var pop := MainStep(None, false);
    if s.defers == [] {
      moves := [pop];
      assert Exec(Next(s, pop), []) == Next(s, pop);
    } else {
      var ready := s;
      var wait: seq<Move> := [];
      if |s.defers| == 2 {
        wait := CancelledSchedulerCanStop(s);
        RunKeepsInv(s, wait);
        ready := Exec(s, wait);
      }
      var s1 := Next(ready, pop);
      StepKeepsInv(ready, pop);
      var rest := ReturningCanFinish(s1);
      moves := wait + ([pop] + rest);
      ExecAppend(s, wait, [pop] + rest);
      assert ([pop] + rest)[1..] == rest;
    }
  }

  // -------------------------------------------------------------------------------------------------
  // Which exit run returns

  predicate Booting(main: MainPC) {
    main.Configuring? || main.Reconciling? || main.Registering?
  }

  /**
    What may settle the exit: the error of a boot step; what the server has ended with, unless a signal that has come too
    is preferred; or what the shutdown comes to.
  */
  predicate Decides(s: State, move: Move, exit: Exit) {
    && move.MainStep?
    && (|| (Booting(s.main) && move.failure.Some? && exit == move.failure)
        || (s.main.Serving? && s.served == Some(exit) && !(s.signalled && move.preferSignal))
        || (s.main.ShuttingDown? && exit == move.failure))
  }

  ghost predicate DecidedAt(moves: seq<Move>, k: nat, exit: Exit) {
    k < |moves| && Decides(Exec(INITIAL, moves[..k]), moves[k], exit)
  }

  predicate Exits(s: State, exit: Exit) {
    s.main == Returning(exit) || s.main == Returned(exit)
  }

  lemma ExecSnoc(s: State, moves: seq<Move>, move: Move)
    ensures Exec(s, moves + [move]) == Next(Exec(s, moves), move)
  {
    ExecAppend(s, moves, [move]);
    assert Exec(Next(Exec(s, moves), move), [move][1..]) == Next(Exec(s, moves), move);
  }

  lemma StepExits(s: State, move: Move, exit: Exit)
    ensures Exits(Next(s, move), exit) <==> Exits(s, exit) || Decides(s, move, exit)
  {
    if move.MainStep? {
      MainExits(s, move.failure, move.preferSignal, exit);
    } else if move.SchedStep? {
      SchedOnlyAdvances(s, move.tick, move.providers, move.proceed);
    }
  }

  lemma MainExits(s: State, failure: Option<int>, preferSignal: bool, exit: Exit)
    ensures Exits(MainNext(s, failure, preferSignal), exit)
       <==> Exits(s, exit) || Decides(s, MainStep(failure, preferSignal), exit)
  {
    if s.main.Returning? {
      UnwindExits(s, s.main.exit, exit);
    }
  }

  lemma UnwindExits(s: State, exit: Exit, other: Exit)
    requires s.main == Returning(exit)
    ensures Exits(Unwind(s, exit), other) <==> exit == other
  {
  }

  lemma DecidedEarlier(moves: seq<Move>, move: Move, k: nat, exit: Exit)
    ensures DecidedAt(moves + [move], k, exit)
       <==> DecidedAt(moves, k, exit) || (k == |moves| && Decides(Exec(INITIAL, moves), move, exit))
  {
    if k <= |moves| {
      assert (moves + [move])[..k] == moves[..k];
      assert moves[..|moves|] == moves;
    }
  }

  /** In every interleaving run is about to return, or has returned, exactly what one step of it has settled. */
  lemma {:induction false} ExitIsDecided(moves: seq<Move>, exit: Exit)
    ensures Exits(Exec(INITIAL, moves), exit) <==> exists k :: DecidedAt(moves, k, exit)
    decreases |moves|
  {
    if moves != [] {
      var n := |moves| - 1;
      var before, move := moves[..n], moves[n];
      assert moves == before + [move];
      ExitIsDecided(before, exit);
      ExecSnoc(INITIAL, before, move);
      StepExits(Exec(INITIAL, before), move, exit);
      forall k: nat
        ensures DecidedAt(moves, k, exit)
           <==> DecidedAt(before, k, exit) || (k == n && Decides(Exec(INITIAL, before), move, exit))
      {
        DecidedEarlier(before, move, k, exit);
      }
      assert Decides(Exec(INITIAL, before), move, exit) ==> DecidedAt(moves, n, exit);
    }
  }

  /** A nil exit means that no boot step failed, and that the server's end or the shutdown that settled it was clean. */
  lemma NilExitMeansNothingFailed(moves: seq<Move>, k: nat)
    requires Exits(Exec(INITIAL, moves), None) && k < |moves| && moves[k].MainStep?
    ensures var s := Exec(INITIAL, moves[..k]);
      && (Booting(s.main) || s.main.ShuttingDown? ==> moves[k].failure.None?)
      && (s.main.Serving? && s.served.Some? && !(s.signalled && moves[k].preferSignal) ==> s.served == Some(None))
  {
    var s, move := Exec(INITIAL, moves[..k]), moves[k];
    if Booting(s.main) || s.main.ShuttingDown? {
      ExitIsDecided(moves, move.failure);
      assert move.failure.Some? ==> DecidedAt(moves, k, move.failure);
    } else if s.main.Serving? && s.served.Some? {
      ExitIsDecided(moves, s.served.value);
      assert !(s.signalled && move.preferSignal) ==> DecidedAt(moves, k, s.served.value);
    }
  }

  /** The k-th move is the server's end, with the server listening. */
  ghost predicate EndsAt(moves: seq<Move>, k: nat) {
    k < |moves| && moves[k].ServerEnds? && Listening(Exec(INITIAL, moves[..k]))
  }

  ghost predicate FirstEndAt(moves: seq<Move>, k: nat) {
    EndsAt(moves, k) && forall j :: 0 <= j < k ==> !EndsAt(moves, j)
  }

  lemma EndsEarlier(moves: seq<Move>, move: Move, k: nat)
    ensures EndsAt(moves + [move], k)
       <==> EndsAt(moves, k) || (k == |moves| && move.ServerEnds? && Listening(Exec(INITIAL, moves)))
  {
    if k <= |moves| {
      assert (moves + [move])[..k] == moves[..k];
      assert moves[..|moves|] == moves;
    }
  }

  /** What run reads from the server's channel is what the server ended with the first time. */
  lemma {:induction false} ServedIsTheServersEnd(moves: seq<Move>) returns (k: nat)
    ensures match Exec(INITIAL, moves).served
      case Some(exit) => FirstEndAt(moves, k) && moves[k].exit == exit
      case None => forall j :: 0 <= j < |moves| ==> !EndsAt(moves, j)
    decreases |moves|
  {
    k := 0;
    if moves != [] {
      var n := |moves| - 1;
      var before, move := moves[..n], moves[n];
      assert moves == before + [move];
      k := ServedIsTheServersEnd(before);
      ExecSnoc(INITIAL, before, move);
      forall j: nat
        ensures EndsAt(moves, j)
           <==> EndsAt(before, j) || (j == n && move.ServerEnds? && Listening(Exec(INITIAL, before)))
      {
        EndsEarlier(before, move, j);
      }
      ServedStep(Exec(INITIAL, before), move);
      if Exec(INITIAL, before).served.None? {
        k := n;
      }
    }
  }

  lemma ServedStep(s: State, move: Move)
    ensures Next(s, move).served ==
      if s.served.None? && move.ServerEnds? && Listening(s) then Some(move.exit) else s.served
  {
  }

  /** The context counts as signalled exactly when a signal has come. */
  lemma {:induction false} SignalledIff(s: State, moves: seq<Move>)
    ensures Exec(s, moves).signalled <==> s.signalled || exists k :: 0 <= k < |moves| && moves[k].Signal?
    decreases moves
  {
    if moves != [] {
      SignalStep(s, moves[0]);
      SignalledIff(Next(s, moves[0]), moves[1..]);
      assert forall k :: 0 < k < |moves| ==> moves[k] == moves[1..][k - 1];
      assert forall k :: 0 <= k < |moves| - 1 ==> moves[1..][k] == moves[k + 1];
    }
  }

  lemma SignalStep(s: State, move: Move)
    ensures Next(s, move).signalled <==> s.signalled || move.Signal?
  {
    if move.MainStep? {
      MainKeepsSignal(s, move.failure, move.preferSignal);
    } else if move.SchedStep? {
      SchedOnlyAdvances(s, move.tick, move.providers, move.proceed);
    }
  }

  lemma MainKeepsSignal(s: State, failure: Option<int>, preferSignal: bool)
    ensures MainNext(s, failure, preferSignal).signalled == s.signalled
  {
  }

  /** With nothing failing run gets to serve, and a signal then takes it to the shutdown unless the server has ended. */
  lemma CleanStartServes(preferSignal: bool)
    ensures var step := MainStep(None, preferSignal);
      var s := Exec(INITIAL, [step, step, step] + [step, step, step]);
      && s.main.Serving? && s.storeOpen && s.sched == Selecting
      && Next(Next(s, Signal), step).main.ShuttingDown?
      && Next(s, step) == s
  {
    var step := MainStep(None, preferSignal);
    var first := [step, step, step];
    var s3 := Next(Next(Next(INITIAL, step), step), step);
    ExecThree(INITIAL, step, step, step);
    assert s3.main == Launching;
    ExecThree(s3, step, step, step);
    ExecAppend(INITIAL, first, first);
  }

  lemma ExecThree(s: State, a: Move, b: Move, c: Move)
    ensures Exec(s, [a, b, c]) == Next(Next(Next(s, a), b), c)
  {
    ExecSnoc(s, [], a);
    ExecSnoc(s, [a], b);
    ExecSnoc(s, [a, b], c);
    assert [] + [a] == [a] && [a] + [b] == [a, b] && [a, b] + [c] == [a, b, c];
  }

  // -------------------------------------------------------------------------------------------------
  // A tick visits its providers one after the other

  /** An undisturbed visit of one provider fetches it and moves on to the next. */
  lemma VisitFetches(s: State)
    requires s.sched.Looping? && s.sched.left > 0 && !Cancelled(s)
    ensures var step := SchedStep(false, 0, true);
      var s3 := Exec(s, [step, step, step]);
      && s3 == s.(sched := Fetching(s.sched.left))
      && Next(Next(s3, step), step) == s.(sched := Looping(s.sched.left - 1))
  {
    var step, left := SchedStep(false, 0, true), s.sched.left;
    ExecThree(s, step, step, step);
    VisitBegins(s);
    VisitCloses(s.(sched := Fetching(left)));
  }

  lemma VisitBegins(s: State)
    requires s.sched.Looping? && s.sched.left > 0 && !Cancelled(s)
    ensures SchedNext(s, false, 0, true) == s.(sched := Checked(s.sched.left))
    ensures SchedNext(s.(sched := Checked(s.sched.left)), false, 0, true) == s.(sched := Reading(s.sched.left))
    ensures SchedNext(s.(sched := Reading(s.sched.left)), false, 0, true) == s.(sched := Fetching(s.sched.left))
  {
  }

  lemma VisitCloses(s: State)
    requires s.sched.Fetching? && s.sched.left > 0
    ensures SchedNext(s, false, 0, true) == s.(sched := Writing(s.sched.left))
    ensures SchedNext(s.(sched := Writing(s.sched.left)), false, 0, true) == s.(sched := Looping(s.sched.left - 1))
  {
  }

  /** How many own steps the tick has left at most. */
  function TickSteps(sched: SchedPC): nat {
    match sched
    case Looping(left) => 5 * left + 1
    case Checked(left) => 5 * OneFewer(left) + 5
    case Reading(left) => 5 * OneFewer(left) + 4
    case Fetching(left) => 5 * OneFewer(left) + 3
    case Writing(left) => 5 * OneFewer(left) + 2
    case _ => 0
  }

  /** The ticker starts a listing, and the tick goes on with the providers listed, or is over if the listing fails. */
  lemma TickStarts(s: State, providers: nat, ignored: nat, proceed: bool, listed: bool)
    requires s.sched == Selecting
    ensures Next(Next(s, SchedStep(true, ignored, proceed)), SchedStep(false, providers, listed))
      == s.(sched := if listed then Looping(providers) else Selecting)
  {
  }

  lemma TickGoesOn(s: State, tick: bool, providers: nat, proceed: bool)
    requires TickSteps(s.sched) > 0
    ensures var sched := SchedNext(s, tick, providers, proceed).sched;
      sched == Selecting || 0 < TickSteps(sched) < TickSteps(s.sched)
  {
  }

  /** A tick that has listed `left` providers is over after at most five own steps for each and one more. */
  lemma {:induction false} TickEnds(s: State, moves: seq<Move>) returns (k: nat)
    requires Inv(s) && TickSteps(s.sched) > 0 && OwnSteps(moves) >= TickSteps(s.sched)
    ensures k <= |moves| && Exec(s, moves[..k]).sched == Selecting
    decreases moves
  {
    var move, s1 := moves[0], Next(s, moves[0]);
    StepKeepsInv(s, move);
    if move.SchedStep? {
      TickGoesOn(s, move.tick, move.providers, move.proceed);
    } else {
      StartedUntouched(s, move);
    }
    if s1.sched == Selecting {
      k := 1;
      assert moves[..1] == [move] && Exec(s1, [move][1..]) == s1;
    } else {
      var j := TickEnds(s1, moves[1..]);
      k := j + 1;
      assert moves[..k][1..] == moves[1..][..j];
    }
  }

  lemma StartedUntouched(s: State, move: Move)
    requires StackFits(s) && !s.sched.NotStarted? && !move.SchedStep?
    ensures Next(s, move).sched == s.sched
  {
  }
}
