/** The shutdown protocol of `HandleSignals` and of `ManageServer` around it, as a step system:
    a select loop, the goroutine it starts for the graceful handler, and the one-slot channel
    both of them send to. Signals are delivered to an unbuffered channel, so a signal that
    arrives while the loop is not selecting is dropped. */
module Signals {
  import opened Text

  /** What a handler returned: the error value, or "" for nil. */
  type Outcome = string

  datatype Origin = Graceful | Forced
  datatype Result = Result(origin: Origin, value: Outcome)

  /** The program counter of the loop in HandleSignals. */
  datatype Loop = Selecting | Forcing | SendingForced(outcome: Outcome) | Returned(result: Result)

  /** The goroutine started on the first signal. */
  datatype Routine = Unstarted | Running | Sending(outcome: Outcome) | Done

  /** `delivered`, `finished` and `sent` record the history: the signals received, the results
      in the order the handlers returned, and those in the order they were sent. */
  datatype State = State(
    loop: Loop, grace: bool, errCh: Option<Result>, routine: Routine,
    delivered: nat, finished: seq<Result>, sent: seq<Result>)

  const START := State(Selecting, true, None, Unstarted, 0, [], [])

  datatype Action =
    | Signal
    | GracefulReturns(outcome: Outcome)
    | GracefulSends
    | ForcedReturns(outcome: Outcome)
    | ForcedSends
    | Receive

  predicate Enabled(s: State, a: Action) {
    Ready(s.loop, s.routine, s.errCh, a)
  }

  predicate Ready(loop: Loop, routine: Routine, errCh: Option<Result>, a: Action) {
    match a
    case Signal => loop.Selecting?
    case GracefulReturns(_) => routine.Running?
    case GracefulSends => routine.Sending? && errCh.None?
    case ForcedReturns(_) => loop.Forcing?
    case ForcedSends => loop.SendingForced? && errCh.None?
    case Receive => loop.Selecting? && errCh.Some?
  }

  /** One step; `force` says whether a force handler was given. */
  function Next(s: State, a: Action, force: bool): State
    requires Enabled(s, a)
  {
    match a
    case Signal =>
      var t := s.(delivered := s.delivered + 1);
      if s.grace then t.(grace := false, routine := Running)
      else if force then t.(loop := Forcing)
      else t
    case GracefulReturns(v) => s.(routine := Sending(v), finished := s.finished + [Result(Graceful, v)])
    case GracefulSends =>
      var r := Result(Graceful, s.routine.outcome);
      s.(routine := Done, errCh := Some(r), sent := s.sent + [r])
    case ForcedReturns(v) => s.(loop := SendingForced(v), finished := s.finished + [Result(Forced, v)])
    case ForcedSends =>
      var r := Result(Forced, s.loop.outcome);
      s.(loop := Selecting, errCh := Some(r), sent := s.sent + [r])
    case Receive => s.(loop := Returned(s.errCh.value), errCh := None)
  }

  /** The states a schedule leads to; a schedule is a run when each of its steps is enabled. */
  predicate IsRun(s: State, run: seq<Action>, force: bool)
    decreases |run|
  {
    run == [] || (Enabled(s, run[0]) && IsRun(Next(s, run[0], force), run[1..], force))
  }

  function After(s: State, run: seq<Action>, force: bool): State
    requires IsRun(s, run, force)
    decreases |run|
  {
    if run == [] then s else After(Next(s, run[0], force), run[1..], force)
  }

  ghost predicate Reachable(s: State, force: bool) {
    exists run :: IsRun(START, run, force) && After(START, run, force) == s
  }

  ghost predicate CanReturn(s: State, force: bool) {
    exists run :: IsRun(s, run, force) && After(s, run, force).loop.Returned?
  }

  /** The loop, which is the only receiver, owes a send to a channel that is already full. */
  predicate Doomed(s: State) {
    (s.loop.Forcing? || s.loop.SendingForced?) && s.errCh.Some?
  }

  /** Control flow every step keeps: who runs when, and what the channel can hold. */
  predicate Flow(s: State, force: bool) {
    && (s.grace <==> s.delivered == 0)
    && (s.grace <==> s.routine.Unstarted?)
    && |s.sent| == (if s.errCh.Some? then 1 else 0) + (if s.loop.Returned? then 1 else 0)
    && (s.errCh.Some? ==> s.sent[|s.sent| - 1] == s.errCh.value)
    && (s.loop.Returned? ==> s.sent[0] == s.loop.result)
    && (s.routine.Done? ==> s.sent != [])
    && (s.loop.Returned? && s.errCh.Some? ==> s.routine.Done?)
    && (s.loop.Forcing? || s.loop.SendingForced? ==> force && s.delivered >= 2)
    && (force ==>
          && s.delivered <= 3
          && (s.delivered == 2 && s.loop.Selecting? ==> s.errCh.Some?)
          && (s.delivered == 3 ==> Doomed(s)))
  }

  /** The history every step keeps: each handler's results come from a run of that handler. */
  predicate History(s: State, force: bool) {
    && (forall r <- s.sent :: r in s.finished)
    && (s.routine.Sending? ==> Result(Graceful, s.routine.outcome) in s.finished)
    && (s.loop.SendingForced? ==> Result(Forced, s.loop.outcome) in s.finished)
    && (forall r <- s.finished :: r.origin.Forced? ==> force && s.delivered >= 2)
    && (s.routine.Unstarted? || s.routine.Running? ==> forall r <- s.finished :: r.origin.Forced?)
    && (forall i, j :: 0 <= i < j < |s.finished| ==> s.finished[i].origin.Forced? || s.finished[j].origin.Forced?)
  }

  lemma FlowKept(s: State, a: Action, force: bool)
    requires Flow(s, force) && Enabled(s, a)
    ensures Flow(Next(s, a, force), force)
  {
  }

  lemma HistoryKept(s: State, a: Action, force: bool)
    requires Flow(s, force) && History(s, force) && Enabled(s, a)
    ensures History(Next(s, a, force), force)
  {
    var t := Next(s, a, force);
    assert forall r <- s.finished :: r in t.finished;
    assert forall r <- t.sent :: r in s.sent || r == t.sent[|t.sent| - 1];
  }

  /** Both invariants hold along every run. */
  lemma {:induction false} InvariantAlong(s: State, run: seq<Action>, force: bool)
    requires Flow(s, force) && History(s, force) && IsRun(s, run, force)
    ensures Flow(After(s, run, force), force) && History(After(s, run, force), force)
    decreases |run|
  {
    if run != [] {
      FlowKept(s, run[0], force);
      HistoryKept(s, run[0], force);
      InvariantAlong(Next(s, run[0], force), run[1..], force);
    }
  }

  lemma ReachableInvariant(s: State, force: bool)
    requires Reachable(s, force)
    ensures Flow(s, force) && History(s, force)
  {
    var run :| IsRun(START, run, force) && After(START, run, force) == s;
    InvariantAlong(START, run, force);
  }

  /** No step leads out of a doomed state. */
  lemma DoomedClosed(s: State, a: Action, force: bool)
    requires Doomed(s) && Enabled(s, a)
    ensures Doomed(Next(s, a, force))
  {
  }

  lemma {:induction false} DoomedForever(s: State, run: seq<Action>, force: bool)
    requires Doomed(s) && IsRun(s, run, force)
    ensures Doomed(After(s, run, force))
    decreases |run|
  {
    if run != [] {
      DoomedClosed(s, run[0], force);
      DoomedForever(Next(s, run[0], force), run[1..], force);
    }
  }

  /** How many steps a state which is not doomed is away from returning, and the next of them. */
  function Distance(s: State): nat {
    if s.loop.Returned? then 0
    else if s.loop.Forcing? then 3
    else if s.loop.SendingForced? then 2
    else if s.errCh.Some? then 1
    else if s.routine.Unstarted? then 4
    else if s.routine.Running? then 3
    else 2
  }

  function TowardReturn(s: State): Action {
    if s.loop.Forcing? then ForcedReturns("")
    else if s.loop.SendingForced? then ForcedSends
    else if s.errCh.Some? then Receive
    else if s.routine.Unstarted? then Signal
    else if s.routine.Running? then GracefulReturns("")
    else GracefulSends
  }

  lemma {:induction false} NotDoomedReturns(s: State, force: bool)
    requires Flow(s, force) && !Doomed(s)
    ensures CanReturn(s, force)
    decreases Distance(s)
  {
    if s.loop.Returned? {
      assert IsRun(s, [], force);
    } else {
      var a := TowardReturn(s);
      var t := Next(s, a, force);
      FlowKept(s, a, force);
      NotDoomedReturns(t, force);
      var run :| IsRun(t, run, force) && After(t, run, force).loop.Returned?;
      StepThen(s, a, run, force);
    }
  }

  lemma StepThen(s: State, a: Action, run: seq<Action>, force: bool)
    requires Enabled(s, a) && IsRun(Next(s, a, force), run, force)
    ensures IsRun(s, [a] + run, force)
    ensures After(s, [a] + run, force) == After(Next(s, a, force), run, force)
  {
    assert ([a] + run)[1..] == run;
  }

  /** HandleSignals can still return from a reachable state exactly when the state is not doomed. */
  lemma CanReturnIff(s: State, force: bool)
    requires Reachable(s, force)
    ensures CanReturn(s, force) <==> !Doomed(s)
  {
    ReachableInvariant(s, force);
    if Doomed(s) {
      forall run | IsRun(s, run, force) ensures !After(s, run, force).loop.Returned? {
        DoomedForever(s, run, force);
      }
    } else {
      NotDoomedReturns(s, force);
    }
  }

  /** One more step from a reachable state is a reachable state. */
  lemma ReachableStep(s: State, a: Action, force: bool)
    requires Reachable(s, force) && Enabled(s, a)
    ensures Reachable(Next(s, a, force), force)
  {
    var run :| IsRun(START, run, force) && After(START, run, force) == s;
    RunThenStep(START, run, a, force);
  }

  lemma {:induction false} RunThenStep(s: State, run: seq<Action>, a: Action, force: bool)
    requires IsRun(s, run, force) && Enabled(After(s, run, force), a)
    ensures IsRun(s, run + [a], force) && After(s, run + [a], force) == Next(After(s, run, force), a, force)
    decreases |run|
  {
    if run == [] {
      StepThen(s, a, [], force);
      assert run + [a] == [a] + [];
    } else {
      RunThenStep(Next(s, run[0], force), run[1..], a, force);
      StepThen(s, run[0], run[1..] + [a], force);
      assert [run[0]] + (run[1..] + [a]) == run + [a];
    }
  }

  lemma StartReachable(force: bool)
    ensures Reachable(START, force)
  {
    assert IsRun(START, [], force) && After(START, [], force) == START;
  }

  /** Two signals with a force handler can doom the loop; without one, or with a single
      signal, nothing can. */
  lemma DoomReachableIff(force: bool, n: nat)
    ensures (exists s :: Reachable(s, force) && Doomed(s) && s.delivered <= n) <==> (force && n >= 2)
  {
    if force && n >= 2 {
      StartReachable(true);
      ReachableStep(START, Signal, true);
      var s1 := Next(START, Signal, true);
      ReachableStep(s1, GracefulReturns(""), true);
      var s2 := Next(s1, GracefulReturns(""), true);
      ReachableStep(s2, GracefulSends, true);
      var s3 := Next(s2, GracefulSends, true);
      ReachableStep(s3, Signal, true);
      var s4 := Next(s3, Signal, true);
      assert Doomed(s4) && s4.delivered == 2;
    } else {
      forall s | Reachable(s, force) && s.delivered <= n ensures !Doomed(s) {
        ReachableInvariant(s, force);
      }
    }
  }

  /** What a return means: it hands over the first value sent, which some handler returned, never
      before a signal; a forced value needs a second signal; and the graceful goroutine, which
      ran at most once, can then always finish its send. */
  lemma ReturnedMeans(s: State, force: bool)
    requires Reachable(s, force) && s.loop.Returned?
    ensures s.sent != [] && s.loop.result == s.sent[0] && s.sent[0] in s.finished
    ensures s.delivered >= 1 && !s.routine.Unstarted?
    ensures s.loop.result.origin.Forced? ==> force && s.delivered >= 2
    ensures forall i, j :: 0 <= i < j < |s.finished| ==> s.finished[i].origin.Forced? || s.finished[j].origin.Forced?
    ensures s.routine.Sending? ==> Enabled(s, GracefulSends)
  {
    ReachableInvariant(s, force);
  }

  /** What the handlers returned in a run, in its order. */
  function HandlerResults(run: seq<Action>): seq<Result> {
    if run == [] then []
    else
      (match run[0]
       case GracefulReturns(v) => [Result(Graceful, v)]
       case ForcedReturns(v) => [Result(Forced, v)]
       case _ => [])
      + HandlerResults(run[1..])
  }

  /** Exactly that is recorded, neither changed nor lost nor reordered. */
  lemma {:induction false} FinishedIs(s: State, run: seq<Action>, force: bool)
    requires IsRun(s, run, force)
    ensures After(s, run, force).finished == s.finished + HandlerResults(run)
    decreases |run|
  {
    if run != [] {
      FinishedIs(Next(s, run[0], force), run[1..], force);
    }
  }

  lemma {:induction false} ResultsCarried(run: seq<Action>, v: Outcome)
    ensures Result(Graceful, v) in HandlerResults(run) <==> GracefulReturns(v) in run
    ensures Result(Forced, v) in HandlerResults(run) <==> ForcedReturns(v) in run
    decreases |run|
  {
    if run != [] {
      ResultsCarried(run[1..], v);
      assert run == [run[0]] + run[1..];
    }
  }

  /** In every run from the start a value is recorded for a handler exactly if the handler
      returned it. */
  lemma FinishedIff(run: seq<Action>, force: bool, v: Outcome)
    requires IsRun(START, run, force)
    ensures Result(Graceful, v) in After(START, run, force).finished <==> GracefulReturns(v) in run
    ensures Result(Forced, v) in After(START, run, force).finished <==> ForcedReturns(v) in run
  {
    FinishedIs(START, run, force);
    ResultsCarried(run, v);
    assert [] + HandlerResults(run) == HandlerResults(run);
  }

  /** What HandleSignals returns is the very value a handler returned in the run. */
  lemma ReturnedByHandler(run: seq<Action>, force: bool)
    requires IsRun(START, run, force) && After(START, run, force).loop.Returned?
    ensures var r := After(START, run, force).loop.result;
      if r.origin.Graceful? then GracefulReturns(r.value) in run else ForcedReturns(r.value) in run
  {
    var s := After(START, run, force);
    assert Reachable(s, force);
    ReturnedMeans(s, force);
    FinishedIff(run, force, s.loop.result.value);
  }

  /** The comment on HandleSignals promises the value of the handler that returned first. */
  ghost predicate ReturnsFirstFinished(force: bool, n: nat) {
    forall s :: Reachable(s, force) && s.loop.Returned? && s.delivered <= n ==>
      s.finished != [] && s.finished[0] == s.loop.result
  }

  /** The code keeps that promise exactly when there is no force handler or only one signal:
      otherwise the handler that returned second may be the first to send. */
  lemma ReturnsFirstFinishedIff(force: bool, n: nat)
    ensures ReturnsFirstFinished(force, n) <==> (!force || n <= 1)
  {
    if force && n >= 2 {
      StartReachable(true);
      ReachableStep(START, Signal, true);
      var s1 := Next(START, Signal, true);
      ReachableStep(s1, Signal, true);
      var s2 := Next(s1, Signal, true);
      ReachableStep(s2, GracefulReturns(""), true);
      var s3 := Next(s2, GracefulReturns(""), true);
      ReachableStep(s3, ForcedReturns(""), true);
      var s4 := Next(s3, ForcedReturns(""), true);
      ReachableStep(s4, ForcedSends, true);
      var s5 := Next(s4, ForcedSends, true);
      ReachableStep(s5, Receive, true);
      var s6 := Next(s5, Receive, true);
      assert s6.finished[0] == Result(Graceful, "") && s6.loop == Returned(Result(Forced, "")) && s6.delivered == 2;
    } else {
      forall s | Reachable(s, force) && s.loop.Returned? && s.delivered <= n
        ensures s.finished != [] && s.finished[0] == s.loop.result
      {
        ReachableInvariant(s, force);
        assert s.sent[0] in s.finished && s.finished[0].origin.Graceful?;
      }
    }
  }

  /** Work left in a state; every step uses some of it up, apart from a signal to a loop
      without a force handler. */
  function Work(s: State, force: bool): int {
    (if force then 3 * (3 - s.delivered) else if s.grace then 2 else 0)
    + (if s.routine.Running? then 2 else if s.routine.Sending? then 1 else 0)
    + (if s.loop.Forcing? then 2 else if s.loop.SendingForced? then 1 else 0)
    + (if s.loop.Returned? then 0 else 1)
  }

  lemma WorkUsed(s: State, a: Action, force: bool)
    requires Flow(s, force) && Enabled(s, a)
    ensures Work(s, force) >= 0
    ensures Work(Next(s, a, force), force) == if a.Signal? && !force then Work(s, force) else Work(s, force) - 1
  {
  }

  lemma {:induction false} WorkAlong(s: State, run: seq<Action>, force: bool)
    requires Flow(s, force) && IsRun(s, run, force)
    ensures Work(After(s, run, force), force) >= 0
    ensures force ==> |run| == Work(s, force) - Work(After(s, run, force), force)
    ensures !force ==> |run| <= Work(s, force) + After(s, run, force).delivered - s.delivered
    decreases |run|
  {
    if run != [] {
      WorkUsed(s, run[0], force);
      FlowKept(s, run[0], force);
      WorkAlong(Next(s, run[0], force), run[1..], force);
    }
  }

  /** No run goes on for ever: with a force handler at most ten steps happen in all, at most
      three of them signals; without one at most three besides the signals. */
  lemma RunsAreShort(run: seq<Action>, force: bool)
    requires IsRun(START, run, force)
    ensures force ==> |run| <= 10 && After(START, run, force).delivered <= 3
    ensures !force ==> |run| <= 3 + After(START, run, force).delivered
  {
    WorkAlong(START, run, force);
    InvariantAlong(START, run, force);
  }

  /** So every run ends, and it ends in one of two ways: HandleSignals has returned and the
      graceful goroutine is through, or the loop is blocked in its own send for ever. */
  lemma StuckIff(s: State, force: bool)
    requires Reachable(s, force)
    ensures (forall a :: !Enabled(s, a)) <==>
              (s.loop.Returned? && s.routine.Done?) || (s.loop.SendingForced? && Doomed(s) && !s.routine.Running?)
  {
    ReachableInvariant(s, force);
    if forall a :: !Enabled(s, a) {
      assert !Enabled(s, Signal) && !Enabled(s, GracefulReturns("")) && !Enabled(s, GracefulSends);
      assert !Enabled(s, ForcedReturns("")) && !Enabled(s, ForcedSends) && !Enabled(s, Receive);
    }
  }

  /** The function itself, driven by a schedule of what its two goroutines and the operating
      system do next. It stops when it returns, or at the first step that has to block. */
  method HandleSignals(force: bool, schedule: seq<Action>) returns (result: Option<Result>, steps: nat)
    ensures steps <= |schedule| && IsRun(START, schedule[..steps], force)
    ensures var s := After(START, schedule[..steps], force);
      && result == (if s.loop.Returned? then Some(s.loop.result) else None)
      && (result.None? && steps < |schedule| ==> !Enabled(s, schedule[steps]))
    ensures result.Some? && result.value.origin.Graceful? ==> GracefulReturns(result.value.value) in schedule[..steps]
    ensures result.Some? && result.value.origin.Forced? ==> ForcedReturns(result.value.value) in schedule[..steps]
  {
    var grace, routine: Routine, loop: Loop, errCh: Option<Result> := true, Unstarted, Selecting, None;
    ghost var s := START;
    result, steps := None, 0;
    while steps < |schedule| && result.None?
      invariant steps <= |schedule| && IsRun(START, schedule[..steps], force)
      invariant s == After(START, schedule[..steps], force)
      invariant loop == s.loop && grace == s.grace && errCh == s.errCh && routine == s.routine
      invariant result == (if s.loop.Returned? then Some(s.loop.result) else None)
    {
      var a := schedule[steps];
      if !Ready(loop, routine, errCh, a) {
        break;
      }
      RunThenStep(START, schedule[..steps], a, force);
      assert schedule[..steps] + [a] == schedule[..steps + 1];
      s := Next(s, a, force);
      match a {
        case Receive =>
          result := errCh;
          loop, errCh := Returned(errCh.value), None;
        case Signal =>
          if grace {
            grace := false;
            routine := Running;
          } else if force {
            loop := Forcing;
          }
        case GracefulReturns(v) => routine := Sending(v);
        case GracefulSends => errCh, routine := Some(Result(Graceful, routine.outcome)), Done;
        case ForcedReturns(v) => loop := SendingForced(v);
        case ForcedSends => errCh, loop := Some(Result(Forced, loop.outcome)), Selecting;
      }
      steps := steps + 1;
    }
    if result.Some? {
      ReturnedByHandler(schedule[..steps], force);
    }
  }
}

/** `ManageServer`: the server goroutine and the HandleSignals goroutine both report on one
    unbuffered channel, and the first report is returned. */
module ServerManager {
  import opened Text
  import S = Signals

  datatype Server = Serving | Failed(outcome: S.Outcome) | Stopped

  /** `closed`: Shutdown or Close has been called on the server. */
  datatype State = State(handler: S.State, server: Server, closed: bool, returned: Option<S.Outcome>)

  const START := State(S.START, Serving, false, None)

  datatype Action =
    | Handler(action: S.Action)
    | CloseServer
    | ServerFails(outcome: S.Outcome)
    | ServerStops
    | ReportFailure
    | ReportSignals

  predicate Enabled(m: State, a: Action) {
    match a
    case Handler(h) =>
      S.Enabled(m.handler, h) && (h.GracefulReturns? || h.ForcedReturns? ==> m.closed)
    case CloseServer => m.handler.routine.Running? || m.handler.loop.Forcing?
    case ServerFails(_) => m.server.Serving? && !m.closed
    case ServerStops => m.server.Serving? && m.closed
    case ReportFailure => m.server.Failed? && m.returned.None?
    case ReportSignals => m.handler.loop.Returned? && m.returned.None?
  }

  /** Both handlers are always given, so the force handler is there. */
  function Next(m: State, a: Action): State
    requires Enabled(m, a)
  {
    match a
    case Handler(h) => m.(handler := S.Next(m.handler, h, true))
    case CloseServer => m.(closed := true)
    case ServerFails(v) => m.(server := Failed(v))
    case ServerStops => m.(server := Stopped)
    case ReportFailure => m.(returned := Some(m.server.outcome), server := Stopped)
    case ReportSignals => m.(returned := Some(m.handler.loop.result.value))
  }

  /** Reached by some run of exactly `n` steps. */
  ghost predicate ReachableIn(m: State, n: nat)
    decreases n
  {
    if n == 0 then m == START
    else exists p, a :: ReachableIn(p, n - 1) && Enabled(p, a) && Next(p, a) == m
  }

  ghost predicate CanReturnIn(m: State, n: nat)
    decreases n
  {
    m.returned.Some? || (n > 0 && exists a :: Enabled(m, a) && CanReturnIn(Next(m, a), n - 1))
  }

  ghost predicate CanReturn(m: State) {
    exists n: nat :: CanReturnIn(m, n)
  }

  /** The loop of HandleSignals is doomed and the server has nothing to report either. */
  predicate Doomed(m: State) {
    S.Doomed(m.handler) && m.returned.None? && !m.server.Failed?
  }

  predicate Invariant(m: State) {
    && S.Flow(m.handler, true)
    && S.History(m.handler, true)
    && (m.handler.finished != [] ==> m.closed)
  }

  lemma InvariantKept(m: State, a: Action)
    requires Invariant(m) && Enabled(m, a)
    ensures Invariant(Next(m, a))
    ensures Doomed(m) ==> Doomed(Next(m, a))
  {
    if a.Handler? {
      S.FlowKept(m.handler, a.action, true);
      S.HistoryKept(m.handler, a.action, true);
    }
    if S.Doomed(m.handler) {
      assert m.handler.sent[|m.handler.sent| - 1] in m.handler.finished;
    }
  }

  lemma {:induction false} ReachableInvariant(m: State, n: nat)
    requires ReachableIn(m, n)
    ensures Invariant(m)
    decreases n
  {
    if n > 0 {
      var p, a :| ReachableIn(p, n - 1) && Enabled(p, a) && Next(p, a) == m;
      ReachableInvariant(p, n - 1);
      InvariantKept(p, a);
    }
  }

  lemma {:induction false} DoomedForever(m: State, n: nat)
    requires Invariant(m) && Doomed(m)
    ensures !CanReturnIn(m, n)
    decreases n
  {
    if n > 0 {
      forall a | Enabled(m, a) ensures !CanReturnIn(Next(m, a), n - 1) {
        InvariantKept(m, a);
        DoomedForever(Next(m, a), n - 1);
      }
    }
  }

  /** The next step toward a report. */
  function TowardReturn(m: State): Action {
    if m.server.Failed? then ReportFailure
    else if m.handler.loop.Returned? then ReportSignals
    else
      var h := S.TowardReturn(m.handler);
      if (h.GracefulReturns? || h.ForcedReturns?) && !m.closed then CloseServer else Handler(h)
  }

  function Distance(m: State): nat {
    if m.returned.Some? then 0
    else if m.server.Failed? then 1
    else 1 + S.Distance(m.handler) + (if m.closed then 0 else 1)
  }

  lemma {:induction false} NotDoomedReturns(m: State)
    requires Invariant(m) && !Doomed(m)
    ensures CanReturnIn(m, Distance(m))
    decreases Distance(m)
  {
    if m.returned.None? {
      var a := TowardReturn(m);
      InvariantKept(m, a);
      var t := Next(m, a);
      NotDoomedReturns(t);
      MoreSteps(t, Distance(t), Distance(m) - 1);
    }
  }

  lemma {:induction false} MoreSteps(m: State, n: nat, k: nat)
    requires CanReturnIn(m, n) && n <= k
    ensures CanReturnIn(m, k)
    decreases n
  {
    if m.returned.None? {
      var a :| Enabled(m, a) && CanReturnIn(Next(m, a), n - 1);
      MoreSteps(Next(m, a), n - 1, k - 1);
    }
  }

  /** ManageServer can still return exactly when it has returned, the server has failed on its
      own, or HandleSignals is not doomed. */
  lemma CanReturnIff(m: State, n: nat)
    requires ReachableIn(m, n)
    ensures CanReturn(m) <==> m.returned.Some? || m.server.Failed? || !S.Doomed(m.handler)
  {
    ReachableInvariant(m, n);
    if Doomed(m) {
      forall k: nat ensures !CanReturnIn(m, k) {
        DoomedForever(m, k);
      }
    } else {
      NotDoomedReturns(m);
    }
  }

  /** The state a sequence of actions leads to. */
  ghost predicate RunTo(run: seq<Action>, m: State)
    decreases |run|
  {
    if run == [] then m == START
    else
      var last := run[|run| - 1];
      exists p :: RunTo(run[..|run| - 1], p) && Enabled(p, last) && Next(p, last) == m
  }

  /** A value one of the three parties came up with in a run. */
  predicate CameUp(run: seq<Action>, v: S.Outcome) {
    ServerFails(v) in run || Handler(S.GracefulReturns(v)) in run || Handler(S.ForcedReturns(v)) in run
  }

  /** Where the values a state holds come from. */
  predicate Origins(run: seq<Action>, m: State) {
    && (m.server.Failed? ==> ServerFails(m.server.outcome) in run)
    && (forall r <- m.handler.finished ::
          Handler(if r.origin.Graceful? then S.GracefulReturns(r.value) else S.ForcedReturns(r.value)) in run)
    && (m.returned.Some? ==> CameUp(run, m.returned.value))
  }

  lemma OriginsKept(run: seq<Action>, m: State, a: Action)
    requires Invariant(m) && Origins(run, m) && Enabled(m, a)
    ensures Origins(run + [a], Next(m, a))
  {
    assert a in run + [a] && forall b <- run :: b in run + [a];
    if a.ReportSignals? {
      assert m.handler.sent[0] in m.handler.finished;
    }
  }

  lemma {:induction false} OriginsAlong(run: seq<Action>, m: State)
    requires RunTo(run, m)
    ensures Invariant(m) && Origins(run, m)
    decreases |run|
  {
    if run != [] {
      var rest, last := run[..|run| - 1], run[|run| - 1];
      var p :| RunTo(rest, p) && Enabled(p, last) && Next(p, last) == m;
      OriginsAlong(rest, p);
      InvariantKept(p, last);
      OriginsKept(rest, p, last);
      assert rest + [last] == run;
    }
  }

  /** What ManageServer returns is the error the server failed with or what one of the handlers
      returned, in that run. */
  lemma ReportedMeans(run: seq<Action>, m: State)
    requires RunTo(run, m) && m.returned.Some?
    ensures CameUp(run, m.returned.value)
  {
    OriginsAlong(run, m);
  }
}
