/**
  The lifecycle of a task: the four values of `TaskStatusEnum`, the guards of
  the three transition methods of `TaskEntity`, and what they imply about any
  sequence of calls.
*/
module TaskStatus {
  import opened Wrappers

  /** `TaskStatusEnum`. */
  datatype Status = Wait | InProgress | Done | Closed

  /** The three state-changing methods of a task; `Complete` is the method `done`. */
  datatype Action = Start | Complete | Close

  /** One kind per distinct error a transition method throws. */
  datatype TransitionError =
    | StartedAgain       // `start` on a task that is not waiting
    | CompleteNotStarted // `done` on a task that is not in progress
    | ClosedAgain        // `close` on a task that is already closed

  /** Position of a status in the forward order wait < inProgress < done < closed. */
  function Rank(s: Status): nat
  {
    match s
    case Wait => 0
    case InProgress => 1
    case Done => 2
    case Closed => 3
  }

  /**
    The transition table, written edge by edge: `Edge(s, a, t)` holds when
    action `a` may move a task from `s` to `t`.
  */
  predicate Edge(s: Status, a: Action, t: Status)
  {
    || (s, a, t) == (Wait, Start, InProgress)
    || (s, a, t) == (InProgress, Complete, Done)
    || (s, a, t) == (Wait, Close, Closed)
    || (s, a, t) == (InProgress, Close, Closed)
    || (s, a, t) == (Done, Close, Closed)
  }

  /** The error that action `a` throws when its guard fails. */
  function ErrorOf(a: Action): TransitionError
  {
    match a
    case Start => StartedAgain
    case Complete => CompleteNotStarted
    case Close => ClosedAgain
  }

  /**
    What one call does to the status: each method checks its guard and either
    throws or assigns the new status.
  */
  function Step(a: Action, s: Status): (r: Result<Status, TransitionError>)
    ensures r.Success? ==> Edge(s, a, r.value) && Rank(s) < Rank(r.value)
    ensures r.Success? ==> r.value == Target(a)
    ensures r.Failure? ==> r.error == ErrorOf(a) && forall t :: !Edge(s, a, t)
    ensures s == Closed ==> r.Failure?
  {
    match a
    case Start =>
      if s != Wait then Failure(StartedAgain) else Success(InProgress)
    case Complete =>
      if s != InProgress then Failure(CompleteNotStarted) else Success(Done)
    case Close =>
      if s == Closed then Failure(ClosedAgain)
      else assert s == Wait || s == InProgress || s == Done; Success(Closed)
  }

  /** The guards agree with the transition table in both directions. */
  lemma StepFollowsTable(a: Action, s: Status, t: Status)
    ensures Step(a, s) == Success(t) <==> Edge(s, a, t)
  {
  }

  /** `start` succeeds exactly from `wait` and always leads to `inProgress`. */
  lemma StartLegality(s: Status)
    ensures Step(Start, s).Success? <==> s == Wait
    ensures Step(Start, s).Success? ==> Step(Start, s).value == InProgress
  {
  }

  /** `done` succeeds exactly from `inProgress` and always leads to `done`. */
  lemma CompleteLegality(s: Status)
    ensures Step(Complete, s).Success? <==> s == InProgress
    ensures Step(Complete, s).Success? ==> Step(Complete, s).value == Done
  {
  }

  /** `close` fails exactly from `closed` and otherwise always leads to `closed`. */
  lemma CloseLegality(s: Status)
    ensures Step(Close, s).Failure? <==> s == Closed
    ensures Step(Close, s).Success? ==> Step(Close, s).value == Closed
  {
  }

  /**
    The status after one call whose exception, if any, the caller catches:
    a failed call leaves the status as it was.
  */
  function After(a: Action, s: Status): (t: Status)
    ensures t == s || Rank(s) < Rank(t)
    ensures t == s <==> Step(a, s).Failure?
  {
    match Step(a, s)
    case Success(next) => next
    case Failure(_) => s
  }

  /** The status after the calls `actions`, in order, starting from `s`. */
  function Run(s: Status, actions: seq<Action>): (t: Status)
    ensures Rank(s) <= Rank(t)
    ensures s == Closed ==> t == Closed
    decreases |actions|
  {
    if actions == [] then s else Run(After(actions[0], s), actions[1..])
  }

  /** Running two sequences one after the other is running their concatenation. */
  lemma {:induction false} RunAppend(s: Status, xs: seq<Action>, ys: seq<Action>)
    ensures Run(s, xs + ys) == Run(Run(s, xs), ys)
    decreases |xs|
  {
    if xs == [] {
      assert xs + ys == ys;
    } else {
      assert (xs + ys)[1..] == xs[1..] + ys;
      RunAppend(After(xs[0], s), xs[1..], ys);
    }
  }

  /**
    Status never moves backwards: a later point of a run never has a lower
    rank than an earlier one.
  */
  lemma RunNeverMovesBack(s: Status, xs: seq<Action>, ys: seq<Action>)
    ensures Rank(Run(s, xs)) <= Rank(Run(s, xs + ys))
  {
    RunAppend(s, xs, ys);
  }

  /** Number of calls in `actions`, started from `s`, that succeed. */
  function Successes(s: Status, actions: seq<Action>): nat
    decreases |actions|
  {
    if actions == [] then 0
    else (if Step(actions[0], s).Success? then 1 else 0)
         + Successes(After(actions[0], s), actions[1..])
  }

  /** Number of calls of action `a` in `actions`, started from `s`, that succeed. */
  function SuccessesOf(a: Action, s: Status, actions: seq<Action>): nat
    decreases |actions|
  {
    if actions == [] then 0
    else (if actions[0] == a && Step(a, s).Success? then 1 else 0)
         + SuccessesOf(a, After(actions[0], s), actions[1..])
  }

  /**
    Every success raises the rank, so a task makes at most three successful
    transitions in its life, and none once it is closed.
  */
  lemma {:induction false} SuccessesBounded(s: Status, actions: seq<Action>)
    ensures Successes(s, actions) <= 3 - Rank(s)
    decreases |actions|
  {
    if actions != [] {
      SuccessesBounded(After(actions[0], s), actions[1..]);
    }
  }

  /** The status an action leads to when it succeeds (`Step` ensures it agrees). */
  function Target(a: Action): Status
  {
    match a
    case Start => InProgress
    case Complete => Done
    case Close => Closed
  }

  /** Once a task has reached the target of `a`, `a` can never succeed again. */
  lemma {:induction false} NoSuccessPastTarget(a: Action, s: Status, actions: seq<Action>)
    requires Rank(Target(a)) <= Rank(s)
    ensures SuccessesOf(a, s, actions) == 0
    decreases |actions|
  {
    if actions != [] {
      NoSuccessPastTarget(a, After(actions[0], s), actions[1..]);
    }
  }

  /**
    Each of `start`, `done` and `close` succeeds at most once in any sequence
    of calls, whatever the starting status.
  */
  lemma {:induction false} EachActionSucceedsAtMostOnce(a: Action, s: Status, actions: seq<Action>)
    ensures SuccessesOf(a, s, actions) <= 1
    decreases |actions|
  {
    if actions != [] {
      var next := After(actions[0], s);
      if actions[0] == a && Step(a, s).Success? {
        NoSuccessPastTarget(a, next, actions[1..]);
      } else {
        EachActionSucceedsAtMostOnce(a, next, actions[1..]);
      }
    }
  }

  /**
    Every status, including the ones tests force by overwriting the record,
    is reachable from a freshly constructed task through the public methods.
  */
  lemma EveryStatusReachable(t: Status)
    ensures exists actions :: Run(Wait, actions) == t
  {
    match t
    case Wait =>
      assert Run(Wait, []) == Wait;
    case InProgress =>
      assert Run(Wait, [Start]) == Run(InProgress, []);
    case Done =>
      assert Run(Wait, [Start, Complete]) == Run(InProgress, [Complete]);
      assert Run(InProgress, [Complete]) == Run(Done, []);
    case Closed =>
      assert Run(Wait, [Close]) == Run(Closed, []);
  }
}
