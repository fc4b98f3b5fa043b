/**
 The StartAttempt widget of `src/components/StartAttempt.tsx`: two state
 cells (the attempts left and whether a quiz is in progress) and three
 buttons. A button whose `disabled` condition holds cannot be clicked, so a
 handler only ever runs in a state where its button is enabled.
 */
module StartAttempt {

  datatype State = State(attempts: int, begun: bool)

  datatype Button = StartQuiz | StopQuiz | Mulligan

  /** Four attempts, no quiz running. */
  const Initial: State := State(4, false)

  /** The `disabled` condition of each button. */
  predicate Disabled(s: State, b: Button)
  {
    match b
    case StartQuiz => s.begun || s.attempts == 0
    case StopQuiz => !s.begun
    case Mulligan => s.begun
  }

  /** What each click handler does to the state. */
  function Step(s: State, b: Button): State
  {
    match b
    case StartQuiz => State(s.attempts - 1, true)
    case StopQuiz => State(s.attempts, false)
    case Mulligan => State(s.attempts + 1, s.begun)
  }

  /** Which buttons can be clicked in each state: while a quiz runs only Stop is enabled,
      so the count cannot change; otherwise Mulligan always is, Start exactly when
      attempts remain, and Stop never. */
  lemma EnabledButtons(s: State, b: Button)
    ensures s.begun ==> (!Disabled(s, b) <==> b == StopQuiz)
    ensures s.begun && !Disabled(s, b) ==> Step(s, b).attempts == s.attempts
    ensures !s.begun ==> !Disabled(s, Mulligan) && Disabled(s, StopQuiz)
    ensures !s.begun ==> (!Disabled(s, StartQuiz) <==> s.attempts != 0)
  {
  }

  /** No negative count of attempts. */
  predicate Inv(s: State)
  {
    s.attempts >= 0
  }

  /** Clicks that each hit an enabled button. */
  predicate Enabled(s: State, clicks: seq<Button>)
    decreases |clicks|
  {
    clicks == [] || (!Disabled(s, clicks[0]) && Enabled(Step(s, clicks[0]), clicks[1..]))
  }

  /** The states a run of clicks passes through, starting with `s`. */
  function Visited(s: State, clicks: seq<Button>): (states: seq<State>)
    ensures |states| == |clicks| + 1 && states[0] == s
    ensures forall i | 0 <= i < |clicks| :: states[i + 1] == Step(states[i], clicks[i])
    decreases |clicks|
  {
    if clicks == [] then [s] else [s] + Visited(Step(s, clicks[0]), clicks[1..])
  }

  /** The state after a run of clicks. */
  function Run(s: State, clicks: seq<Button>): State
    decreases |clicks|
  {
    if clicks == [] then s else Run(Step(s, clicks[0]), clicks[1..])
  }

  /** How often `b` occurs in `clicks`. */
  function Count(clicks: seq<Button>, b: Button): nat
  {
    if clicks == [] then 0 else (if clicks[0] == b then 1 else 0) + Count(clicks[1..], b)
  }

  /** Over any run of enabled clicks from a state with no negative count, the count never
      goes negative, and it never changes on a click made while a quiz is running. */
  lemma {:induction false} EnabledRunsKeepInvariant(s: State, clicks: seq<Button>)
    requires Inv(s) && Enabled(s, clicks)
    ensures var states := Visited(s, clicks);
      && (forall i | 0 <= i < |states| :: Inv(states[i]))
      && (forall i | 0 <= i < |clicks| && states[i].begun :: states[i + 1].attempts == states[i].attempts)
    decreases |clicks|
  {
    if clicks != [] {
      var next := Step(s, clicks[0]);
      EnabledRunsKeepInvariant(next, clicks[1..]);
      var states := Visited(s, clicks);
      assert states == [s] + Visited(next, clicks[1..]);
      forall i | 1 <= i < |states| ensures Inv(states[i]) {
        assert states[i] == Visited(next, clicks[1..])[i - 1];
      }
    }
  }

  /** From the initial state every enabled run keeps a non-negative count. */
  lemma InitialRunsKeepInvariant(clicks: seq<Button>)
    requires Enabled(Initial, clicks)
    ensures forall i | 0 <= i < |clicks| + 1 :: Visited(Initial, clicks)[i].attempts >= 0
  {
    EnabledRunsKeepInvariant(Initial, clicks);
  }

  /** The count after any run: the starting count, minus one per start, plus one per mulligan. */
  lemma {:induction false} RunAttempts(s: State, clicks: seq<Button>)
    ensures Run(s, clicks).attempts == s.attempts - Count(clicks, StartQuiz) + Count(clicks, Mulligan)
    decreases |clicks|
  {
    if clicks != [] {
      RunAttempts(Step(s, clicks[0]), clicks[1..]);
    }
  }

  /** The widget's two state cells. */
  class AttemptTracker {
    var attempts: int
    var begun: bool

    function Current(): State
      reads this
    {
      State(attempts, begun)
    }

    constructor ()
      ensures Current() == Initial
    {
      attempts := 4;
      begun := false;
    }

    /** The "Start Quiz" handler. */
    method Start()
      requires !Disabled(Current(), StartQuiz)
      modifies this
      ensures Current() == Step(old(Current()), StartQuiz)
      ensures begun && attempts == old(attempts) - 1
      ensures Inv(old(Current())) ==> Inv(Current())
    {
      begun := true;
      attempts := attempts - 1;
    }

    /** The "Stop Quiz" handler. */
    method Stop()
      requires !Disabled(Current(), StopQuiz)
      modifies this
      ensures Current() == Step(old(Current()), StopQuiz)
      ensures !begun && attempts == old(attempts)
      ensures Inv(old(Current())) ==> Inv(Current())
    {
      begun := false;
    }

    /** The "Mulligan" handler. */
    method TakeMulligan()
      requires !Disabled(Current(), Mulligan)
      modifies this
      ensures Current() == Step(old(Current()), Mulligan)
      ensures attempts == old(attempts) + 1 && begun == old(begun)
      ensures Inv(old(Current())) ==> Inv(Current())
    {
      attempts := attempts + 1;
    }
  }
}
