/** The search state of a skycar and the partially specified goal it is
    searching for, with the goal tests of the pathfinder. */
module States {
  import opened Wrappers

  /** The axis the skycar currently travels along. */
  datatype Direction = X | Y

  /** A grid cell (x, y), a winch depth z (0 is the roof level, larger is
      lower into the storage column), a travel axis and a time step. */
  datatype State = State(x: int, y: int, z: int, direction: Direction, time: int)

  /** A goal has the shape of a state; an absent field is a wildcard. */
  datatype Goal = Goal(x: Option<int>, y: Option<int>, z: Option<int>,
                       direction: Option<Direction>, time: Option<int>)

  /** The goal that asks for exactly the place, direction and time of `s`. */
  function Exactly(s: State): Goal {
    Goal(Some(s.x), Some(s.y), Some(s.z), Some(s.direction), Some(s.time))
  }

  /** Same place and direction, whatever the times. */
  predicate EqualExceptTime(a: State, b: State) {
    a.x == b.x && a.y == b.y && a.z == b.z && a.direction == b.direction
  }

  /** An absent goal field accepts any value; a present one only itself. */
  predicate Matches<T(==)>(want: Option<T>, have: T) {
    want.None? || want.value == have
  }

  /** An absent goal time accepts any time; a present one any time at or after it. */
  predicate Reached(want: Option<int>, time: int) {
    want.None? || time >= want.value
  }

  predicate IsSolution(s: State, goal: Goal) {
    Matches(goal.x, s.x) && Matches(goal.y, s.y) && Matches(goal.z, s.z)
    && Matches(goal.direction, s.direction) && Reached(goal.time, s.time)
  }

  predicate IsSolutionExceptTime(s: State, goal: Goal) {
    Matches(goal.x, s.x) && Matches(goal.y, s.y) && Matches(goal.z, s.z)
    && Matches(goal.direction, s.direction)
  }

  /** A goal test is the spatial test plus the arrival-or-later time test. */
  lemma SolutionSplits(s: State, goal: Goal)
    ensures IsSolution(s, goal) <==> IsSolutionExceptTime(s, goal) && (goal.time.None? || s.time >= goal.time.value)
  {
  }

  lemma SolutionImpliesExceptTime(s: State, goal: Goal)
    requires IsSolution(s, goal)
    ensures IsSolutionExceptTime(s, goal)
  {
  }

  /** The spatial goal test cannot tell apart two states that differ only in time. */
  lemma ExceptTimeIgnoresTime(a: State, b: State, goal: Goal)
    requires EqualExceptTime(a, b)
    ensures IsSolutionExceptTime(b, goal) == IsSolutionExceptTime(a, goal)
  {
  }

  /** Once a state solves the goal, waiting in place keeps solving it. */
  lemma SolutionPersists(a: State, b: State, goal: Goal)
    requires IsSolution(a, goal) && EqualExceptTime(a, b) && b.time >= a.time
    ensures IsSolution(b, goal)
  {
  }

  /** A goal of wildcards only is solved by every state. */
  lemma WildcardGoalSolvedByAll(s: State)
    ensures IsSolution(s, Goal(None, None, None, None, None))
  {
  }

  /** `Exactly(s)` is solved by the states at the place of `s` at its time or later. */
  lemma ExactlyCharacterised(s: State, t: State)
    ensures IsSolution(t, Exactly(s)) <==> EqualExceptTime(t, s) && t.time >= s.time
  {
  }

  /** Goal x = 5, time 2, everything else wildcard: reached at time 3, not at time 1. */
  lemma WildcardGoalExample()
    ensures IsSolution(State(5, 5, 0, X, 3), Goal(Some(5), None, None, None, Some(2)))
    ensures !IsSolution(State(5, 5, 0, X, 1), Goal(Some(5), None, None, None, Some(2)))
  {
  }
}
