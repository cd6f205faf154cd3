/** The A* heuristic: per-axis distances, the winch "detour via the top",
    a direction-change term and a waiting term that pads up to the goal time. */
module Heuristics {
  import opened Wrappers
  import opened States
  import opened Kinematics

  function Abs(v: int): nat {
    if v < 0 then -v else v
  }

  function Max(a: int, b: int): int {
    if a < b then b else a
  }

  /** The skycar stands over the goal column; a wildcard x or y never counts
      as standing over it. */
  predicate SameColumn(s: State, goal: Goal) {
    goal.x == Some(s.x) && goal.y == Some(s.y)
  }

  function Dx(s: State, goal: Goal): nat {
    if goal.x.None? then 0 else Abs(goal.x.value - s.x)
  }

  function Dy(s: State, goal: Goal): nat {
    if goal.y.None? then 0 else Abs(goal.y.value - s.y)
  }

  /** Over the goal column the winch only has to travel the depth
      difference; anywhere else it must come up fully and go down again. */
  function Dz(s: State, goal: Goal): nat {
    if goal.z.None? then 0
    else if SameColumn(s, goal) then Abs(goal.z.value - s.z)
    else Abs(goal.z.value) + Abs(s.z)
  }

  /** With no goal direction: 0 when the remaining lateral distance lies
      along the current axis, else 1. With one: 0 exactly when it matches. */
  function DDir(s: State, goal: Goal): nat {
    match goal.direction
    case None =>
      if (Dx(s, goal) == 0 && s.direction == Y) || (Dy(s, goal) == 0 && s.direction == X) then 0 else 1
    case Some(d) => if s.direction == d then 0 else 1
  }

  /** The movement part of the estimate. */
  function Travel(s: State, goal: Goal): nat {
    Dx(s, goal) + Dy(s, goal) + Dz(s, goal) + DDir(s, goal)
  }

  /** Goal time 0 means "no deadline"; otherwise the time still to be
      spent waiting after arriving early. */
  function Dt(s: State, goal: Goal): nat
    requires goal.time.Some?
  {
    if goal.time.value == 0 then 0
    else
      var remaining := goal.time.value - s.time;
      if Travel(s, goal) < remaining then remaining - Travel(s, goal) else 0
  }

  /** Estimated remaining cost from `s` to `goal`. The goal time must be
      present: the source compares it with 0 and subtracts from it. */
  function Heuristic(s: State, goal: Goal): (h: int)
    requires goal.time.Some?
    ensures h >= 0
    ensures goal.time.value == 0 ==> h == Travel(s, goal)
    ensures goal.time.value != 0 ==> h == Max(Travel(s, goal), goal.time.value - s.time)
    ensures h >= Travel(s, goal)
  {
    Travel(s, goal) + Dt(s, goal)
  }

  /** A state is zero distance from the goal made of itself. */
  lemma HeuristicSelf(s: State)
    ensures Heuristic(s, Exactly(s)) == 0
  {
  }

  /** The winch detour: from (0,0) at depth 3 to (5,5) at the roof costs
      5 + 5 lateral and 3 + 0 vertical. */
  lemma HeuristicWinchDetour()
    ensures Heuristic(State(0, 0, 3, X, 0), Exactly(State(5, 5, 0, X, 0))) == 13
  {
  }

  /** One kinematic step from a state at or below the roof lowers the
      estimate by at most one. */
  lemma HeuristicConsistent(s: State, n: State, goal: Goal)
    requires goal.time.Some? && KinematicStep(s, n) && s.z >= 0
    ensures Heuristic(s, goal) <= Heuristic(n, goal) + 1
  {
    assert Travel(s, goal) <= Travel(n, goal) + 1 by {
      TravelConsistent(s, n, goal);
    }
  }

  lemma TravelConsistent(s: State, n: State, goal: Goal)
    requires KinematicStep(s, n) && s.z >= 0
    ensures Travel(s, goal) <= Travel(n, goal) + 1
  {
    if s.z > 0 {
      assert Dx(n, goal) == Dx(s, goal) && Dy(n, goal) == Dy(s, goal) && DDir(n, goal) == DDir(s, goal);
    } else if n.x == s.x && n.y == s.y && n.z == s.z {
      assert Dx(n, goal) == Dx(s, goal) && Dy(n, goal) == Dy(s, goal) && Dz(n, goal) == Dz(s, goal);
    } else if n.direction == s.direction && n.z == s.z && LateralUnit(s, n) {
      assert DDir(n, goal) == DDir(s, goal);
    } else {
      assert Dx(n, goal) == Dx(s, goal) && Dy(n, goal) == Dy(s, goal) && DDir(n, goal) == DDir(s, goal);
    }
  }

  /** At a solution the estimate is 0, provided the goal leaves the depth
      free, or the skycar stands over the goal column, or it is at the roof. */
  lemma HeuristicZeroAtGoal(s: State, goal: Goal)
    requires goal.time.Some? && IsSolution(s, goal)
    requires goal.z.None? || SameColumn(s, goal) || s.z == 0
    ensures Heuristic(s, goal) == 0
  {
  }

  /** Without that proviso the detour term charges twice the depth even at
      a solution: a goal of depth 2 at any cell, reached at depth 2. */
  lemma HeuristicPositiveAtWildcardColumn()
    ensures IsSolution(State(0, 0, 2, X, 0), Goal(None, None, Some(2), None, Some(0)))
    ensures Heuristic(State(0, 0, 2, X, 0), Goal(None, None, Some(2), None, Some(0))) == 4
  {
  }

  /** Admissibility: along any sequence of kinematic steps that starts at
      or below the roof and ends in a solution of the kind above, the estimate at the start does not exceed
      the number of steps. */
  lemma {:induction false} HeuristicAdmissible(path: seq<State>, goal: Goal)
    requires goal.time.Some? && |path| >= 1 && path[0].z >= 0
    requires forall i :: 0 <= i < |path| - 1 ==> KinematicStep(path[i], path[i + 1])
    requires IsSolution(path[|path| - 1], goal)
    requires goal.z.None? || SameColumn(path[|path| - 1], goal) || path[|path| - 1].z == 0
    ensures Heuristic(path[0], goal) <= |path| - 1
  {
    if |path| == 1 {
      HeuristicZeroAtGoal(path[0], goal);
    } else {
      var rest := path[1..];
      forall i | 0 <= i < |rest| - 1 ensures KinematicStep(rest[i], rest[i + 1]) {
        assert rest[i] == path[i + 1] && rest[i + 1] == path[i + 2];
      }
      HeuristicAdmissible(rest, goal);
      HeuristicConsistent(path[0], path[1], goal);
    }
  }
}
