/** Space-time reservations and the layout pruning rules applied to the
    neighbours of the state being expanded. */
module ConstraintFilter {
  import opened Wrappers
  import opened States
  import opened Seqs

  /** A reserved state, or a reserved move from one state to the next. */
  datatype Constraint = Vertex(state: State) | Edge(from: State, to: State)

  predicate Reserved(current: State, n: State, constraints: set<Constraint>) {
    Vertex(n) in constraints || Edge(current, n) in constraints
  }

  /** Anti-oscillation: going straight back to where the last move came from. */
  predicate TurnsBack(prev: Option<State>, current: State, n: State) {
    prev.Some? && EqualExceptTime(n, prev.value) && !EqualExceptTime(current, prev.value)
  }

  /** Using the winch while on neither the goal row nor the goal column. */
  predicate LowersBeforeTarget(current: State, n: State, goal: Goal) {
    goal.x.Some? && goal.y.Some? && current.x != goal.x.value && current.y != goal.y.value && n.z != 0
  }

  /** Using the winch in a search that starts and ends at the roof. */
  predicate LeavesRoof(start: State, n: State, goal: Goal) {
    start.z == 0 && goal.z == Some(0) && n.z != 0
  }

  predicate Admitted(prev: Option<State>, current: State, n: State, constraints: set<Constraint>,
                     start: State, goal: Goal)
  {
    !Reserved(current, n, constraints) && !TurnsBack(prev, current, n)
    && !LowersBeforeTarget(current, n, goal) && !LeavesRoof(start, n, goal)
  }

  function AdmittedBy(prev: Option<State>, current: State, constraints: set<Constraint>,
                      start: State, goal: Goal): State -> bool
  {
    n => Admitted(prev, current, n, constraints, start, goal)
  }

  /** Drops every neighbour that a reservation or a pruning rule excludes,
      keeping the others in order. */
  method CheckConstraints(prev: Option<State>, current: State, neighbours: seq<State>,
                          constraints: set<Constraint>, start: State, goal: Goal)
    returns (constrained: seq<State>)
    ensures constrained == Filter(neighbours, AdmittedBy(prev, current, constraints, start, goal))
    ensures IsSubsequence(constrained, neighbours)
    ensures forall n :: n in constrained <==> n in neighbours && Admitted(prev, current, n, constraints, start, goal)
  {
    var keep := AdmittedBy(prev, current, constraints, start, goal);
    constrained := [];
    for i := 0 to |neighbours|
      invariant constrained == Filter(neighbours[..i], keep)
    {
      var neighbour := neighbours[i];
      assert neighbours[..i + 1] == neighbours[..i] + [neighbour];
      FilterSnoc(neighbours[..i], neighbour, keep);
      if Reserved(current, neighbour, constraints) || TurnsBack(prev, current, neighbour)
         || LowersBeforeTarget(current, neighbour, goal) || LeavesRoof(start, neighbour, goal)
      {
        continue;
      } else {
        constrained := constrained + [neighbour];
      }
    }
    assert neighbours[..|neighbours|] == neighbours;
    FilterIsSubsequence(neighbours, keep);
    FilterMembership(neighbours, keep);
  }
}
