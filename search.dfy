/** The time-expanded A* search for one skycar. */
module Search {
  import opened Wrappers
  import opened Seqs
  import opened States
  import opened Kinematics
  import opened Heuristics
  import opened ConstraintFilter
  import opened OpenList

  /** The search gives up once the open list holds more entries than this
      after an expansion. */
  const FrontierLimit := 80000

  /** Found carries the path and its cost. Exhausted: the open list ran
      empty. Aborted: it outgrew the limit. OutOfFuel: the model's bound
      on the number of expansions was spent. */
  datatype Outcome = Found(path: seq<State>, cost: int) | Exhausted | Aborted | OutOfFuel

  /** The arguments of one search call. */
  datatype Query = Query(start: State, goal: Goal, skycar: AgentId, constraints: Option<set<Constraint>>,
                         obstacles: ObstacleMap, bounds: Bounds)

  /** `n` may follow `current`, which was itself reached from `prev`: it is
      a legal neighbour (a kinematic step to a valid state, which is what
      the neighbour generator returns) and, when constraints are given, the
      filter keeps it. */
  predicate Successor(q: Query, prev: Option<State>, current: State, n: State) {
    KinematicStep(current, n) && IsValid(n, q.skycar, q.obstacles, q.bounds)
    && (q.constraints.Some? ==> Admitted(prev, current, n, q.constraints.value, q.start, q.goal))
  }

  /** The state the search came from when it reached `path[i]`; none for the start. */
  function PrevOf(path: seq<State>, i: nat): Option<State>
    requires i < |path|
  {
    if i == 0 then None else Some(path[i - 1])
  }

  /** A path from the start in which every state follows its predecessor. */
  predicate IsPlan(q: Query, path: seq<State>) {
    |path| >= 1 && path[0] == q.start
    && forall i :: 0 <= i < |path| - 1 ==> Successor(q, PrevOf(path, i), path[i], path[i + 1])
  }

  function Last(path: seq<State>): State
    requires |path| > 0
  {
    path[|path| - 1]
  }

  /** The search bookkeeping: every recorded state lies no earlier than the
      start and its g-score is the time elapsed since the start; only the
      start lacks a predecessor; every other state follows its predecessor. */
  ghost predicate Tree(q: Query, cameFrom: map<State, Option<State>>, gScores: map<State, int>) {
    q.start in cameFrom && cameFrom[q.start] == None && gScores.Keys == cameFrom.Keys
    && (forall s :: s in cameFrom ==> s.time >= q.start.time && gScores[s] == s.time - q.start.time)
    && (forall s :: s in cameFrom && cameFrom[s].None? ==> s == q.start)
    && (forall s :: s in cameFrom && cameFrom[s].Some? ==>
          cameFrom[s].value in cameFrom && Successor(q, cameFrom[cameFrom[s].value], cameFrom[s].value, s))
  }

  /** Recording a successor of an already recorded state keeps the tree. */
  lemma TreeExtend(q: Query, cameFrom: map<State, Option<State>>, gScores: map<State, int>, current: State, n: State)
    requires Tree(q, cameFrom, gScores) && current in cameFrom && n !in cameFrom
    requires Successor(q, cameFrom[current], current, n)
    ensures Tree(q, cameFrom[n := Some(current)], gScores[n := gScores[current] + 1])
  {
  }

  /** A recorded state reached again from a recorded state is reached at
      the same g-score: g-scores are elapsed times. */
  lemma ScoreIsElapsedTime(q: Query, cameFrom: map<State, Option<State>>, gScores: map<State, int>, current: State, n: State)
    requires Tree(q, cameFrom, gScores) && current in cameFrom && n in cameFrom
    requires KinematicStep(current, n)
    ensures gScores[n] == gScores[current] + 1
  {
  }

  /** Each state of `back` has the next one as its recorded predecessor. */
  ghost predicate Chain(cameFrom: map<State, Option<State>>, back: seq<State>) {
    (forall i :: 0 <= i < |back| ==> back[i] in cameFrom)
    && forall i :: 0 <= i < |back| - 1 ==> cameFrom[back[i]] == Some(back[i + 1])
  }

  /** A chain of predecessors that ends at the start, read backwards, is a plan. */
  lemma PlanFromChain(q: Query, cameFrom: map<State, Option<State>>, gScores: map<State, int>, back: seq<State>)
    requires Tree(q, cameFrom, gScores) && Chain(cameFrom, back)
    requires |back| >= 1 && Last(back) == q.start
    ensures IsPlan(q, Reversed(back)) && Last(Reversed(back)) == back[0] && |Reversed(back)| == |back|
  {
    ReversedAt(back);
    var path := Reversed(back);
    var n := |back|;
    forall i | 0 <= i < n - 1
      ensures Successor(q, PrevOf(path, i), path[i], path[i + 1])
    {
      var j := n - 2 - i;
      assert path[i + 1] == back[j] && path[i] == back[j + 1];
      assert back[j] in cameFrom && back[j + 1] in cameFrom;
      assert cameFrom[back[j]] == Some(back[j + 1]);
      assert Successor(q, cameFrom[back[j + 1]], back[j + 1], back[j]);
      if i == 0 {
        assert back[j + 1] == q.start && cameFrom[back[j + 1]] == None;
      } else {
        assert path[i - 1] == back[j + 2];
        assert cameFrom[back[j + 1]] == Some(back[j + 2]);
      }
    }
  }

  /** The states of a plan are one time step apart. */
  lemma {:induction false} PlanTimes(q: Query, path: seq<State>)
    requires IsPlan(q, path)
    ensures forall i :: 0 <= i < |path| ==> path[i].time == q.start.time + i
  {
    var i := 1;
    while i < |path|
      invariant 1 <= i <= |path|
      invariant forall k :: 0 <= k < i ==> path[k].time == q.start.time + k
    {
      assert Successor(q, PrevOf(path, i - 1), path[i - 1], path[i]);
      i := i + 1;
    }
  }

  /** Each move of a plan is to a state the neighbour generator returns,
      one time step later. */
  lemma PlanStepsAreNeighbours(q: Query, path: seq<State>, i: nat)
    requires IsPlan(q, path) && i + 1 < |path|
    ensures path[i + 1] in GetNeighbours(path[i], q.skycar, q.obstacles, q.bounds)
    ensures path[i + 1].time == path[i].time + 1
  {
    assert Successor(q, PrevOf(path, i), path[i], path[i + 1]);
  }

  /** A plan under constraints enters no reserved state after the start and
      makes no reserved move. */
  lemma PlanAvoidsReservations(q: Query, path: seq<State>, i: nat)
    requires IsPlan(q, path) && q.constraints.Some? && 1 <= i < |path|
    ensures Vertex(path[i]) !in q.constraints.value
    ensures Edge(path[i - 1], path[i]) !in q.constraints.value
  {
    assert Successor(q, PrevOf(path, i - 1), path[i - 1], path[i]);
  }

  /** Every open entry is recorded, not yet expanded, and carries the
      recorded g-score of its state. */
  ghost predicate OpenEntries(heap: seq<Entry>, closed: set<State>, gScores: map<State, int>) {
    forall e :: e in heap ==> e.state !in closed && e.state in gScores && e.g == gScores[e.state]
  }

  /** The invariant tying the open list, the closed set and the score maps together. */
  ghost predicate Bookkeeping(q: Query, heap: seq<Entry>, members: set<State>, closed: set<State>,
                              cameFrom: map<State, Option<State>>, gScores: map<State, int>,
                              fScores: map<State, int>)
  {
    Tree(q, cameFrom, gScores) && fScores.Keys == gScores.Keys
    && closed <= cameFrom.Keys && members <= cameFrom.Keys && OpenEntries(heap, closed, gScores)
  }

  /** Recording a new successor and adding its entry keeps the bookkeeping. */
  lemma Recorded(q: Query, heap: seq<Entry>, members: set<State>, closed: set<State>,
                 cameFrom: map<State, Option<State>>, gScores: map<State, int>, fScores: map<State, int>,
                 current: State, n: State, e: Entry, f: int)
    requires Bookkeeping(q, heap, members, closed, cameFrom, gScores, fScores)
    requires current in cameFrom && n !in cameFrom && Successor(q, cameFrom[current], current, n)
    requires e.state == n && e.g == gScores[current] + 1
    ensures Bookkeeping(q, heap + [e], members + {n}, closed, cameFrom[n := Some(current)],
                        gScores[n := gScores[current] + 1], fScores[n := f])
  {
    TreeExtend(q, cameFrom, gScores, current, n);
    var g' := gScores[n := gScores[current] + 1];
    forall d | d in heap + [e] ensures d.state !in closed && d.state in g' && d.g == g'[d.state] {
      if d in heap {
        assert d.state != n;
      }
    }
  }

  /** Expanding the state of a popped entry keeps the bookkeeping. */
  lemma Expanded(q: Query, heap: seq<Entry>, members: set<State>, closed: set<State>,
                 cameFrom: map<State, Option<State>>, gScores: map<State, int>, fScores: map<State, int>,
                 heap': seq<Entry>, popped: Entry, current: State)
    requires Bookkeeping(q, heap, members, closed, cameFrom, gScores, fScores)
    requires popped in heap && current == popped.state && current in members
    requires forall e :: e in heap' ==> e in heap && e.state != current
    ensures Bookkeeping(q, heap', members - {current}, closed + {current}, cameFrom, gScores, fScores)
    ensures current in cameFrom && current !in closed && popped.g == gScores[current]
  {
  }

  /** Expanding a state not expanded before keeps the expansion record free of repeats. */
  lemma ExpandedOnce(expanded: seq<State>, closed: set<State>, current: State)
    requires Distinct(expanded) && (forall s :: s in closed <==> s in expanded) && current !in closed
    ensures Distinct(expanded + [current]) && forall s :: s in closed + {current} <==> s in expanded + [current]
  {
  }

  /** The bookkeeping right after the start has been added. */
  lemma Initial(q: Query, e: Entry, f: int)
    requires e.state == q.start && e.g == 0
    ensures Bookkeeping(q, [e], {q.start}, {}, map[q.start := None], map[q.start := 0], map[q.start := f])
  {
  }

  /** Walks the predecessors back from `current` to the start and reverses
      the walk: the result is a plan ending at `current` whose number of
      moves is the time elapsed since the start. */
  method ReconstructPath(ghost q: Query, cameFrom: map<State, Option<State>>, ghost gScores: map<State, int>,
                         current: State)
    returns (path: seq<State>)
    requires Tree(q, cameFrom, gScores) && current in cameFrom
    ensures IsPlan(q, path) && Last(path) == current && |path| - 1 == current.time - q.start.time
  {
    path := [];
    var state := current;
    while cameFrom[state].Some?
      invariant state in cameFrom && Chain(cameFrom, path + [state])
      invariant (path + [state])[0] == current
      invariant |path| + state.time == current.time
      decreases state.time - q.start.time
    {
      path := path + [state];
      state := cameFrom[state].value;
    }
    path := path + [state];
    PlanFromChain(q, cameFrom, gScores, path);
    path := Reversed(path);
  }

  /** The neighbours the search considers after expanding `current`:
      the legal neighbours, passed through the constraint filter when
      constraints are given. */
  method Successors(q: Query, prev: Option<State>, current: State) returns (neighbours: seq<State>)
    ensures forall n :: n in neighbours <==> Successor(q, prev, current, n)
    ensures neighbours == if q.constraints.Some?
      then Filter(GetNeighbours(current, q.skycar, q.obstacles, q.bounds),
                  AdmittedBy(prev, current, q.constraints.value, q.start, q.goal))
      else GetNeighbours(current, q.skycar, q.obstacles, q.bounds)
  {
    neighbours := GetNeighbours(current, q.skycar, q.obstacles, q.bounds);
    if q.constraints.Some? {
      neighbours := CheckConstraints(prev, current, neighbours, q.constraints.value, q.start, q.goal);
    }
  }

  /** The recording branch of the inner loop: a neighbour seen for the
      first time gets `current` as its predecessor, the g-score `g` and
      an entry in the open list. */
  method RecordNeighbour(q: Query, openList: AStarQueue, current: State, neighbour: State, g: int,
                         cameFrom0: map<State, Option<State>>, gScores0: map<State, int>,
                         fScores0: map<State, int>)
    returns (cameFrom: map<State, Option<State>>, gScores: map<State, int>, fScores: map<State, int>)
    requires q.goal.time.Some? && openList.Valid() && neighbour !in openList.members
    modifies openList
    ensures openList.Valid()
    ensures var h := Heuristic(neighbour, q.goal);
      cameFrom == cameFrom0[neighbour := Some(current)] && gScores == gScores0[neighbour := g]
      && fScores == fScores0[neighbour := g + h]
      && openList.heap == old(openList.heap) + [Entry(g + h, h, g, old(openList.counter), neighbour)]
      && openList.members == old(openList.members) + {neighbour}
      && openList.counter == old(openList.counter) + 1
  {
    var h := Heuristic(neighbour, q.goal);
    var f := g + h;
    openList.Add(neighbour, f, g, h);
    gScores := gScores0[neighbour := g];
    fScores := fScores0[neighbour := f];
    cameFrom := cameFrom0[neighbour := Some(current)];
  }

  /** The inner loop of the search. Expanded neighbours are skipped. So
      are recorded ones, since a recorded state is never reached more
      cheaply later (the improvement branch is unreachable). Any other
      neighbour is recorded as `RecordNeighbour` states. The open-list
      and bookkeeping invariants are kept throughout. */
  method ExpandNeighbours(q: Query, openList: AStarQueue, closed: set<State>, current: State,
                          prev: Option<State>, neighbours: seq<State>,
                          cameFrom0: map<State, Option<State>>, gScores0: map<State, int>,
                          fScores0: map<State, int>)
    returns (cameFrom: map<State, Option<State>>, gScores: map<State, int>, fScores: map<State, int>)
    requires q.goal.time.Some? && openList.Valid()
    requires Bookkeeping(q, openList.heap, openList.members, closed, cameFrom0, gScores0, fScores0)
    requires current in cameFrom0 && cameFrom0[current] == prev
    requires forall n :: n in neighbours ==> Successor(q, prev, current, n)
    modifies openList
    ensures openList.Valid()
    ensures Bookkeeping(q, openList.heap, openList.members, closed, cameFrom, gScores, fScores)
  {
    cameFrom, gScores, fScores := cameFrom0, gScores0, fScores0;
    var goal := q.goal;
    for i := 0 to |neighbours|
      invariant openList.Valid()
      invariant Bookkeeping(q, openList.heap, openList.members, closed, cameFrom, gScores, fScores)
      invariant current in cameFrom && cameFrom[current] == prev
    {
      var neighbour := neighbours[i];
      if neighbour in closed {
        continue;
      }
      var g := gScores[current] + 1;
      // A wait at a spatially reached goal is charged the same unit step.
      if IsSolutionExceptTime(current, goal) && EqualExceptTime(neighbour, current) {
        g := gScores[current] + 1;
      }
      assert Successor(q, prev, current, neighbour);
      if neighbour in gScores {
        ScoreIsElapsedTime(q, cameFrom, gScores, current, neighbour);
        if g < gScores[neighbour] {
          // Every g-score is the time elapsed since the start, so a state
          // is never reached more cheaply later: the improvement never happens.
          assert false;
        }
      } else {
        ghost var heap0, members0, counter0 := openList.heap, openList.members, openList.counter;
        ghost var cameFrom1, gScores1, fScores1 := cameFrom, gScores, fScores;
        ghost var h := Heuristic(neighbour, goal);
        cameFrom, gScores, fScores := RecordNeighbour(q, openList, current, neighbour, g,
                                                      cameFrom, gScores, fScores);
        Recorded(q, heap0, members0, closed, cameFrom1, gScores1, fScores1, current, neighbour,
                 Entry(g + h, h, g, counter0, neighbour), g + h);
      }
    }
  }

  /** Search from `start` for a state solving `goal`. On success the path
      is a plan from the start ending in a solution and its cost is its
      number of moves. `expanded` lists the expanded states in order (none
      twice); the search stops at the first solution it expands, so no
      earlier expanded state, and on failure none at all, solves the goal.
      `frontier` reports the final size of the open list. */
  method AStar(start: State, goal: Goal, skycar: AgentId, constraints: Option<set<Constraint>>,
               obstacles: ObstacleMap, bounds: Bounds, fuel: nat)
    returns (result: Outcome, ghost expanded: seq<State>, ghost frontier: nat)
    requires goal.time.Some?
    ensures result.Found? ==>
      IsPlan(Query(start, goal, skycar, constraints, obstacles, bounds), result.path)
      && IsSolution(Last(result.path), goal)
      && result.cost == |result.path| - 1 == Last(result.path).time - start.time
    ensures result.Found? ==> |expanded| >= 1 && Last(expanded) == Last(result.path)
    ensures Distinct(expanded) && |expanded| <= fuel
    ensures result.Exhausted? ==> frontier == 0
    ensures result.OutOfFuel? ==> |expanded| == fuel
    ensures forall i :: 0 <= i < |expanded| && (i < |expanded| - 1 || !result.Found?) ==>
      !IsSolution(expanded[i], goal)
    ensures result.Aborted? ==> frontier > FrontierLimit
  {
    var q := Query(start, goal, skycar, constraints, obstacles, bounds);
    var openList := new AStarQueue();
    var closed: set<State> := {};
    var cameFrom: map<State, Option<State>> := map[];
    var gScores: map<State, int> := map[];
    var fScores: map<State, int> := map[];

    var g := 0;
    var h := Heuristic(start, goal);
    var f := g + h;
    openList.Add(start, f, g, h);
    cameFrom := cameFrom[start := None];
    gScores := gScores[start := g];
    fScores := fScores[start := f];
    Initial(q, Entry(f, h, g, 0, start), f);

    expanded := [];
    var remaining := fuel;
    while openList.Len() != 0
      invariant openList.Valid()
      invariant Bookkeeping(q, openList.heap, openList.members, closed, cameFrom, gScores, fScores)
      invariant Distinct(expanded) && forall s :: s in closed <==> s in expanded
      invariant |expanded| + remaining == fuel
      invariant forall s :: s in expanded ==> !IsSolution(s, goal)
      decreases remaining
    {
      if remaining == 0 {
        result, frontier := OutOfFuel, openList.Len();
        return;
      }
      remaining := remaining - 1;
      ghost var heap0, members0 := openList.heap, openList.members;
      var current, currentF, currentG, currentH := openList.Pop();
      ghost var popped := heap0[MinIndex(heap0)];
      Expanded(q, heap0, members0, closed, cameFrom, gScores, fScores, openList.heap, popped, current);
      ExpandedOnce(expanded, closed, current);
      closed := closed + {current};
      expanded := expanded + [current];

      if IsSolution(current, goal) {
        var cost := currentG;
        var path := ReconstructPath(q, cameFrom, gScores, current);
        result, frontier := Found(path, cost), openList.Len();
        return;
      }

      var prev := cameFrom[current];
      var neighbours := Successors(q, prev, current);
      cameFrom, gScores, fScores := ExpandNeighbours(q, openList, closed, current, prev, neighbours,
                                                     cameFrom, gScores, fScores);

      if openList.Len() > FrontierLimit {
        result, frontier := Aborted, openList.Len();
        return;
      }
    }
    result, frontier := Exhausted, openList.Len();
  }
}
