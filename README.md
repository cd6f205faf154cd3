# Skycar pathfinder: a verified Dafny model

This project models the motion-planning core of a warehouse simulator. A
grid robot (a "skycar") has a vertical winch and moves through a 3-D
storage cube. It plans a path with a time-expanded A* search over states
`(x, y, z, direction, time)`:

- The goal may leave any field open.
- The obstacle map blocks cells (except for their owner's own job).
- Externally supplied vertex and edge reservations filter the
  neighbours, together with three layout pruning rules.
- The open list has deterministic tie-breaking and no decrease-key.

The modules follow the components of `test1.py`:

| file | module | models |
|---|---|---|
| `wrappers.dfy` | `Wrappers` | `Option`, for the goal's wildcard fields and the start's missing predecessor |
| `seqs.dfy` | `Seqs` | order-preserving filter (list comprehension), subsequence, reversal |
| `states.dfy` | `States` | `State`, `Goal`, `equal_except_time`, `is_solution`, `is_solution_except_time` |
| `kinematics.dfy` | `Kinematics` | obstacle map, cube bounds, `is_valid`, `get_neighbours` |
| `heuristics.dfy` | `Heuristics` | `heuristic` and its admissibility |
| `constraint_filter.dfy` | `ConstraintFilter` | constraint datatype and `check_constraints` |
| `open_list.dfy` | `OpenList` | class `A_Star_Queue` (`add`, `pop`, `__len__`) |
| `search.dfy` | `Search` | `a_star` |

Modelling choices:

- The direction string becomes the enum `Direction = X | Y`.
- `None` in a goal becomes `Option.None`.
- The constraint set mixes bare states and `(current, neighbour)` tuples. It becomes `set<Constraint>` with `Vertex(s)` and `Edge(a, b)`.
- The global obstacle registry, keyed by strings `"x,y"`, becomes an injected `map<(int, int), Obstacle>`.
- The cube maxima are a `Bounds` parameter. `CubeBounds` holds the configured 14/14/3.

The search stores its state in local maps, just as the source does. What each
operation changes is stated in its contract:

- `AStarQueue` is a class. Its `heap`, `counter` and membership-set fields are updated in place.
- `check_constraints` is a method with a loop, proved equal to a filter function.
- `a_star` is a method with loops, proved against a plan predicate.
- `IsPlan` is that plan predicate. A plan starts at the start state. Each next state is a kinematic step to a valid state, which is exactly what `get_neighbours` returns. When constraints are given, the filter admits each step, using the state before it as the "previous" state.

In these places the model follows the code where a reader might expect otherwise:

- Abort test: the search gives up when the open list holds more than 80000 entries after an expansion (test1.py:120). The iteration counter (test1.py:117) is never tested.
- Lower bounds: `is_valid` hard-codes 0 as the lower bound of every axis (test1.py:309-311). The configured minima are ignored.
- Missing goal time: the heuristic treats goal time 0 as "no deadline". It fails on a missing goal time (test1.py:403-406). `a_star` calls it on the goal before anything else (test1.py:46). So `Heuristic` and `AStar` require the goal time to be present. `IsSolution` still treats a missing time as a wildcard (test1.py:206-209).
- g-scores never decrease, because they never change at all. Every edge adds one time step and costs one, so a recorded g-score always equals the time elapsed since the start. The improvement branch (test1.py:96-103) can therefore never run. The model proves this: that branch holds `assert false`.
- The wait-at-goal special case (test1.py:89-92) recomputes the same g. The model keeps the redundant assignment.

## Model

| member | source | states |
|---|---|---|
| `Seqs.Filter` | test1.py:283 | the filtered list is no longer than the input, and holds only input elements that satisfy the predicate |
| `Seqs.FilterIsSubsequence` | test1.py:283-287 | filtering keeps elements in their original order (the result is a subsequence) |
| `Seqs.Reversed` | test1.py:69 | the list read back to front, as `path.reverse()` leaves it |
| `Seqs.ReversedAt` | test1.py:69 | reversal keeps the length and puts element `k` at position `len-1-k` |
| `States.EqualExceptTime` | test1.py:166-172 | defined as equality of x, y, z and direction, with time ignored |
| `States.IsSolution` | test1.py:175-211 | defined field by field: each present goal coordinate and direction must be equal; a present goal time must be reached or passed; an absent field accepts anything |
| `States.IsSolutionExceptTime` | test1.py:214-243 | the same field-by-field test without the time field |
| `States.SolutionSplits` | test1.py:175-243 | `is_solution` is the spatial test plus "goal time absent or state time >= goal time" |
| `States.SolutionImpliesExceptTime` | test1.py:175-243 | every solution also passes the spatial test |
| `States.ExceptTimeIgnoresTime` | test1.py:166-172 | states equal except for time pass or fail the spatial test together |
| `States.SolutionPersists` | test1.py:175-211 | waiting in place after reaching a solution still solves the goal |
| `States.WildcardGoalSolvedByAll` | test1.py:175-211 | a goal with every field absent is solved by every state |
| `States.ExactlyCharacterised` | test1.py:166-211 | a fully specified goal is solved by the same place and direction at that time or later |
| `States.WildcardGoalExample` | test1.py:175-211 | goal x=5, time 2: state (5,5,0,x,3) solves it; state (5,5,0,x,1) does not |
| `Kinematics.WithinLimits` | test1.py:308-312 | each axis lies in 0..maximum; the lower bound 0 is built in |
| `Kinematics.IsBlocked` | test1.py:317-324 | a cell is blocked when it is listed and its obstacle has no job, or a job owned by another skycar |
| `Kinematics.IsValid` | test1.py:305-326 | within the limits and not blocked for this skycar |
| `Kinematics.Candidates` | test1.py:257-280 | the three moves while lowered (hold, lower one level, raise one level) and the five at the roof (hold, turn, forward, back along the axis, begin lowering), in the source's order, one time step later |
| `Kinematics.KinematicStep` | test1.py:257-280 | the reference definition of a legal move, stated rule by rule rather than as a list |
| `Kinematics.CandidatesAreSteps` | test1.py:257-280 | the listed candidates are exactly the kinematic steps: hold, lower or raise one level while lowered; hold, turn, one cell along the axis, or begin lowering at the roof; time always +1 |
| `Kinematics.GetNeighbours` | test1.py:246-287 | neighbours are exactly the kinematic steps that are valid, in candidate order; at most 3 while lowered and 5 at the roof |
| `Kinematics.NeighbourRules` | test1.py:246-326 | each neighbour is one step later and inside 0..max on every axis. Its cell is either free or owned by this skycar's job. While lowered it keeps x, y and direction and moves z by at most 1. At the roof it moves laterally only along its axis |
| `Heuristics.Dx` | test1.py:355-358 | 0 for a wildcard x, else the absolute x difference |
| `Heuristics.Dy` | test1.py:361-364 | 0 for a wildcard y, else the absolute y difference |
| `Heuristics.Dz` | test1.py:366-373 | 0 for a wildcard z. Over the goal column it is the depth difference; elsewhere it is the sum of both depths |
| `Heuristics.DDir` | test1.py:375-385 | with no goal direction: 0 when the remaining lateral distance lies along the current axis, else 1. With a goal direction: 0 exactly when the two match |
| `Heuristics.Travel` | test1.py:413 | the sum dx + dy + dz + ddir |
| `Heuristics.Dt` | test1.py:403-411 | 0 for goal time 0; otherwise the time still to go beyond the travel estimate, or 0 |
| `Heuristics.Heuristic` | test1.py:329-413 | never negative and never below the travel estimate dx+dy+dz+ddir. With goal time 0 it equals that estimate; otherwise it is the larger of the estimate and the time still to go |
| `Heuristics.HeuristicSelf` | test1.py:355-413 | the estimate from a state to the goal made of itself is 0 |
| `Heuristics.HeuristicWinchDetour` | test1.py:366-373 | from (0,0) at depth 3 to (5,5) at the roof the estimate is 13 (5+5 lateral, 3+0 vertical) |
| `Heuristics.TravelConsistent` | test1.py:355-385 | a kinematic step from depth >= 0 lowers the travel estimate by at most 1 |
| `Heuristics.HeuristicConsistent` | test1.py:355-413 | a kinematic step from depth >= 0 lowers the heuristic by at most 1 (consistency) |
| `Heuristics.HeuristicZeroAtGoal` | test1.py:355-413 | the estimate is 0 at a solution, when the goal leaves z open, or the state is over the goal column, or at the roof |
| `Heuristics.HeuristicPositiveAtWildcardColumn` | test1.py:366-373 | that proviso is needed: at a solution of "depth 2, any cell" the detour term gives 4 |
| `Heuristics.HeuristicAdmissible` | test1.py:329-413 | along any walk of kinematic steps from depth >= 0 to such a solution, the start's estimate is at most the number of steps |
| `ConstraintFilter.Reserved` | test1.py:295 | the neighbour is a reserved state, or the move from `current` to it is a reserved edge |
| `ConstraintFilter.TurnsBack` | test1.py:296 | there is a previous state; the neighbour returns to its place and direction; and `current` had left it |
| `ConstraintFilter.LowersBeforeTarget` | test1.py:297 | the goal fixes x and y; `current` lies on neither the goal row nor the goal column; and the neighbour is below the roof |
| `ConstraintFilter.LeavesRoof` | test1.py:298 | the start is at the roof, the goal asks for the roof, and the neighbour is below it. An absent goal z never triggers this rule, as in the source's chained comparison |
| `ConstraintFilter.Admitted` | test1.py:295-298 | a neighbour is kept exactly when none of the four rules above applies |
| `ConstraintFilter.CheckConstraints` | test1.py:290-302 | the result is the order-preserving subsequence of the neighbours that are not pruned. Pruned means: a vertex reservation; an edge reservation from `current`; a return to `prev`'s place right after leaving it; using the winch while on neither goal coordinate of an x,y goal; using the winch when start and goal are both at the roof |
| `OpenList.EntryLe` | test1.py:143-147 | the tuple order heapq applies to `(f, h, g, count, state)`: lexicographic on f, then h, then g, then the insertion number; the state is never compared because insertion numbers differ |
| `OpenList.MinIndex` | test1.py:145-149 | the index of an entry least in the lexicographic (f, h, g, insertion number) order |
| `OpenList.LeastIsUnique` | test1.py:143-147 | with distinct insertion numbers, an entry that is at most the least entry is that same entry, so the entry `heappop` takes does not depend on the heap layout |
| `OpenList.DistinctStatesCount` | test1.py:136-143 | with no state entered twice, the number of member states is the heap length |
| `OpenList.Pushed` | test1.py:142-143 | pushing a non-member with the next insertion number keeps the open-list invariant and adds the state to the members |
| `OpenList.Removed` | test1.py:147-148 | removing an entry keeps the invariant and drops exactly its state from the members |
| `OpenList.AStarQueue.constructor` | test1.py:131-134 | a new open list is empty, with counter 0 and no members |
| `OpenList.AStarQueue.Add` | test1.py:136-143 | adding a member changes nothing. Adding a non-member appends the entry with the current counter, increments the counter and adds the member. The invariant is kept: members are the heap's states, no duplicates |
| `OpenList.AStarQueue.Pop` | test1.py:145-149 | returns the least entry's state, f, g and h, where least is by (f, h, g, insertion number). No other entry is as small, so that entry is the unique minimum. It removes exactly that entry and clears its membership. The invariant is kept |
| `OpenList.AStarQueue.Len` | test1.py:157-158 | the length equals the number of member states |
| `Search.Initial` | test1.py:45-52 | after the start is added, the bookkeeping invariant holds |
| `Search.Expanded` | test1.py:56-57 | the popped state is recorded and was not yet closed. Its g is its recorded g-score. Closing it keeps the invariant |
| `Search.ExpandedOnce` | test1.py:57 | closing a state not closed before keeps the record of expansions free of repeats |
| `Search.TreeExtend` | test1.py:108-115 | recording a successor with g one more than its predecessor's keeps the search tree invariant |
| `Search.Recorded` | test1.py:108-115 | recording a new neighbour and adding its open entry keeps the whole bookkeeping invariant |
| `Search.ScoreIsElapsedTime` | test1.py:84-103 | a recorded neighbour of a recorded state has g-score exactly one more, so `g < g_scores[neighbour]` never holds |
| `Search.Successors` | test1.py:75-78 | the list is the neighbour generator's output, in its order, passed through the constraint filter when constraints are given. Its members are exactly the valid kinematic steps that the filter admits |
| `Search.ExpandNeighbours` | test1.py:80-115 | relaxing the neighbours keeps the open-list and bookkeeping invariants. The improvement branch is proved unreachable |
| `Search.RecordNeighbour` | test1.py:108-115 | a first-seen neighbour gets `current` as its predecessor, g-score `g` and f-score `g + h`. Its entry `(g+h, h, g, counter)` is appended to the open list, the counter goes up by one and the state becomes a member. Nothing else changes |
| `Search.ReconstructPath` | test1.py:61-69 | walking predecessors back from a recorded state and reversing gives a plan from the start. It ends at that state, and its number of moves is the elapsed time |
| `Search.PlanFromChain` | test1.py:64-69 | a predecessor chain ending at the start, once reversed, is a plan |
| `Search.PlanTimes` | test1.py:84-115 | the i-th state of a plan is at start time + i |
| `Search.PlanStepsAreNeighbours` | test1.py:75 | each next state of a plan is among the neighbours the generator returns for the previous one |
| `Search.PlanAvoidsReservations` | test1.py:77-78 | under constraints, no state of a plan after the start is vertex-reserved, and no move is edge-reserved |
| `Search.AStar` | test1.py:16-125 | on success the path is a plan from the start, ends in a solution, and has cost equal to its number of moves (and to the elapsed time). Expanded states never repeat, and the search stops at the first solution it expands: no earlier expanded state solves the goal, and after a failure no expanded state does. OutOfFuel means the whole expansion budget was used. Exhausted means the reported frontier size is 0; Aborted means the reported size exceeds 80000 |

## Left out

- init_collections.py is not part of this model. It covers warehouse bootstrap, the process-wide registries and their external factories. Only the shape of the obstacle registry is kept, as the injected `ObstacleMap`.
- The configuration module is reduced to the constant `CubeBounds`. The configured minima play no part, as in `is_valid`.
- `heapq` internals are not modelled: the heap is a sequence with a minimum-extraction contract, and the heap layout is left out. `itertools.count` is the integer field `counter`.
- `Search.ReconstructPath` reverses the path with the function `Seqs.Reversed`, not in place. Python's `list.reverse()` is a library call.
- The unused `iterations` counter of `a_star` is left out, since nothing reads it.
- `A_Star_Queue.__str__`, the demo under `__main__`, and the `print` fall-through for an unknown direction are left out. The direction enum makes that fall-through impossible.
- The `"x,y"` string keys of obstacle cells become integer pairs.
- Concurrency is left out. Other subsystems can mutate the obstacle registry concurrently; the model takes the map as read-only for one search.
- Search.AStar: it takes a `fuel` bound on the number of expansions and returns `OutOfFuel` when the bound is spent. The source loop has no such bound and need not terminate. The source also reports both `Exhausted` and `Aborted` as `(None, None)`.
- Search.AStar: the expansion record and the frontier size are ghost outputs the method reports itself. The contract cannot bind the reported size to the local open list, which callers never see.
- Search.AStar: does not claim that the path is optimal or that a path is found whenever one exists. The open list has no decrease-key, and the pruning rules cut the search space.
- Search.ExpandNeighbours: its own contract states only the invariants it keeps. Each recording step's exact effect is stated by `RecordNeighbour`, but the loop carries no summary of which neighbours end up recorded.
- Heuristics.HeuristicConsistent: proved only for steps from a depth >= 0. From a negative depth, a lateral move onto the goal column can lower the detour term by 2.
- Heuristics.HeuristicAdmissible: proved only for walks that start at depth >= 0 and reach a solution where the detour term is 0. At a goal whose x or y is a wildcard and whose z is below the roof, the estimate is positive (see `HeuristicPositiveAtWildcardColumn`).
- Heuristics.Heuristic: requires the goal time to be present. The source fails there on a missing goal time.
- Determinism of repeated calls is not stated as a lemma. Every Dafny function and method here is deterministic by construction.
