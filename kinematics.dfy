/** Legal one-step moves of a skycar, cube limits and the obstacle map. */
module Kinematics {
  import opened Wrappers
  import opened States
  import opened Seqs

  type AgentId = string

  /** A grid cell (x, y); z and direction play no part in obstacles. */
  type Cell = (int, int)

  /** The job occupying a cell, with the skycar that owns it. */
  datatype Job = Job(skycar: AgentId)
  datatype Obstacle = Obstacle(job: Option<Job>)

  /** Occupied cells; read-only for the duration of one search. */
  type ObstacleMap = map<Cell, Obstacle>

  /** Largest index on each axis; every lower limit is 0. */
  datatype Bounds = Bounds(maxX: int, maxY: int, maxZ: int)

  /** The configured cube: x and y in 0..14, winch depth in 0..3. */
  const CubeBounds := Bounds(14, 14, 3)

  predicate WithinLimits(s: State, bounds: Bounds) {
    0 <= s.x <= bounds.maxX && 0 <= s.y <= bounds.maxY && 0 <= s.z <= bounds.maxZ
  }

  /** A listed cell blocks every skycar except the owner of the job on it;
      a cell with no job blocks everyone. */
  predicate IsBlocked(cell: Cell, skycar: AgentId, obstacles: ObstacleMap) {
    cell in obstacles && (obstacles[cell].job.None? || obstacles[cell].job.value.skycar != skycar)
  }

  predicate IsValid(s: State, skycar: AgentId, obstacles: ObstacleMap, bounds: Bounds) {
    WithinLimits(s, bounds) && !IsBlocked((s.x, s.y), skycar, obstacles)
  }

  /** The successors of `s` before the validity check, in the order the
      generator lists them. */
  function Candidates(s: State): seq<State> {
    var t := s.time + 1;
    if s.z > 0 then
      [State(s.x, s.y, s.z, s.direction, t),
       State(s.x, s.y, s.z + 1, s.direction, t),
       State(s.x, s.y, s.z - 1, s.direction, t)]
    else match s.direction
      case X =>
        [State(s.x, s.y, s.z, X, t),
         State(s.x, s.y, s.z, Y, t),
         State(s.x + 1, s.y, s.z, X, t),
         State(s.x - 1, s.y, s.z, X, t),
         State(s.x, s.y, s.z + 1, X, t)]
      case Y =>
        [State(s.x, s.y, s.z, Y, t),
         State(s.x, s.y, s.z, X, t),
         State(s.x, s.y + 1, s.z, Y, t),
         State(s.x, s.y - 1, s.z, Y, t),
         State(s.x, s.y, s.z + 1, Y, t)]
  }

  /** One cell forward or back along the current travel axis. */
  predicate LateralUnit(s: State, n: State) {
    match s.direction
    case X => n.y == s.y && (n.x == s.x + 1 || n.x == s.x - 1)
    case Y => n.x == s.x && (n.y == s.y + 1 || n.y == s.y - 1)
  }

  /** The kinematic rules, stated move by move: time advances by one; with
      the winch lowered only the depth may change, by at most one; at the
      roof the skycar may hold, turn, move one cell along its axis or begin
      lowering. */
  predicate KinematicStep(s: State, n: State) {
    n.time == s.time + 1 &&
    if s.z > 0 then
      n.x == s.x && n.y == s.y && n.direction == s.direction && s.z - 1 <= n.z <= s.z + 1
    else
      (n.x == s.x && n.y == s.y && n.z == s.z)
      || (n.direction == s.direction && n.z == s.z && LateralUnit(s, n))
      || (n.x == s.x && n.y == s.y && n.direction == s.direction && n.z == s.z + 1)
  }

  lemma CandidatesAreSteps(s: State)
    ensures forall n :: n in Candidates(s) <==> KinematicStep(s, n)
  {
    forall n | KinematicStep(s, n) ensures n in Candidates(s) {
      var c := Candidates(s);
      if s.z > 0 {
        if n.z == s.z { assert n == c[0]; }
        else if n.z == s.z + 1 { assert n == c[1]; }
        else { assert n == c[2]; }
      } else if n.x == s.x && n.y == s.y && n.z == s.z {
        if n.direction == s.direction { assert n == c[0]; } else { assert n == c[1]; }
      } else if n.z == s.z + 1 && n.x == s.x && n.y == s.y {
        assert n == c[4];
      } else if n.x == s.x + 1 || n.y == s.y + 1 {
        assert n == c[2];
      } else {
        assert n == c[3];
      }
    }
  }

  function ValidFor(skycar: AgentId, obstacles: ObstacleMap, bounds: Bounds): State -> bool {
    n => IsValid(n, skycar, obstacles, bounds)
  }

  /** The legal successors of `s` for `skycar`: exactly the kinematic steps
      that stay inside the cube and off cells blocked for this skycar, in
      candidate order. */
  function GetNeighbours(s: State, skycar: AgentId, obstacles: ObstacleMap, bounds: Bounds): (r: seq<State>)
    ensures forall n :: n in r <==> KinematicStep(s, n) && IsValid(n, skycar, obstacles, bounds)
    ensures IsSubsequence(r, Candidates(s))
    ensures |r| <= if s.z > 0 then 3 else 5
  {
    var p := ValidFor(skycar, obstacles, bounds);
    CandidatesAreSteps(s);
    FilterMembership(Candidates(s), p);
    FilterIsSubsequence(Candidates(s), p);
    Filter(Candidates(s), p)
  }

  /** The individual promises of the generator, read off its contract. */
  lemma NeighbourRules(s: State, skycar: AgentId, obstacles: ObstacleMap, bounds: Bounds, n: State)
    requires n in GetNeighbours(s, skycar, obstacles, bounds)
    ensures n.time == s.time + 1
    ensures 0 <= n.x <= bounds.maxX && 0 <= n.y <= bounds.maxY && 0 <= n.z <= bounds.maxZ
    ensures (n.x, n.y) in obstacles ==> obstacles[(n.x, n.y)].job.Some? && obstacles[(n.x, n.y)].job.value.skycar == skycar
    ensures s.z > 0 ==> n.x == s.x && n.y == s.y && n.direction == s.direction && -1 <= n.z - s.z <= 1
    ensures s.z <= 0 && s.direction == X ==> n.y == s.y && (n.x != s.x ==> n.direction == X && n.z == s.z)
    ensures s.z <= 0 && s.direction == Y ==> n.x == s.x && (n.y != s.y ==> n.direction == Y && n.z == s.z)
  {
  }
}
