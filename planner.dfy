/** The planner's map state and the integer-only helpers of the search: reading a map file,
    the feasibility and collision tests for the robot's footprint, and the speculation walk
    that picks which cells to check for collisions ahead of time. */
module Planner {
  import opened Wrappers
  import opened Utils
  import opened MapFile
  import opened Directions
  import opened Path

  /** Sizes of the statically allocated search grids. */
  const MaxX := 2048
  const MaxY := 2048

  /** The robot's extent along x and along y, in cells. */
  const RobotLength := 10
  const RobotWidth := 4

  type Cell = (int, int)

  predicate CellOnMap(mapX: int, mapY: int, xx: int, yy: int)
  {
    0 <= xx < mapX && 0 <= yy < mapY
  }

  /** The footprint cell at offset j along x and i along y from (x, y) is on the map. */
  predicate FootprintCellOnMap(mapX: int, mapY: int, x: int, y: int, i: int, j: int)
  {
    CellOnMap(mapX, mapY, x + j, y + i)
  }

  /** isFeasible's footprint: the cells (x + j, y + i) for 0 <= j <= RobotLength and
      0 <= i <= RobotWidth, both bounds included, all on the map. */
  predicate FootprintOnMap(mapX: int, mapY: int, x: int, y: int)
  {
    forall i, j :: 0 <= i <= RobotWidth && 0 <= j <= RobotLength ==> FootprintCellOnMap(mapX, mapY, x, y, i, j)
  }

  /** The same condition as four bounds on the footprint's corners. */
  predicate InsideMap(mapX: int, mapY: int, x: int, y: int)
  {
    0 <= x && x + RobotLength < mapX && 0 <= y && y + RobotWidth < mapY
  }

  lemma FootprintOnMapIsInsideMap(mapX: int, mapY: int, x: int, y: int)
    ensures FootprintOnMap(mapX, mapY, x, y) <==> InsideMap(mapX, mapY, x, y)
  {
    if FootprintOnMap(mapX, mapY, x, y) {
      assert FootprintCellOnMap(mapX, mapY, x, y, 0, 0);
      assert FootprintCellOnMap(mapX, mapY, x, y, RobotWidth, RobotLength);
    }
  }

  /** isFree's test against one obstacle: the robot's body [x, x + RobotLength) by
      [y, y + RobotWidth) and the rectangle overlap as half-open intervals on both axes. */
  predicate Overlaps(r: Rectangle, x: int, y: int)
  {
    x < r.x + r.l && x + RobotLength > r.x && y < r.y + r.w && y + RobotWidth > r.y
  }

  /** No obstacle overlaps the robot placed at (x, y). */
  predicate Free(obstacles: seq<Rectangle>, x: int, y: int)
  {
    forall k :: 0 <= k < |obstacles| ==> !Overlaps(obstacles[k], x, y)
  }

  predicate InRectangle(r: Rectangle, cx: int, cy: int)
  {
    r.x <= cx < r.x + r.l && r.y <= cy < r.y + r.w
  }

  predicate InBody(x: int, y: int, cx: int, cy: int)
  {
    x <= cx < x + RobotLength && y <= cy < y + RobotWidth
  }

  /** For a rectangle with positive sides, the overlap test holds exactly when some cell lies
      both in the rectangle and under the robot's body. */
  lemma OverlapsIsSharedCell(r: Rectangle, x: int, y: int)
    requires r.l > 0 && r.w > 0
    ensures Overlaps(r, x, y) <==> exists cx, cy :: InRectangle(r, cx, cy) && InBody(x, y, cx, cy)
  {
    if Overlaps(r, x, y) {
      var cx := if x < r.x then r.x else x;
      var cy := if y < r.y then r.y else y;
      assert InRectangle(r, cx, cy) && InBody(x, y, cx, cy);
    }
  }

  /** With no obstacles every placement is free; adding an obstacle keeps exactly the
      placements it does not overlap, so it can only turn free into blocked. */
  lemma {:induction false} FreeAppend(obstacles: seq<Rectangle>, r: Rectangle, x: int, y: int)
    ensures Free([], x, y)
    ensures Free(obstacles + [r], x, y) <==> Free(obstacles, x, y) && !Overlaps(r, x, y)
  {
    var all := obstacles + [r];
    if Free(obstacles, x, y) && !Overlaps(r, x, y) {
      forall k | 0 <= k < |all| ensures !Overlaps(all[k], x, y) {
        if k < |obstacles| {
          assert all[k] == obstacles[k];
        }
      }
    }
    if Free(all, x, y) {
      assert all[|obstacles|] == r;
      forall k | 0 <= k < |obstacles| ensures !Overlaps(obstacles[k], x, y) {
        assert all[k] == obstacles[k];
      }
    }
  }

  /** Every grid array has the fixed MaxY by MaxX shape. */
  predicate GridShape(g: array2<bool>)
  {
    g.Length0 == MaxY && g.Length1 == MaxX
  }

  /** A rectangle built from an obstacle row. */
  predicate Describes(rect: Rectangle, row: ObstacleRow)
  {
    rect.x == row.x && rect.y == row.y && rect.l == row.length && rect.w == row.width
  }

  /** The walk's measure: the distance, along an axis on which direction d moves, from (sx, sy)
      to the map's edge ahead. */
  function Progress(mapX: int, mapY: int, d: int, sx: int, sy: int): int
    requires 0 <= d < NumDirs
  {
    if DX[d] > 0 then mapX - sx
    else if DX[d] < 0 then sx + 1
    else if DY[d] > 0 then mapY - sy
    else sy + 1
  }

  /** The cell one step along e from (sx, sy), when it is feasible and not visited. */
  function StepCell(visited: array2<bool>, mapX: int, mapY: int, sx: int, sy: int, e: int): seq<Cell>
    requires GridShape(visited) && mapX <= MaxX && mapY <= MaxY && 0 <= e < NumDirs
    reads visited
  {
    var nx := sx + DX[e];
    var ny := sy + DY[e];
    if !InsideMap(mapX, mapY, nx, ny) || visited[ny, nx] then [] else [(nx, ny)]
  }

  /** The cells one step from (sx, sy) along the first i of d's outer directions, in table
      order, that are feasible and not visited. */
  ghost function StepTargetsUpTo(visited: array2<bool>, mapX: int, mapY: int, d: int, sx: int, sy: int,
                                 i: nat): seq<Cell>
    requires GridShape(visited) && mapX <= MaxX && mapY <= MaxY && 0 <= d < NumDirs
    requires i <= |OuterDirs(d).value|
    reads visited
  {
    if i == 0 then []
    else StepTargetsUpTo(visited, mapX, mapY, d, sx, sy, i - 1) + StepCell(visited, mapX, mapY, sx, sy, OuterDirs(d).value[i - 1])
  }

  /** The cells one step from (sx, sy) along all of d's outer directions. */
  ghost function StepTargets(visited: array2<bool>, mapX: int, mapY: int, d: int, sx: int, sy: int): seq<Cell>
    requires GridShape(visited) && mapX <= MaxX && mapY <= MaxY && 0 <= d < NumDirs
    reads visited
  {
    StepTargetsUpTo(visited, mapX, mapY, d, sx, sy, |OuterDirs(d).value|)
  }

  /** Looking at more outer directions only adds cells at the end. */
  lemma {:induction false} StepTargetsGrow(visited: array2<bool>, mapX: int, mapY: int, d: int,
                                           sx: int, sy: int, i: nat, j: nat)
    requires GridShape(visited) && mapX <= MaxX && mapY <= MaxY && 0 <= d < NumDirs
    requires i <= j <= |OuterDirs(d).value|
    ensures StepTargetsUpTo(visited, mapX, mapY, d, sx, sy, i) <= StepTargetsUpTo(visited, mapX, mapY, d, sx, sy, j)
    decreases j
  {
    if i < j {
      StepTargetsGrow(visited, mapX, mapY, d, sx, sy, i, j - 1);
      var shorter := StepTargetsUpTo(visited, mapX, mapY, d, sx, sy, j - 1);
      PrefixOfLonger(StepTargetsUpTo(visited, mapX, mapY, d, sx, sy, i), shorter,
                     StepCell(visited, mapX, mapY, sx, sy, OuterDirs(d).value[j - 1]));
    }
  }

  lemma PrefixOfLonger(p: seq<Cell>, q: seq<Cell>, r: seq<Cell>)
    requires p <= q
    ensures p <= q + r
  {
  }

  /** When the first i outer directions already give n > 0 cells, taking n cells of the whole
      step gives exactly those. */
  lemma StepBudgetSpent(visited: array2<bool>, mapX: int, mapY: int, d: int, sx: int, sy: int,
                        i: nat, n: int)
    requires GridShape(visited) && mapX <= MaxX && mapY <= MaxY && 0 <= d < NumDirs
    requires i <= |OuterDirs(d).value|
    requires |StepTargetsUpTo(visited, mapX, mapY, d, sx, sy, i)| == n > 0
    ensures Take(StepTargets(visited, mapX, mapY, d, sx, sy), n) == StepTargetsUpTo(visited, mapX, mapY, d, sx, sy, i)
  {
    StepTargetsGrow(visited, mapX, mapY, d, sx, sy, i, |OuterDirs(d).value|);
  }

  /** Every cell the speculation walk would submit with an unlimited budget: step from (sx, sy)
      in direction d while the robot stays feasible, and after each step take the step targets
      along d's outer directions. The walk ends because every step moves one cell towards the
      map's edge along an axis on which d moves. */
  ghost function WalkTargets(visited: array2<bool>, mapX: int, mapY: int, d: int, sx: int, sy: int)
    : seq<Cell>
    requires GridShape(visited) && mapX <= MaxX && mapY <= MaxY && 0 <= d < NumDirs
    requires InsideMap(mapX, mapY, sx, sy)
    reads visited
    decreases Progress(mapX, mapY, d, sx, sy)
  {
    var nx := sx + DX[d];
    var ny := sy + DY[d];
    if !InsideMap(mapX, mapY, nx, ny) then []
    else
      StepTargets(visited, mapX, mapY, d, nx, ny) + WalkTargets(visited, mapX, mapY, d, nx, ny)
  }

  /** The cell one step in direction e from the m-th point of the ray from (sx, sy) along d. */
  function RayCell(sx: int, sy: int, d: int, m: int, e: int): Cell
    requires 0 <= d < NumDirs && 0 <= e < NumDirs
  {
    (sx + m * DX[d] + DX[e], sy + m * DY[d] + DY[e])
  }

  /** The first n elements of s, or all of s when it is shorter; none when n is not positive. */
  function Take(s: seq<Cell>, n: int): (r: seq<Cell>)
    ensures r <= s
    ensures |r| == if n <= 0 then 0 else if |s| <= n then |s| else n
  {
    if n <= 0 then [] else if |s| <= n then s else s[..n]
  }

  /** A cell the walk may submit: the robot fits there and it was not visited. */
  predicate Submittable(visited: array2<bool>, mapX: int, mapY: int, c: Cell)
    requires GridShape(visited) && mapX <= MaxX && mapY <= MaxY
    reads visited
  {
    InsideMap(mapX, mapY, c.0, c.1) && !visited[c.1, c.0]
  }

  /** c is one step from (sx, sy) along one of the first i of d's outer directions. */
  ghost predicate OneStepAlong(sx: int, sy: int, d: int, i: nat, c: Cell)
    requires 0 <= d < NumDirs
  {
    var outer := OuterDirs(d).value;
    exists k :: 0 <= k < i && k < |outer| && c == (sx + DX[outer[k]], sy + DY[outer[k]])
  }

  /** c is one outer direction of d away from a point m >= 1 steps along the ray from (sx, sy)
      in direction d. */
  ghost predicate OnRay(sx: int, sy: int, d: int, c: Cell)
    requires 0 <= d < NumDirs
  {
    exists m, e :: m >= 1 && 0 <= e < NumDirs && e in OuterDirs(d).value && c == RayCell(sx, sy, d, m, e)
  }

  /** Every step target is feasible, unvisited, and one step along one of the outer
      directions. */
  lemma {:induction false} StepTargetsSound(visited: array2<bool>, mapX: int, mapY: int, d: int,
                                            sx: int, sy: int, i: nat)
    requires GridShape(visited) && mapX <= MaxX && mapY <= MaxY && 0 <= d < NumDirs
    requires i <= |OuterDirs(d).value|
    ensures forall c :: c in StepTargetsUpTo(visited, mapX, mapY, d, sx, sy, i) ==>
      Submittable(visited, mapX, mapY, c) && OneStepAlong(sx, sy, d, i, c)
  {
    var outer := OuterDirs(d).value;
    if i > 0 {
      var before := StepTargetsUpTo(visited, mapX, mapY, d, sx, sy, i - 1);
      StepTargetsSound(visited, mapX, mapY, d, sx, sy, i - 1);
      forall c | c in StepTargetsUpTo(visited, mapX, mapY, d, sx, sy, i)
        ensures Submittable(visited, mapX, mapY, c) && OneStepAlong(sx, sy, d, i, c)
      {
        if c !in before {
          assert c == (sx + DX[outer[i - 1]], sy + DY[outer[i - 1]]);
        }
      }
    }
  }

  /** A step target of the ray's next point lies on the ray. */
  lemma NextPointOnRay(sx: int, sy: int, d: int, c: Cell)
    requires 0 <= d < NumDirs
    requires OneStepAlong(sx + DX[d], sy + DY[d], d, |OuterDirs(d).value|, c)
    ensures OnRay(sx, sy, d, c)
  {
    var outer := OuterDirs(d).value;
    var k :| 0 <= k < |outer| && c == (sx + DX[d] + DX[outer[k]], sy + DY[d] + DY[outer[k]]);
    assert c == RayCell(sx, sy, d, 1, outer[k]);
  }

  /** A cell on the ray from the next point lies on the ray from this one. */
  lemma LaterPointOnRay(sx: int, sy: int, d: int, c: Cell)
    requires 0 <= d < NumDirs
    requires OnRay(sx + DX[d], sy + DY[d], d, c)
    ensures OnRay(sx, sy, d, c)
  {
    var m, e :| m >= 1 && 0 <= e < NumDirs && e in OuterDirs(d).value && c == RayCell(sx + DX[d], sy + DY[d], d, m, e);
    assert (m + 1) * DX[d] == m * DX[d] + DX[d] && (m + 1) * DY[d] == m * DY[d] + DY[d];
    assert c == RayCell(sx, sy, d, m + 1, e);
  }

  /** Every cell of the walk is feasible, unvisited, and lies one outer direction away from a
      point of the ray from (sx, sy) along d. */
  lemma {:induction false} WalkTargetsSound(visited: array2<bool>, mapX: int, mapY: int, d: int,
                                            sx: int, sy: int)
    requires GridShape(visited) && mapX <= MaxX && mapY <= MaxY && 0 <= d < NumDirs
    requires InsideMap(mapX, mapY, sx, sy)
    ensures forall c :: c in WalkTargets(visited, mapX, mapY, d, sx, sy) ==>
      Submittable(visited, mapX, mapY, c) && OnRay(sx, sy, d, c)
    decreases Progress(mapX, mapY, d, sx, sy)
  {
    var nx := sx + DX[d];
    var ny := sy + DY[d];
    if InsideMap(mapX, mapY, nx, ny) {
      var step := StepTargets(visited, mapX, mapY, d, nx, ny);
      var later := WalkTargets(visited, mapX, mapY, d, nx, ny);
      assert WalkTargets(visited, mapX, mapY, d, sx, sy) == step + later;
      StepTargetsSound(visited, mapX, mapY, d, nx, ny, |OuterDirs(d).value|);
      WalkTargetsSound(visited, mapX, mapY, d, nx, ny);
      forall c | c in step + later
        ensures Submittable(visited, mapX, mapY, c) && OnRay(sx, sy, d, c)
      {
        if c in step {
          NextPointOnRay(sx, sy, d, c);
        } else {
          LaterPointOnRay(sx, sy, d, c);
        }
      }
    }
  }

  /** One step of the walk keeps the submissions a prefix of the whole walk: when the step's
      targets fit in the remaining budget all of them are submitted, and otherwise the budget is
      used up exactly on the walk's first budget cells. */
  lemma TakeAcrossStep(all: seq<Cell>, pre: seq<Cell>, step: seq<Cell>, rest: seq<Cell>, budget: int,
                       runahead: int)
    requires pre + (step + rest) == all && runahead > 0 && runahead == budget - |pre|
    ensures |step| < runahead ==> pre + Take(step, runahead) + rest == all
    ensures |step| >= runahead ==> pre + Take(step, runahead) == Take(all, budget)
  {
  }

  /** Each rectangle is built from the row at the same position. */
  predicate DescribesAll(rects: seq<Rectangle>, rows: seq<ObstacleRow>)
  {
    |rects| == |rows| && forall k :: 0 <= k < |rows| ==> Describes(rects[k], rows[k])
  }

  /** A line that parses after k parsed rows is row k. */
  lemma RowsStep(body: seq<string>, k: nat)
    requires k < |body| && k <= |ObstacleRows(body)| && ParseRow(body[k]).Some?
    ensures k < |ObstacleRows(body)| && ObstacleRows(body)[k] == ParseRow(body[k]).value
  {
    ObstacleRowsParse(body);
  }

  /** A line that does not parse after k parsed rows ends the rows. */
  lemma RowsStop(body: seq<string>, k: nat)
    requires k < |body| && k <= |ObstacleRows(body)| && ParseRow(body[k]).None?
    ensures |ObstacleRows(body)| == k
  {
    ObstacleRowsParse(body);
  }

  /** The planner's state: the map's size and obstacles, which readMap fills in, and the grids
      of visited cells and of cells whose collision check was already submitted by the
      speculation walk. The grids are allocated once, at their maximum size. */
  class Planner {
    var mapX: int
    var mapY: int
    var obstacles: seq<Rectangle>
    const visited: array2<bool>
    const specScoreboard: array2<bool>

    ghost predicate Valid()
      reads this
    {
      GridShape(visited) && GridShape(specScoreboard) && visited != specScoreboard
    }

    /** The state before readMap: an empty map, no obstacles and cleared grids. */
    constructor ()
      ensures Valid() && fresh(visited) && fresh(specScoreboard)
      ensures mapX == 0 && mapY == 0 && obstacles == []
      ensures forall i, j :: 0 <= i < MaxY && 0 <= j < MaxX ==> !visited[i, j] && !specScoreboard[i, j]
    {
      mapX, mapY, obstacles := 0, 0, [];
      visited := new bool[MaxY, MaxX]((i, j) => false);
      specScoreboard := new bool[MaxY, MaxX]((i, j) => false);
    }

    /** readMap over the file's lines. On success the height line sets mapY, the width line
        sets mapX, and one new rectangle per obstacle row is appended to the obstacles in file
        order. On failure the error names the header line whose check fails; a failed width or
        column line leaves mapY (and mapX) as already read. */
    method ReadMap(lines: seq<string>) returns (res: Result<(), MapError>)
      modifies this
      ensures res.Ok? <==> ParseMap(lines).Ok?
      ensures res.Err? ==> res.error == ParseMap(lines).error && obstacles == old(obstacles)
      ensures res == Err(BadHeightLine) ==> mapY == old(mapY) && mapX == old(mapX)
      ensures res == Err(BadWidthLine) ==>
        |lines| >= 1 && HeaderValue(lines[0], "height") == Some(mapY) && mapX == old(mapX)
      ensures res == Err(BadColumnsLine) ==>
        |lines| >= 2 && HeaderValue(lines[0], "height") == Some(mapY) && HeaderValue(lines[1], "width") == Some(mapX)
      ensures res.Ok? ==>
        mapY == ParseMap(lines).value.height && mapX == ParseMap(lines).value.width &&
        |old(obstacles)| <= |obstacles| && obstacles[..|old(obstacles)|] == old(obstacles) &&
        DescribesAll(obstacles[|old(obstacles)|..], ParseMap(lines).value.rows) &&
        forall r :: r in obstacles[|old(obstacles)|..] ==> fresh(r)
    {
      var heightLine := if |lines| >= 1 then lines[0] else "";
      var h := HeaderValue(heightLine, "height");
      if h.None? {
        return Err(BadHeightLine);
      }
      mapY := h.value;
      var widthLine := if |lines| >= 2 then lines[1] else "";
      var w := HeaderValue(widthLine, "width");
      if w.None? {
        return Err(BadWidthLine);
      }
      mapX := w.value;
      var columns := if |lines| >= 3 then lines[2] else "";
      if columns != ColumnsLine {
        return Err(BadColumnsLine);
      }
      AppendObstacles(lines[3..]);
      return Ok(());
    }

    /** The obstacle loop of readMap over the lines after the header: one new rectangle per
        line, in order, until the first line that does not start with four integers. */
    method AppendObstacles(body: seq<string>)
      modifies this`obstacles
      ensures |old(obstacles)| <= |obstacles| && obstacles[..|old(obstacles)|] == old(obstacles)
      ensures DescribesAll(obstacles[|old(obstacles)|..], ObstacleRows(body))
      ensures forall r :: r in obstacles[|old(obstacles)|..] ==> fresh(r)
    {
      ghost var rows := ObstacleRows(body);
      ghost var added: seq<Rectangle> := [];
      var k := 0;
      while k < |body|
        invariant 0 <= k <= |body| && k <= |rows|
        invariant obstacles == old(obstacles) + added
        invariant DescribesAll(added, rows[..k])
        invariant forall r :: r in added ==> fresh(r)
      {
        var row := ParseRow(body[k]);
        if row.None? {
          RowsStop(body, k);
          break;
        }
        RowsStep(body, k);
        var rect := new Rectangle(row.value.x, row.value.y, row.value.length, row.value.width);
        obstacles := obstacles + [rect];
        added := added + [rect];
        k := k + 1;
      }
      assert obstacles[|old(obstacles)|..] == added;
    }

    /** isFeasible: every cell of the robot's footprint is on the map; the nested loops return
        false at the first cell off the map. */
    method IsFeasible(x: int, y: int) returns (ok: bool)
      ensures ok == FootprintOnMap(mapX, mapY, x, y)
      ensures ok == InsideMap(mapX, mapY, x, y)
    {
      FootprintOnMapIsInsideMap(mapX, mapY, x, y);
      var i := 0;
      while i <= RobotWidth
        invariant 0 <= i <= RobotWidth + 1
        invariant forall i', j :: 0 <= i' < i && 0 <= j <= RobotLength ==> FootprintCellOnMap(mapX, mapY, x, y, i', j)
      {
        var j := 0;
        while j <= RobotLength
          invariant 0 <= j <= RobotLength + 1
          invariant forall i', j' :: 0 <= i' < i && 0 <= j' <= RobotLength ==> FootprintCellOnMap(mapX, mapY, x, y, i', j')
          invariant forall j' :: 0 <= j' < j ==> FootprintCellOnMap(mapX, mapY, x, y, i, j')
        {
          var xx := x + j;
          var yy := y + i;
          if xx < 0 || xx >= mapX || yy < 0 || yy >= mapY {
            assert !FootprintCellOnMap(mapX, mapY, x, y, i, j);
            return false;
          }
          assert FootprintCellOnMap(mapX, mapY, x, y, i, j);
          j := j + 1;
        }
        i := i + 1;
      }
      return true;
    }

    /** isFree: no obstacle overlaps the robot at (x, y); returns false at the first one that
        does. */
    method IsFree(x: int, y: int) returns (free: bool)
      ensures free == Free(obstacles, x, y)
    {
      var i := 0;
      while i < |obstacles|
        invariant 0 <= i <= |obstacles|
        invariant forall k :: 0 <= k < i ==> !Overlaps(obstacles[k], x, y)
      {
        var rect := obstacles[i];
        var c1 := x < rect.x + rect.l;
        var c2 := x + RobotLength > rect.x;
        var c3 := y < rect.y + rect.w;
        var c4 := y + RobotWidth > rect.y;
        if c1 && c2 && c3 && c4 {
          return false;
        }
        i := i + 1;
      }
      return true;
    }

    /** The speculation walk after expanding expNode. When speculation is on, some neighbour
        checks are outstanding and the node has a parent, it submits, in walk order, the first
        numThreads - outstandingThread cells of WalkTargets from the node along the direction
        that reached it, and marks each submitted cell on the scoreboard; otherwise it submits
        nothing. Submitting a collision check is recorded by appending its cell. */
    method Speculate(doSpeculation: bool, outstandingThread: int, expNode: Node, numThreads: int)
      returns (submitted: seq<Cell>)
      requires Valid() && mapX <= MaxX && mapY <= MaxY
      requires expNode.Valid() && InsideMap(mapX, mapY, expNode.x, expNode.y)
      modifies specScoreboard
      ensures !(doSpeculation && outstandingThread != 0 && expNode.parent != null) ==> submitted == []
      ensures doSpeculation && outstandingThread != 0 && expNode.parent != null ==>
        submitted == Take(WalkTargets(visited, mapX, mapY, expNode.dir, expNode.x, expNode.y),
                          numThreads - outstandingThread) &&
        forall c :: c in submitted ==> OnRay(expNode.x, expNode.y, expNode.dir, c)
      ensures |submitted| <= if numThreads - outstandingThread <= 0 then 0 else numThreads - outstandingThread
      ensures forall c :: c in submitted ==> Submittable(visited, mapX, mapY, c) && specScoreboard[c.1, c.0]
      ensures forall i, j {:trigger specScoreboard[i, j]} :: 0 <= i < MaxY && 0 <= j < MaxX ==>
        specScoreboard[i, j] == (old(specScoreboard[i, j]) || (j, i) in submitted)
    {
      submitted := [];
      if doSpeculation && outstandingThread != 0 && expNode.parent != null {
        var precedingAct := expNode.dir;
        var runahead := numThreads - outstandingThread;
        submitted := WalkAhead(precedingAct, expNode.x, expNode.y, runahead);
        ghost var all := WalkTargets(visited, mapX, mapY, precedingAct, expNode.x, expNode.y);
        WalkTargetsSound(visited, mapX, mapY, precedingAct, expNode.x, expNode.y);
        forall c | c in submitted ensures c in all {
          var k :| 0 <= k < |submitted| && submitted[k] == c;
          assert all[k] == c;
        }
      }
    }

    /** The walk itself: step while the budget lasts and the robot stays feasible, submitting
        the unvisited feasible outer neighbours of each point reached. */
    method WalkAhead(precedingAct: int, expX: int, expY: int, budget: int) returns (submitted: seq<Cell>)
      requires Valid() && mapX <= MaxX && mapY <= MaxY
      requires 0 <= precedingAct < NumDirs && InsideMap(mapX, mapY, expX, expY)
      modifies specScoreboard
      ensures submitted == Take(WalkTargets(visited, mapX, mapY, precedingAct, expX, expY), budget)
      ensures forall i, j {:trigger specScoreboard[i, j]} :: 0 <= i < MaxY && 0 <= j < MaxX ==>
        specScoreboard[i, j] == (old(specScoreboard[i, j]) || (j, i) in submitted)
    {
      ghost var all := WalkTargets(visited, mapX, mapY, precedingAct, expX, expY);
      var specX, specY := expX, expY;
      var runahead := budget;
      submitted := [];
      while runahead > 0
        invariant InsideMap(mapX, mapY, specX, specY)
        invariant runahead == budget - |submitted|
        invariant runahead > 0 ==> submitted + WalkTargets(visited, mapX, mapY, precedingAct, specX, specY) == all
        invariant runahead <= 0 ==> submitted == Take(all, budget)
        invariant forall i, j {:trigger specScoreboard[i, j]} :: 0 <= i < MaxY && 0 <= j < MaxX ==>
          specScoreboard[i, j] == (old(specScoreboard[i, j]) || (j, i) in submitted)
        decreases Progress(mapX, mapY, precedingAct, specX, specY)
      {
        var nextX := specX + DX[precedingAct];
        var nextY := specY + DY[precedingAct];
        var feasible := IsFeasible(nextX, nextY);
        if !feasible {
          assert submitted == all;
          break;
        }
        ghost var step := StepTargets(visited, mapX, mapY, precedingAct, nextX, nextY);
        ghost var rest := WalkTargets(visited, mapX, mapY, precedingAct, nextX, nextY);
        assert submitted + (step + rest) == all;
        var added := SubmitStep(precedingAct, nextX, nextY, runahead);
        TakeAcrossStep(all, submitted, step, rest, budget, runahead);
        submitted := submitted + added;
        runahead := runahead - |added|;
        specX, specY := nextX, nextY;
      }
    }

    /** The submissions after one step of the walk: along precedingAct's outer directions, in
        order, every feasible and unvisited cell next to (specX, specY), until runahead of them
        have been submitted. */
    method SubmitStep(precedingAct: int, specX: int, specY: int, runahead: int) returns (added: seq<Cell>)
      requires Valid() && mapX <= MaxX && mapY <= MaxY && runahead > 0 && 0 <= precedingAct < NumDirs
      modifies specScoreboard
      ensures added == Take(StepTargets(visited, mapX, mapY, precedingAct, specX, specY), runahead)
      ensures forall i, j {:trigger specScoreboard[i, j]} :: 0 <= i < MaxY && 0 <= j < MaxX ==>
        specScoreboard[i, j] == (old(specScoreboard[i, j]) || (j, i) in added)
    {
      var outer := OuterDirs(precedingAct).value;
      var left := runahead;
      added := [];
      var i := 0;
      while i < |outer|
        invariant 0 <= i <= |outer| && left == runahead - |added| && left > 0
        invariant added == StepTargetsUpTo(visited, mapX, mapY, precedingAct, specX, specY, i)
        invariant forall i, j {:trigger specScoreboard[i, j]} :: 0 <= i < MaxY && 0 <= j < MaxX ==>
          specScoreboard[i, j] == (old(specScoreboard[i, j]) || (j, i) in added)
      {
        var cell := TrySubmit(specX, specY, outer[i]);
        added := added + cell;
        left := left - |cell|;
        if left == 0 {
          StepBudgetSpent(visited, mapX, mapY, precedingAct, specX, specY, i + 1, runahead);
          return;
        }
        i := i + 1;
      }
    }

    /** The body of the outer-direction loop for direction dir: submit the cell next to
        (specX, specY) along dir and mark it on the scoreboard when it is feasible and not
        visited; otherwise skip it. */
    method TrySubmit(specX: int, specY: int, dir: int) returns (cell: seq<Cell>)
      requires Valid() && mapX <= MaxX && mapY <= MaxY && 0 <= dir < NumDirs
      modifies specScoreboard
      ensures cell == StepCell(visited, mapX, mapY, specX, specY, dir)
      ensures forall i, j {:trigger specScoreboard[i, j]} :: 0 <= i < MaxY && 0 <= j < MaxX ==>
        specScoreboard[i, j] == (old(specScoreboard[i, j]) || (j, i) in cell)
    {
      var newX := specX + DX[dir];
      var newY := specY + DY[dir];
      var ok := IsFeasible(newX, newY);
      if !ok || visited[newY, newX] {
        return [];
      }
      specScoreboard[newY, newX] := true;
      return [(newX, newY)];
    }
  }
}
