/** Search nodes and the reconstruction of a plan from the goal node's chain of parents. */
module Path {
  import opened Directions

  /** A search node: its cell, its parent (null for the start) and the direction of the move
      that reached it from the parent (-1 for the start). The path cost g and priority f are
      floating point and are not part of this model. Nodes are never changed once built. */
  class Node {
    const x: int
    const y: int
    const parent: Node?
    const dir: int
    /** The number of parent links from this node back to the start. */
    ghost const depth: nat

    /** A well-formed chain: the start has direction -1, every other node one of the eight
        moves, and depth counts the links. */
    ghost predicate Valid()
      decreases depth
    {
      if parent == null then dir == -1 && depth == 0
      else 0 <= dir < NumDirs && depth == parent.depth + 1 && parent.Valid()
    }

    constructor (x: int, y: int, parent: Node?, dir: int)
      ensures this.x == x && this.y == y && this.parent == parent && this.dir == dir
      ensures Valid() <==> if parent == null then dir == -1 else parent.Valid() && 0 <= dir < NumDirs
    {
      this.x := x;
      this.y := y;
      this.parent := parent;
      this.dir := dir;
      this.depth := if parent == null then 0 else parent.depth + 1;
    }
  }

  /** The moves from the start to n, in the order they were made. */
  ghost function PathDirs(n: Node): seq<int>
    requires n.Valid()
    decreases n.depth
  {
    if n.parent == null then [] else PathDirs(n.parent) + [n.dir]
  }

  /** What walking the parent links from n collects: every node's direction, n's first and the
      start's -1 last. */
  ghost function ChainDirs(n: Node): (r: seq<int>)
    requires n.Valid()
    ensures |r| >= 1
    decreases n.depth
  {
    [n.dir] + if n.parent == null then [] else ChainDirs(n.parent)
  }

  /** One step of the walk: a node's direction, then its parent's chain. */
  lemma ChainStep(n: Node)
    requires n.Valid()
    ensures n.parent == null ==> ChainDirs(n) == [n.dir]
    ensures n.parent != null ==> n.parent.Valid() && ChainDirs(n) == [n.dir] + ChainDirs(n.parent)
  {
  }

  function Reversed(s: seq<int>): (r: seq<int>)
    ensures |r| == |s|
    ensures forall i :: 0 <= i < |s| ==> r[i] == s[|s| - 1 - i]
  {
    if s == [] then [] else Reversed(s[1..]) + [s[0]]
  }

  lemma ReversedSnoc(s: seq<int>, x: int)
    ensures Reversed(s + [x]) == [x] + Reversed(s)
  {
  }

  /** A path has one move per parent link, and never the start's -1. */
  lemma {:induction false} PathShape(n: Node)
    requires n.Valid()
    ensures |PathDirs(n)| == n.depth
    ensures forall i :: 0 <= i < |PathDirs(n)| ==> 0 <= PathDirs(n)[i] < NumDirs
    decreases n.depth
  {
    if n.parent != null {
      PathShape(n.parent);
    }
  }

  /** The parent walk collects the path backwards, followed by the start's -1. */
  lemma {:induction false} ChainIsReversedPath(n: Node)
    requires n.Valid()
    ensures ChainDirs(n) == Reversed(PathDirs(n)) + [-1]
    decreases n.depth
  {
    if n.parent != null {
      ChainIsReversedPath(n.parent);
      ReversedSnoc(PathDirs(n.parent), n.dir);
    }
  }

  /** Reversing twice gives back the original. */
  lemma ReversedTwice(s: seq<int>)
    ensures Reversed(Reversed(s)) == s
  {
  }

  /** std::reverse: swaps the ends pairwise, moving inward. */
  method ReverseInPlace(a: array<int>)
    modifies a
    ensures a[..] == Reversed(old(a[..]))
  {
    var lo, hi := 0, a.Length;
    while lo + 1 < hi
      invariant 0 <= lo <= hi <= a.Length && lo + hi == a.Length
      invariant forall i :: 0 <= i < lo ==> a[i] == old(a[a.Length - 1 - i])
      invariant forall i :: hi <= i < a.Length ==> a[i] == old(a[a.Length - 1 - i])
      invariant forall i :: lo <= i < hi ==> a[i] == old(a[i])
    {
      a[lo], a[hi - 1] := a[hi - 1], a[lo];
      lo, hi := lo + 1, hi - 1;
    }
  }

  /** The push_back walk over the parent links, from the node up to the start. */
  method CollectChain(goal: Node) returns (pushed: seq<int>)
    requires goal.Valid()
    ensures pushed == ChainDirs(goal)
  {
    pushed := [];
    var n: Node? := goal;
    while n != null
      invariant n != null ==> n.Valid() && pushed + ChainDirs(n) == ChainDirs(goal)
      invariant n == null ==> pushed == ChainDirs(goal)
      decreases if n == null then 0 else n.depth + 1
    {
      ChainStep(n);
      pushed := pushed + [n.dir];
      n := n.parent;
    }
  }

  /** The plan returned on reaching the goal (or on stopping early): push every direction on
      the parent chain, drop the start's -1, and reverse. The result is the moves from the start
      to the node, in order: one per parent link, each one of the eight moves. */
  method ReconstructPath(goal: Node) returns (path: seq<int>)
    requires goal.Valid()
    ensures path == PathDirs(goal)
    ensures |path| == goal.depth
    ensures forall i :: 0 <= i < |path| ==> 0 <= path[i] < NumDirs
  {
    var pushed := CollectChain(goal);
    ChainIsReversedPath(goal);
    pushed := pushed[..|pushed| - 1];
    assert pushed == Reversed(PathDirs(goal));
    var a := new int[|pushed|](i requires 0 <= i < |pushed| => pushed[i]);
    ReverseInPlace(a);
    path := a[..];
    ReversedTwice(PathDirs(goal));
    PathShape(goal);
  }
}
