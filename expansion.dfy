/**
 * The expandable tree of levels. `openDepth` (held by `App`) counts the
 * open levels: a node at level `idx` is open when `idx < openDepth`, and an
 * open node draws the next level inside itself. Clicking a node either opens
 * one more level (when it is the deepest open node) or collapses the tree
 * back to that node.
 */
module Expansion {
  import opened Hierarchy

  function Min(a: int, b: int): int {
    if a <= b then a else b
  }

  /**
   * The click rule `prev === idx + 1 ? Math.min(idx + 2, UNITS.length) : idx + 1`.
   * Whatever the previous depth, the new one lies in [1, 6] and keeps the
   * clicked node open.
   */
  function NextDepth(prev: int, idx: nat): (depth: int)
    requires idx < LevelCount
    ensures 1 <= depth <= LevelCount
    ensures idx < depth <= idx + 2
  {
    if prev == idx + 1 then Min(idx + 2, LevelCount) else idx + 1
  }

  /**
   * The levels a `Node` at level `idx` draws, itself first and then, when it
   * is open and not the last level, what its child draws: consecutive levels
   * from `idx` on, reaching the deepest open level plus one (at most the last).
   */
  function Rendered(depth: int, idx: nat): (shown: seq<nat>)
    requires idx < LevelCount
    ensures forall k :: 0 <= k < |shown| ==> shown[k] == idx + k
    ensures |shown| == if depth <= idx then 1 else Min(depth, LevelCount - 1) - idx + 1
    decreases LevelCount - idx
  {
    [idx] + (if idx < LevelCount - 1 && idx < depth then Rendered(depth, idx + 1) else [])
  }

  /**
   * From the root, level `k` is on screen exactly when `k <= depth`: at depth
   * `d` the open levels 0..d-1 and the closed level `d` below them are drawn.
   */
  lemma RenderedLevels(depth: int, k: nat)
    requires depth >= 0
    ensures k in Rendered(depth, 0) <==> k <= depth && k < LevelCount
  {
    var shown := Rendered(depth, 0);
    if k <= depth && k < LevelCount {
      assert shown[k] == k;
    }
  }

  /** The last level shows the grand total exactly when the whole tree is open. */
  function ShowsSummary(depth: int): (shows: bool)
    ensures depth >= 0 ==> (shows <==> depth >= LevelCount)
  {
    var last := LevelCount - 1;
    var shows := last in Rendered(depth, 0) && last < depth;
    assert depth >= 0 ==> (shows <==> depth >= LevelCount) by {
      if depth >= 0 {
        RenderedLevels(depth, last);
      }
    }
    shows
  }

  /**
   * What one click on a drawn node does: above the deepest open node it
   * collapses the tree to that node; on the deepest open node, or on the
   * closed node below it, it opens one more level; with all six levels open,
   * a click on the last one changes nothing. The clicked node stays drawn.
   */
  lemma ClickEffect(prev: int, idx: nat)
    requires 1 <= prev <= LevelCount && idx < LevelCount
    requires idx in Rendered(prev, 0)
    ensures idx + 1 < prev ==> NextDepth(prev, idx) == idx + 1
    ensures (idx + 1 == prev || idx == prev) && prev < LevelCount ==> NextDepth(prev, idx) == prev + 1
    ensures idx + 1 == prev == LevelCount ==> NextDepth(prev, idx) == prev
    ensures NextDepth(prev, idx) >= idx + 1 && idx in Rendered(NextDepth(prev, idx), 0)
  {
    RenderedLevels(prev, idx);
    RenderedLevels(NextDepth(prev, idx), idx);
  }

  predicate ValidClicks(clicks: seq<nat>) {
    forall i :: 0 <= i < |clicks| ==> clicks[i] < LevelCount
  }

  /** The depth after a run of clicks, the first click first. */
  function Replay(depth: int, clicks: seq<nat>): int
    requires ValidClicks(clicks)
    decreases |clicks|
  {
    if clicks == [] then depth else Replay(NextDepth(depth, clicks[0]), clicks[1..])
  }

  /** Every click of the run lands on a node that is drawn when it is clicked. */
  predicate ClicksOnShownNodes(depth: int, clicks: seq<nat>)
    requires ValidClicks(clicks)
    decreases |clicks|
  {
    clicks == [] || (clicks[0] in Rendered(depth, 0) && ClicksOnShownNodes(NextDepth(depth, clicks[0]), clicks[1..]))
  }

  /** From the initial depth 1, no run of clicks leaves [1, 6]: depth 0 is never reached. */
  lemma {:induction false} ReplayStaysInRange(depth: int, clicks: seq<nat>)
    requires 1 <= depth <= LevelCount && ValidClicks(clicks)
    ensures 1 <= Replay(depth, clicks) <= LevelCount
    decreases |clicks|
  {
    if clicks != [] {
      ReplayStaysInRange(NextDepth(depth, clicks[0]), clicks[1..]);
    }
  }

  /** Clicking the deepest open node at each step: levels `from - 1`, `from`, ..., `to - 2`. */
  function ExpandPath(from: nat, to: nat): (clicks: seq<nat>)
    requires 1 <= from <= to <= LevelCount
    ensures ValidClicks(clicks)
  {
    seq(to - from, i requires 0 <= i < to - from => from - 1 + i)
  }

  /** Every depth in [1, 6] is reached from depth `from` below it by clicking drawn nodes only. */
  lemma {:induction false} ExpandPathReaches(from: nat, to: nat)
    requires 1 <= from <= to <= LevelCount
    ensures ClicksOnShownNodes(from, ExpandPath(from, to))
    ensures Replay(from, ExpandPath(from, to)) == to
    decreases LevelCount - from
  {
    var clicks := ExpandPath(from, to);
    if from < to {
      assert clicks[0] == from - 1;
      assert NextDepth(from, from - 1) == from + 1;
      RenderedLevels(from, from - 1);
      assert clicks[1..] == ExpandPath(from + 1, to);
      ExpandPathReaches(from + 1, to);
    }
  }

  /** The depths reachable from the initial state are exactly 1..6. */
  lemma ReachableDepths(depth: int)
    ensures 1 <= depth <= LevelCount ==> Replay(1, ExpandPath(1, depth)) == depth && ClicksOnShownNodes(1, ExpandPath(1, depth))
    ensures forall clicks :: ValidClicks(clicks) ==> 1 <= Replay(1, clicks) <= LevelCount
  {
    if 1 <= depth <= LevelCount {
      ExpandPathReaches(1, depth);
    }
    forall clicks | ValidClicks(clicks)
      ensures 1 <= Replay(1, clicks) <= LevelCount
    {
      ReplayStaysInRange(1, clicks);
    }
  }

  /** The tree's state: `openDepth` of `App`, updated through `setOpenDepth`. */
  class Tree {
    var openDepth: int

    ghost predicate Valid()
      reads this
    {
      1 <= openDepth <= LevelCount
    }

    /** `useState(1)`: the base level open, the level above it drawn closed. */
    constructor ()
      ensures Valid() && openDepth == 1
    {
      openDepth := 1;
    }

    /** The `onClick` of the node at level `idx`. */
    method Click(idx: nat)
      requires Valid() && idx < LevelCount
      modifies this
      ensures Valid()
      ensures openDepth == NextDepth(old(openDepth), idx)
    {
      openDepth := NextDepth(openDepth, idx);
    }
  }

  /** A short session: open 连, open 团, then collapse back to 连. */
  method ExampleSession()
  {
    var t := new Tree();
    t.Click(0);
    assert t.openDepth == 2;
    t.Click(1);
    assert t.openDepth == 3;
    t.Click(1);
    assert t.openDepth == 2;
  }
}
