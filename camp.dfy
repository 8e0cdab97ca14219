/**
 * The camp puzzle (`CampGame`): three counters of 团, 连 and 排, a target
 * head count, the current head count and its difference from the target,
 * and the hint the page shows. Following the hints is proved never to
 * overshoot and, from an empty camp and a target that is a non-negative
 * multiple of ten, to end exactly on the target.
 */
module Camp {
  import opened Wrappers
  import opened Hierarchy

  /** The three kinds of unit the puzzle counts. */
  datatype CampUnit = Tuan | Lian | Pai

  /** The level in `UNITS` of each counter's unit. */
  function LevelOf(u: CampUnit): (idx: nat)
    ensures idx < |Units|
  {
    match u
    case Pai => 0
    case Lian => 1
    case Tuan => 2
  }

  /** The name the page uses for each counter, the key of `counts`. */
  function NameOf(u: CampUnit): (name: char)
    ensures UnitIndex(name) == Some(LevelOf(u))
  {
    UnitIndexOfName(LevelOf(u));
    Units[LevelOf(u)].name
  }

  /** `counts`: `{ 团, 连, 排 }`. */
  datatype Counts = Counts(tuan: int, lian: int, pai: int)

  const Zero: Counts := Counts(0, 0, 0)

  /** `counts[unit]`. */
  function Get(c: Counts, u: CampUnit): int {
    match u
    case Tuan => c.tuan
    case Lian => c.lian
    case Pai => c.pai
  }

  predicate NonNegative(c: Counts) {
    c.tuan >= 0 && c.lian >= 0 && c.pai >= 0
  }

  /** The head count of one unit of each kind, as the counter titles state it. */
  function Weight(u: CampUnit): (w: nat)
    ensures w == PeopleByIndex(LevelOf(u))
  {
    assert Pow3(2) == 9;
    match u
    case Tuan => 90
    case Lian => 30
    case Pai => 10
  }

  function Max(a: int, b: int): int {
    if a >= b then a else b
  }

  /**
   * The new `counts` of `update(unit, delta)`: that one counter moves by
   * `delta` but not below zero, the other two are kept.
   */
  function Bump(c: Counts, u: CampUnit, delta: int): (r: Counts)
    ensures Get(r, u) == Max(0, Get(c, u) + delta)
    ensures forall v :: v != u ==> Get(r, v) == Get(c, v)
    ensures NonNegative(c) ==> NonNegative(r)
  {
    var n := Max(0, Get(c, u) + delta);
    match u
    case Tuan => c.(tuan := n)
    case Lian => c.(lian := n)
    case Pai => c.(pai := n)
  }

  /** `people`: `排 × 10 + 连 × 30 + 团 × 90`; a whole number of platoons. */
  function People(c: Counts): (p: int)
    ensures NonNegative(c) ==> p >= 0
    ensures p % 10 == 0
  {
    var p := c.pai * 10 + c.lian * 30 + c.tuan * 90;
    assert p == 10 * (c.pai + 3 * c.lian + 9 * c.tuan);
    p
  }

  /** `diff`: how many people over the target (negative: short of it). */
  function Diff(c: Counts, target: int): (d: int)
    ensures WholePlatoons(target) ==> d % 10 == 0
  {
    var p := People(c);
    assert p == 10 * (p / 10);
    assert WholePlatoons(target) ==> p - target == 10 * (p / 10 - target / 10);
    p - target
  }

  /** A change to one counter moves the head count by that unit's weight per unit of change. */
  lemma PeopleOfBump(c: Counts, u: CampUnit, delta: int)
    ensures People(Bump(c, u, delta)) == People(c) + Weight(u) * (Get(Bump(c, u, delta), u) - Get(c, u))
  {
  }

  /** `+` then `-` on the same counter restores the camp. */
  lemma AddThenRemove(c: Counts, u: CampUnit)
    requires NonNegative(c)
    ensures Bump(Bump(c, u, 1), u, -1) == c
  {
  }

  /** `-` then `+` restores the camp exactly when the counter was not already at zero. */
  lemma RemoveThenAdd(c: Counts, u: CampUnit)
    requires NonNegative(c)
    ensures Bump(Bump(c, u, -1), u, 1) == c <==> Get(c, u) > 0
  {
    if Get(c, u) == 0 {
      assert Get(Bump(Bump(c, u, -1), u, 1), u) == 1;
    }
  }

  /** What `suggest` advises. */
  datatype Advice =
    | JustRight
    | RemoveTuan
    | RemoveLian
    | RemoveSomePai
    | ReduceAll
    | AddTuan
    | AddLian
    | AddSomePai
  {
    predicate Reduces() {
      this == RemoveTuan || this == RemoveLian || this == RemoveSomePai || this == ReduceAll
    }

    predicate Adds() {
      this == AddTuan || this == AddLian || this == AddSomePai
    }
  }

  /**
   * `suggest()`: on target, the approval; over it, remove a 团 when that
   * alone is not too much, else a 连, else some 排, else reduce everything;
   * under it, add a 团, a 连 or some 排 by how many people are missing.
   */
  function Suggest(c: Counts, target: int): (a: Advice)
    ensures a == JustRight <==> People(c) == target
    ensures a.Reduces() <==> People(c) > target
    ensures a.Adds() <==> People(c) < target
    ensures a == RemoveTuan ==> c.tuan > 0 && Diff(c, target) >= Weight(Tuan)
    ensures a == RemoveLian ==> c.lian > 0 && Diff(c, target) >= Weight(Lian)
    ensures a == RemoveSomePai ==> c.pai > 0
    ensures a == AddTuan <==> -Diff(c, target) >= Weight(Tuan)
    ensures a == AddLian <==> Weight(Lian) <= -Diff(c, target) < Weight(Tuan)
    ensures a == AddSomePai <==> 0 < -Diff(c, target) < Weight(Lian)
  {
    var diff := Diff(c, target);
    if diff == 0 then JustRight
    else if diff > 0 then
      if diff >= 90 && c.tuan > 0 then RemoveTuan
      else if diff >= 30 && c.lian > 0 then RemoveLian
      else if c.pai > 0 then RemoveSomePai
      else ReduceAll
    else
      var need := -diff;
      if need >= 90 then AddTuan
      else if need >= 30 then AddLian
      else AddSomePai
  }

  /** Over the target, the removals are tried in the fixed order 团, 连, 排. */
  lemma SurplusPriority(c: Counts, target: int)
    requires Diff(c, target) > 0
    ensures Diff(c, target) >= 90 && c.tuan > 0 <==> Suggest(c, target) == RemoveTuan
    ensures Suggest(c, target) == RemoveLian <==>
      !(Diff(c, target) >= 90 && c.tuan > 0) && Diff(c, target) >= 30 && c.lian > 0
    ensures Suggest(c, target) == ReduceAll <==>
      (c.tuan > 0 ==> Diff(c, target) < 90) && (c.lian > 0 ==> Diff(c, target) < 30) && c.pai <= 0
  {
  }

  /**
   * The exact text `suggest` returns for each advice: only the approval
   * starts with the check mark, every advice to reduce with "太多了" and
   * every advice to add with "不够".
   */
  function Message(a: Advice): (m: string)
    ensures |m| >= 3
    ensures m[0] == '✅' <==> a == JustRight
    ensures m[..3] == "太多了" <==> a.Reduces()
    ensures m[..2] == "不够" <==> a.Adds()
  {
    match a
    case JustRight => "✅ 刚刚好！结构合理。"
    case RemoveTuan => "太多了！减少 1 个“团”试试。"
    case RemoveLian => "太多了！减少 1 个“连”试试。"
    case RemoveSomePai => "太多了！减少一些“排”。"
    case ReduceAll => "太多了！尝试减小各单位数量。"
    case AddTuan => "不够！增加 1 个“团”。"
    case AddLian => "不够！增加 1 个“连”。"
    case AddSomePai => "不够！再增加一些“排”。"
  }

  /** Different advice reads differently: the hint text tells the advice apart. */
  lemma MessagesDistinct(a: Advice, b: Advice)
    requires a != b
    ensures Message(a) != Message(b)
  {
  }

  /**
   * The change a hint asks for, one unit at a time ("some 排" read as one
   * 排); the approval and "reduce everything" change nothing.
   */
  function Follow(c: Counts, a: Advice): Counts {
    match a
    case JustRight => c
    case ReduceAll => c
    case RemoveTuan => Bump(c, Tuan, -1)
    case RemoveLian => Bump(c, Lian, -1)
    case RemoveSomePai => Bump(c, Pai, -1)
    case AddTuan => Bump(c, Tuan, 1)
    case AddLian => Bump(c, Lian, 1)
    case AddSomePai => Bump(c, Pai, 1)
  }

  function Abs(x: int): nat {
    if x < 0 then -x else x
  }

  /** The page's targets are whole platoons; then so is every difference. */
  predicate WholePlatoons(target: int) {
    target % 10 == 0
  }

  /**
   * Following a hint brings the camp strictly closer to the target and
   * never past it: a surplus stays a surplus or becomes exact, and so does
   * a shortfall.
   */
  lemma FollowNeverOvershoots(c: Counts, target: int)
    requires NonNegative(c) && WholePlatoons(target)
    ensures var a := Suggest(c, target);
      a != JustRight && a != ReduceAll ==>
        var d, d' := Diff(c, target), Diff(Follow(c, a), target);
        Abs(d') < Abs(d) && (d > 0 ==> d' >= 0) && (d < 0 ==> d' <= 0)
  {
    var a := Suggest(c, target);
    var d := Diff(c, target);
    assert d % 10 == 0;
    match a
    case RemoveTuan => StepBy(c, target, Tuan, -1);
    case RemoveLian => StepBy(c, target, Lian, -1);
    case RemoveSomePai => StepBy(c, target, Pai, -1);
    case AddTuan => StepBy(c, target, Tuan, 1);
    case AddLian => StepBy(c, target, Lian, 1);
    case AddSomePai => StepBy(c, target, Pai, 1);
    case JustRight =>
    case ReduceAll =>
  }

  /** One unit more, or one fewer of a unit the camp has, moves the difference by that unit's weight. */
  lemma StepBy(c: Counts, target: int, u: CampUnit, step: int)
    requires (step == 1 && Get(c, u) >= 0) || (step == -1 && Get(c, u) > 0)
    ensures Diff(Bump(c, u, step), target) == Diff(c, target) + step * Weight(u)
  {
    assert Get(Bump(c, u, step), u) - Get(c, u) == step;
    PeopleOfBump(c, u, step);
  }

  /**
   * "Reduce everything" is only said when no single removal works: the camp
   * has no 排, and taking away any 团 or 连 it has leaves it short.
   */
  lemma ReduceAllMeansEveryRemovalUndershoots(c: Counts, target: int, u: CampUnit)
    requires NonNegative(c) && Suggest(c, target) == ReduceAll && Get(c, u) > 0
    ensures u != Pai
    ensures Diff(Bump(c, u, -1), target) < 0
  {
    PeopleOfBump(c, u, -1);
  }

  /** The camp reached by following the hints until they say it is right or can only say "reduce". */
  function Settle(c: Counts, target: int): (r: Counts)
    requires NonNegative(c) && WholePlatoons(target)
    ensures NonNegative(r)
    ensures Suggest(r, target) == JustRight || Suggest(r, target) == ReduceAll
    decreases Abs(Diff(c, target))
  {
    var a := Suggest(c, target);
    if a == JustRight || a == ReduceAll then c
    else
      FollowNeverOvershoots(c, target);
      Settle(Follow(c, a), target)
  }

  /** A camp that is not over the target never gets over it by following the hints. */
  lemma {:induction false} SettleFromShortfall(c: Counts, target: int)
    requires NonNegative(c) && WholePlatoons(target) && Diff(c, target) <= 0
    ensures People(Settle(c, target)) == target
    decreases Abs(Diff(c, target))
  {
    var a := Suggest(c, target);
    if a != JustRight {
      FollowNeverOvershoots(c, target);
      SettleFromShortfall(Follow(c, a), target);
    }
  }

  /** From the reset camp, following the hints reaches any non-negative whole-platoon target exactly. */
  lemma HintsReachTarget(target: int)
    requires target >= 0 && WholePlatoons(target)
    ensures People(Settle(Zero, target)) == target
  {
    SettleFromShortfall(Zero, target);
  }

  /**
   * Off whole platoons the hints need not settle: less than one 排 short of
   * the target, the page asks for one more 排, and once it is there, for
   * one 排 less, which is where the camp started.
   */
  lemma HintsCycleOffPlatoons(c: Counts, target: int)
    requires NonNegative(c) && People(c) < target < People(c) + Weight(Pai)
    ensures !WholePlatoons(target)
    ensures Suggest(c, target) == AddSomePai
    ensures Suggest(Follow(c, AddSomePai), target) == RemoveSomePai
    ensures Follow(Follow(c, AddSomePai), RemoveSomePai) == c
  {
    PeopleOfBump(c, Pai, 1);
  }

  /** The smallest such loop: target 15 from a single 排. */
  lemma ExampleCycle()
    ensures var c := Counts(0, 0, 1);
      Suggest(c, 15) == AddSomePai && Follow(Follow(c, AddSomePai), Suggest(Follow(c, AddSomePai), 15)) == c
  {
    HintsCycleOffPlatoons(Counts(0, 0, 1), 15);
  }

  /** The puzzle's state: the target and the three counters. */
  class CampGame {
    var target: int
    var counts: Counts

    ghost predicate Valid()
      reads this
    {
      NonNegative(counts)
    }

    /** `useState(1000)` and `useState({ 团: 0, 连: 0, 排: 0 })`. */
    constructor ()
      ensures Valid() && target == 1000 && counts == Zero
    {
      target := 1000;
      counts := Zero;
    }

    /** `update(unit, delta)`, the `+` and `-` buttons. */
    method Update(u: CampUnit, delta: int)
      requires Valid()
      modifies this
      ensures Valid()
      ensures counts == Bump(old(counts), u, delta) && target == old(target)
    {
      counts := Bump(counts, u, delta);
    }

    /** The 重置 button. */
    method Reset()
      modifies this
      ensures Valid()
      ensures counts == Zero && target == old(target)
    {
      counts := Zero;
    }

    /** The target input, after `parseInt`; no range is enforced. */
    method SetTarget(t: int)
      requires Valid()
      modifies this
      ensures Valid()
      ensures target == t && counts == old(counts)
    {
      target := t;
    }

    /** The hint shown for the current state. */
    method Hint() returns (a: Advice)
      ensures a == Suggest(counts, target)
      ensures a == JustRight <==> People(counts) == target
    {
      a := Suggest(counts, target);
    }
  }

  /** A fresh camp, 0 people against 1000, is told to add a 团. */
  method ExampleFreshCamp()
  {
    var g := new CampGame();
    var a := g.Hint();
    assert Diff(g.counts, g.target) == -1000;
    assert a == AddTuan;
  }

  /** One 团 against a target of 90 is just right. */
  method ExampleOneRegiment()
  {
    var g := new CampGame();
    g.SetTarget(90);
    g.Update(Tuan, 1);
    assert People(g.counts) == 90;
    var a := g.Hint();
    assert a == JustRight;
  }

  /** `-` on an empty counter leaves it at zero. */
  method ExampleClamp()
  {
    var g := new CampGame();
    g.Update(Tuan, 1);
    assert g.counts == Counts(1, 0, 0);
    g.Update(Tuan, -1);
    assert g.counts == Zero;
    g.Update(Tuan, -1);
    assert g.counts == Zero;
  }
}
