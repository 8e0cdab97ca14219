/**
 * The unit hierarchy of the page: six levels from 排 (platoon, 10 people)
 * up to 军 (army), each level made of three units of the level below. Holds
 * the `UNITS` table, its name index, the closed-form head count
 * `computePeopleByIndex`, and the equation text each tree node shows
 * (`FormulaLine`).
 */
module Hierarchy {
  import opened Wrappers
  import opened Text

  /** One row of `UNITS`: the base row carries its head count, every other row its factor over the row below. */
  datatype Level = Level(name: char, factorFromPrev: Option<nat>, peoplePerUnit: Option<nat>)

  const Units: seq<Level> := [
    Level('排', None, Some(10)),
    Level('连', Some(3), None),
    Level('团', Some(3), None),
    Level('旅', Some(3), None),
    Level('师', Some(3), None),
    Level('军', Some(3), None)
  ]

  /** `UNITS.length`. */
  const LevelCount: nat := |Units|

  function Pow3(n: nat): (p: nat)
    ensures p >= 1
  {
    if n == 0 then 1 else 3 * Pow3(n - 1)
  }

  /**
   * `computePeopleByIndex`: the head count of one unit of level `idx`,
   * `10 * 3^idx` (`Math.pow` is exact on these small powers). Each level
   * is three units of the level below.
   */
  function PeopleByIndex(idx: nat): (people: nat)
    ensures people >= 10 && people % 10 == 0
  {
    10 * Pow3(idx)
  }

  /** One unit of a level is three units of the level below: "1 连 = 3 排". */
  lemma PeopleNextLevel(idx: nat)
    ensures PeopleByIndex(idx + 1) == 3 * PeopleByIndex(idx)
  {
  }

  lemma PeopleEndpoints()
    ensures PeopleByIndex(0) == 10
    ensures PeopleByIndex(LevelCount - 1) == 2430
  {
    assert LevelCount == 6;
    assert Pow3(5) == 3 * 3 * 3 * 3 * 3 * Pow3(0);
  }

  /** Every level holds strictly more people than every level below it. */
  lemma {:induction false} PeopleStrictlyIncreasing(i: nat, j: nat)
    requires i < j
    ensures PeopleByIndex(i) < PeopleByIndex(j)
    decreases j
  {
    PeopleNextLevel(j - 1);
    if i < j - 1 {
      PeopleStrictlyIncreasing(i, j - 1);
    }
  }

  /** The head count the table itself defines: the base row's count, then times each row's factor. */
  function TablePeople(i: nat): nat
    requires i < |Units|
  {
    if i == 0 then
      match Units[0].peoplePerUnit
      case Some(p) => p
      case None => 0
    else
      match Units[i].factorFromPrev
      case Some(f) => f * TablePeople(i - 1)
      case None => 0
  }

  /** The closed form `computePeopleByIndex` agrees with the `UNITS` table on every level. */
  lemma {:induction false} TableAgreesWithClosedForm(i: nat)
    requires i < |Units|
    ensures TablePeople(i) == PeopleByIndex(i)
  {
    if i > 0 {
      TableAgreesWithClosedForm(i - 1);
    }
  }

  function IndexFrom(name: char, i: nat): (r: Option<nat>)
    requires i <= |Units|
    ensures r.Some? ==> i <= r.value < |Units| && Units[r.value].name == name
    ensures r.None? ==> forall k :: i <= k < |Units| ==> Units[k].name != name
    decreases |Units| - i
  {
    if i == |Units| then None
    else if Units[i].name == name then Some(i)
    else IndexFrom(name, i + 1)
  }

  /**
   * `unitIndex[name]`: the level of the unit called `name`, or nothing
   * (`undefined`) for a name outside the table.
   */
  function UnitIndex(name: char): (r: Option<nat>)
    ensures r.Some? ==> r.value < |Units| && Units[r.value].name == name
    ensures r.None? ==> forall k :: 0 <= k < |Units| ==> Units[k].name != name
  {
    IndexFrom(name, 0)
  }

  /** The names are distinct, so `unitIndex` inverts the table exactly. */
  lemma UnitIndexOfName(i: nat)
    requires i < |Units|
    ensures UnitIndex(Units[i].name) == Some(i)
  {
    var r := UnitIndex(Units[i].name);
    assert forall a, b :: 0 <= a < b < |Units| ==> Units[a].name != Units[b].name;
  }

  function Fill(n: nat, x: string): (r: seq<string>)
    ensures |r| == n && forall i :: 0 <= i < n ==> r[i] == x
  {
    seq(n, _ => x)
  }

  /**
   * `new Array(idx).fill('3').join(' × ')`: the ×3 chain written out once
   * per level. For `idx > 0` it holds exactly `idx` factors, each of them 3.
   */
  function Times(idx: nat): (t: string)
    ensures idx >= 1 ==> TrimAll(Split(t, '×')) == Fill(idx, "3")
  {
    var t := Join(Fill(idx, "3"), " × ");
    assert idx >= 1 ==> TrimAll(Split(t, '×')) == Fill(idx, "3") by {
      if idx >= 1 {
        assert IsFactorText("3");
        SplitChain(Fill(idx, "3"));
      }
    }
    t
  }

  /**
   * The text of `FormulaLine` for level `idx`: it opens with "1 <unit>",
   * and the fixed base line says what the generic formula would, 10 people.
   */
  function FormulaText(idx: nat): (line: string)
    requires idx < |Units|
    ensures |line| > 2 && line[..2] == "1 " && line[2] == Units[idx].name
    ensures idx == 0 ==> line == "1 " + [Units[0].name] + " = " + DecimalString(PeopleByIndex(0)) + " 人"
  {
    if idx == 0 then "1 排 = 10 人"
    else
      "1 " + [Units[idx].name] + " = 3 " + [Units[idx - 1].name] + " = " + Times(idx)
      + " × 10 = " + DecimalString(PeopleByIndex(idx)) + " 人"
  }

  /** Each name in `UNITS` is one character that is neither whitespace nor `=`. */
  lemma NameIsPlain(k: nat)
    requires k < |Units|
    ensures !IsSpace(Units[k].name) && Units[k].name != '='
  {
    assert k == 0 || k == 1 || k == 2 || k == 3 || k == 4 || k == 5;
  }

  /** The formula line regrouped around its three `=` signs. */
  lemma FormulaShape(n: char, m: char, times: string, digits: string)
    ensures "1 " + [n] + " = 3 " + [m] + " = " + times + " × 10 = " + digits + " 人"
      == (("1 " + [n]) + " ") + (['='] + ((" " + ("3 " + [m]) + " ") + (['=']
         + ((" " + (times + " × 10") + " ") + (['='] + (" " + (digits + " 人")))))))
  {
  }

  lemma FormulaSides(idx: nat)
    requires 1 <= idx < |Units|
    ensures var n, m := Units[idx].name, Units[idx - 1].name;
      Split(FormulaText(idx), '=') == [("1 " + [n]) + " ", " " + ("3 " + [m]) + " ",
        " " + (Times(idx) + " × 10") + " ", " " + (DecimalString(PeopleByIndex(idx)) + " 人")]
  {
    var n, m := Units[idx].name, Units[idx - 1].name;
    NameIsPlain(idx);
    NameIsPlain(idx - 1);
    var digits := DecimalString(PeopleByIndex(idx));
    FormulaShape(n, m, Times(idx), digits);
    JoinAvoids(Fill(idx, "3"), " × ", '=');
    SplitFour(("1 " + [n]) + " ", " " + ("3 " + [m]) + " ", " " + (Times(idx) + " × 10") + " ",
      " " + (digits + " 人"), '=');
  }

  /** The first two sides of the formula line: "1 <unit>" and "3 <unit below>". */
  lemma FormulaLeftSides(idx: nat)
    requires 1 <= idx < |Units|
    ensures var sides := Split(FormulaText(idx), '=');
      |sides| == 4
      && Trim(sides[0]) == "1 " + [Units[idx].name]
      && Trim(sides[1]) == "3 " + [Units[idx - 1].name]
  {
    var n, m := Units[idx].name, Units[idx - 1].name;
    NameIsPlain(idx);
    NameIsPlain(idx - 1);
    FormulaSides(idx);
    NamesTrimmed(n, m);
  }

  lemma NamesTrimmed(n: char, m: char)
    requires !IsSpace(n) && !IsSpace(m)
    ensures Trim(("1 " + [n]) + " ") == "1 " + [n] && Trim(" " + ("3 " + [m]) + " ") == "3 " + [m]
  {
    TrimTrailingSpace("1 " + [n]);
    TrimKeepsTrimmed("1 " + [n]);
    TrimPadded("3 " + [m]);
  }

  /** The last two sides of the formula line: the ×3 chain times 10, and the total in 人. */
  lemma FormulaRightSides(idx: nat)
    requires 1 <= idx < |Units|
    ensures var sides := Split(FormulaText(idx), '=');
      |sides| == 4
      && Trim(sides[2]) == Times(idx) + " × 10"
      && Trim(sides[3]) == DecimalString(PeopleByIndex(idx)) + " 人"
  {
    FormulaSides(idx);
    ChainIsTrimmed(idx);
    TotalIsTrimmed(DecimalString(PeopleByIndex(idx)));
  }

  lemma TotalIsTrimmed(digits: string)
    requires digits != [] && AllDigits(digits)
    ensures Trim(" " + (digits + " 人")) == digits + " 人"
  {
    var total := digits + " 人";
    assert IsDigit(total[0]);
    TrimLeadingSpace(total);
    TrimKeepsTrimmed(total);
  }

  lemma ChainIsTrimmed(idx: nat)
    requires idx >= 1
    ensures Trim(" " + (Times(idx) + " × 10") + " ") == Times(idx) + " × 10"
  {
    var t := Times(idx);
    JoinEnds(Fill(idx, "3"), " × ");
    assert t[0] == '3';
    TrimPadded(t + " × 10");
  }

  /**
   * The line `FormulaLine` draws above 排 is a true chain of equations:
   * cut at `=` it has four sides, "1 <unit>", "3 <unit below>", the ×3
   * chain times 10, and the printed total in 人. One unit is three of the
   * level below, and the chain, read as a product, is the total.
   */
  lemma FormulaLineIsTrue(idx: nat)
    requires 1 <= idx < |Units|
    ensures var sides := Split(FormulaText(idx), '=');
      |sides| == 4
      && Trim(sides[0]) == "1 " + [Units[idx].name]
      && Trim(sides[1]) == "3 " + [Units[idx - 1].name]
      && Trim(sides[2]) == Times(idx) + " × 10"
      && Trim(sides[3]) == DecimalString(PeopleByIndex(idx)) + " 人"
    ensures ReadProduct(Times(idx) + " × 10") == Some(PeopleByIndex(idx))
    ensures PeopleByIndex(idx) == 3 * PeopleByIndex(idx - 1)
  {
    FormulaLeftSides(idx);
    FormulaRightSides(idx);
    ChainReadsAsTotal(idx);
    PeopleNextLevel(idx - 1);
  }

  /**
   * A reader for products as the page writes them (`3 × 3 × 10`): the
   * factors between the `×` signs, blanks trimmed, multiplied; nothing when
   * some factor is not a decimal number.
   */
  function ReadProduct(text: string): Option<nat>
  {
    ProductOf(TrimAll(Split(text, '×')))
  }

  function ProductOf(factors: seq<string>): Option<nat>
  {
    if factors == [] then Some(1)
    else if factors[0] == [] || !AllDigits(factors[0]) then None
    else
      match ProductOf(factors[1..])
      case None => None
      case Some(v) => Some(DecimalValue(factors[0]) * v)
  }

  /** Joining trimmed pieces with " × " and splitting at `×` again gives the pieces back. */
  lemma {:induction false} SplitChain(ps: seq<string>)
    requires ps != []
    requires forall i :: 0 <= i < |ps| ==> IsFactorText(ps[i])
    ensures TrimAll(Split(Join(ps, " × "), '×')) == ps
    decreases |ps|
  {
    if |ps| == 1 {
      SplitNoSeparator(ps[0], '×');
      TrimKeepsTrimmed(ps[0]);
    } else {
      var p, rest := ps[0], ps[1..];
      var j := Join(rest, " × ");
      var sj := Split(j, '×');
      SplitChain(rest);
      SplitAtFirstSign(p, j);
      var pieces := [p + " "] + ([" " + sj[0]] + sj[1..]);
      assert Join(ps, " × ") == p + " × " + j;
      TrimPieces(p, sj, rest);
      assert ps == [p] + rest;
    }
  }

  lemma TrimPieces(p: string, sj: seq<string>, rest: seq<string>)
    requires IsFactorText(p) && sj != [] && TrimAll(sj) == rest
    ensures TrimAll([p + " "] + ([" " + sj[0]] + sj[1..])) == [p] + rest
  {
    var tail := [" " + sj[0]] + sj[1..];
    assert ([p + " "] + tail)[1..] == tail;
    assert tail[1..] == sj[1..];
    TrimLeadingSpace(sj[0]);
    TrimTrailingSpace(p);
    TrimKeepsTrimmed(p);
  }

  /** A factor as the page writes it: no `×` inside, no blank at either end. */
  predicate IsFactorText(p: string) {
    p != [] && '×' !in p && !IsSpace(p[0]) && !IsSpace(p[|p| - 1])
  }

  lemma SplitAtFirstSign(p: string, j: string)
    requires '×' !in p
    ensures var sj := Split(j, '×'); Split(p + " × " + j, '×') == [p + " "] + ([" " + sj[0]] + sj[1..])
  {
    assert p + " × " + j == (p + " ") + ['×'] + (" " + j);
    SplitConcat(p + " ", " " + j, '×');
    SplitNoSeparator(p + " ", '×');
    SplitAfterPrefix(' ', j, '×');
  }

  lemma {:induction false} ProductOfThrees(n: nat)
    ensures ProductOf(Fill(n, "3") + ["10"]) == Some(10 * Pow3(n))
  {
    var fs := Fill(n, "3") + ["10"];
    if n == 0 {
      assert fs == ["10"];
      assert DecimalValue("10") == 10;
    } else {
      assert fs[1..] == Fill(n - 1, "3") + ["10"];
      ProductOfThrees(n - 1);
    }
  }

  /** The equation `FormulaLine` shows is true: its ×3 chain times 10 is the total printed after it. */
  lemma ChainReadsAsTotal(idx: nat)
    requires idx >= 1
    ensures ReadProduct(Times(idx) + " × 10") == Some(PeopleByIndex(idx))
  {
    var ps := Fill(idx, "3") + ["10"];
    JoinSnoc(Fill(idx, "3"), "10", " × ");
    assert Times(idx) + " × 10" == Join(ps, " × ");
    assert IsFactorText("3") && IsFactorText("10");
    SplitChain(ps);
    ProductOfThrees(idx);
  }
}
