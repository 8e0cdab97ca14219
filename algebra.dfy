/**
 * The algebra panel: an expression such as "2 团 + 1 连" is cut at `+`,
 * each piece is trimmed, empty pieces are dropped, and in each remaining
 * piece the first match of `/(\d+)\s*(排|连|团|旅|师|军)/` contributes its
 * count times the unit's scale in platoons (`X`). A piece without a match
 * contributes nothing; no text is an error. Also the marker strip `Boxes`
 * that draws at most 50 platoons.
 */
module Algebra {
  import opened Wrappers
  import opened Text
  import opened Hierarchy

  /** `scaleX`: how many platoons (`X`) one unit of each kind holds. */
  const ScaleX: map<char, nat> := map['排' := 1, '连' := 3, '团' := 9, '旅' := 27, '师' := 81, '军' := 243]

  /** `scaleX[unit] || 0`. */
  function ScaleOf(unit: char): (scale: nat)
    ensures scale > 0 <==> UnitIndex(unit).Some?
    ensures UnitIndex(unit).Some? ==> scale == Pow3(UnitIndex(unit).value)
  {
    PatternUnitsAreTableUnits(unit);
    if unit in ScaleX then
      ScaleIsPowerOfLevel(UnitIndex(unit).value);
      ScaleX[unit]
    else 0
  }

  /** The scale of each unit is 3 to the power of its level, its head count over 10. */
  lemma ScaleIsPowerOfLevel(i: nat)
    requires i < |Units|
    ensures Units[i].name in ScaleX
    ensures ScaleX[Units[i].name] == Pow3(i) == PeopleByIndex(i) / 10
  {
    assert Pow3(1) == 3 && Pow3(2) == 9 && Pow3(3) == 27 && Pow3(4) == 81 && Pow3(5) == 243;
  }

  /** The unit alternative of the pattern, `(排|连|团|旅|师|军)`. */
  predicate IsPatternUnit(c: char) {
    c == '排' || c == '连' || c == '团' || c == '旅' || c == '师' || c == '军'
  }

  /**
   * The pattern's units, the keys of `scaleX` and the names in `UNITS` are
   * the same six names, so the `|| 0` fallback never applies to a match.
   */
  lemma PatternUnitsAreTableUnits(c: char)
    ensures IsPatternUnit(c) <==> c in ScaleX
    ensures IsPatternUnit(c) <==> UnitIndex(c).Some?
    ensures IsPatternUnit(c) ==> ScaleX[c] > 0 && !IsDigit(c) && !IsSpace(c)
  {
    if IsPatternUnit(c) {
      assert c == Units[0].name || c == Units[1].name || c == Units[2].name
          || c == Units[3].name || c == Units[4].name || c == Units[5].name;
    }
  }

  /** One match of the pattern: the number the digits spell and the unit after them. */
  datatype Term = Term(count: nat, unit: char)

  /** Where the run of digits that starts at `i` ends (`\d+` taken greedily). */
  function DigitsEnd(t: string, i: nat): (j: nat)
    requires i <= |t|
    ensures i <= j <= |t| && AllDigits(t[i..j]) && (j == |t| || !IsDigit(t[j]))
    decreases |t| - i
  {
    if i < |t| && IsDigit(t[i]) then
      var j := DigitsEnd(t, i + 1);
      assert t[i..j] == [t[i]] + t[i + 1..j];
      j
    else i
  }

  /** Where the run of whitespace that starts at `i` ends (`\s*` taken greedily). */
  function SpacesEnd(t: string, i: nat): (k: nat)
    requires i <= |t|
    ensures i <= k <= |t| && AllSpaces(t[i..k]) && (k == |t| || !IsSpace(t[k]))
    decreases |t| - i
  {
    if i < |t| && IsSpace(t[i]) then
      var k := SpacesEnd(t, i + 1);
      assert t[i..k] == [t[i]] + t[i + 1..k];
      k
    else i
  }

  /** The pattern tried at position `i`, the way a backtracking matcher tries it there. */
  function MatchAt(t: string, i: nat): Option<Term>
    requires i <= |t|
  {
    var j := DigitsEnd(t, i);
    var k := SpacesEnd(t, j);
    if i < j && k < |t| && IsPatternUnit(t[k]) then Some(Term(DecimalValue(t[i..j]), t[k])) else None
  }

  /**
   * The pattern read as a set of texts: `t[i..k+1]` is one or more digits
   * (`t[i..j]`), then any whitespace (`t[j..k]`), then a unit name (`t[k]`),
   * and `m` is what the groups capture.
   */
  ghost predicate MatchesAt(t: string, i: nat, j: nat, k: nat, m: Term) {
    i < j <= k < |t| && AllDigits(t[i..j]) && AllSpaces(t[j..k]) && IsPatternUnit(t[k])
    && m == Term(DecimalValue(t[i..j]), t[k])
  }

  lemma {:induction false} DigitsEndUnique(t: string, i: nat, j: nat)
    requires i <= j <= |t| && AllDigits(t[i..j]) && (j == |t| || !IsDigit(t[j]))
    ensures DigitsEnd(t, i) == j
    decreases j - i
  {
    if i < j {
      assert t[i + 1..j] == t[i..j][1..];
      DigitsEndUnique(t, i + 1, j);
    }
  }

  lemma {:induction false} SpacesEndUnique(t: string, i: nat, k: nat)
    requires i <= k <= |t| && AllSpaces(t[i..k]) && (k == |t| || !IsSpace(t[k]))
    ensures SpacesEnd(t, i) == k
    decreases k - i
  {
    if i < k {
      assert t[i + 1..k] == t[i..k][1..];
      SpacesEndUnique(t, i + 1, k);
    }
  }

  /**
   * `MatchAt` finds a match at `i` exactly when the pattern matches there, and
   * then the one the pattern admits: the greedy runs leave no other split.
   */
  lemma MatchAtIsPatternMatch(t: string, i: nat)
    requires i <= |t|
    ensures MatchAt(t, i).Some? ==> MatchesAt(t, i, DigitsEnd(t, i), SpacesEnd(t, DigitsEnd(t, i)), MatchAt(t, i).value)
    ensures forall j: nat, k: nat, m :: MatchesAt(t, i, j, k, m) ==> MatchAt(t, i) == Some(m)
  {
    forall j: nat, k: nat, m | MatchesAt(t, i, j, k, m)
      ensures MatchAt(t, i) == Some(m)
    {
      PatternUnitsAreTableUnits(t[k]);
      if j < k {
        assert t[j] == t[j..k][0];
      }
      DigitsEndUnique(t, i, j);
      SpacesEndUnique(t, j, k);
    }
  }

  /** The leftmost position at or after `from` where the pattern matches. */
  function Search(t: string, from: nat): (p: Option<nat>)
    requires from <= |t|
    ensures p.Some? ==> from <= p.value < |t| && MatchAt(t, p.value).Some?
    ensures p.Some? ==> forall q :: from <= q < p.value ==> MatchAt(t, q).None?
    ensures p.None? ==> forall q :: from <= q <= |t| ==> MatchAt(t, q).None?
    decreases |t| - from
  {
    if from == |t| then None
    else if MatchAt(t, from).Some? then Some(from)
    else Search(t, from + 1)
  }

  /** `t.match(re)` with its groups: the match at the leftmost position that has one. */
  function FirstMatch(t: string): (m: Option<Term>)
    ensures m.None? ==> forall p :: 0 <= p <= |t| ==> MatchAt(t, p).None?
    ensures m.Some? ==> IsPatternUnit(m.value.unit)
  {
    match Search(t, 0)
    case None => None
    case Some(p) => MatchAt(t, p)
  }

  /** `match` returns `null` exactly when no position of the piece matches. */
  lemma FirstMatchFindsAny(t: string)
    ensures FirstMatch(t).Some? <==> exists p :: 0 <= p <= |t| && MatchAt(t, p).Some?
  {
    if Search(t, 0).Some? {
      var p := Search(t, 0).value;
      assert MatchAt(t, p).Some?;
    }
  }

  /** Once a match at `p` has no match before it, it is the one `FirstMatch` reports. */
  lemma FirstMatchIsLeftmost(t: string, p: nat)
    requires p <= |t| && MatchAt(t, p).Some?
    requires forall q :: 0 <= q < p ==> MatchAt(t, q).None?
    ensures FirstMatch(t) == MatchAt(t, p)
  {
  }

  /** What one trimmed piece adds to `sumX`: nothing when it has no match. */
  function Contribution(t: string): (n: nat)
    ensures FirstMatch(t).None? ==> n == 0
    ensures FirstMatch(t).Some? ==>
              (FirstMatch(t).value.unit in ScaleX && n == FirstMatch(t).value.count * ScaleX[FirstMatch(t).value.unit])
  {
    match FirstMatch(t)
    case None => 0
    case Some(m) => PatternUnitsAreTableUnits(m.unit); m.count * ScaleOf(m.unit)
  }

  /** `expr.split('+').map(s => s.trim()).filter(Boolean)`. */
  function Terms(expr: string): (terms: seq<string>)
    ensures forall x :: x in terms ==> x != [] && '+' !in x && x == Trim(x)
  {
    var parts := Split(expr, '+');
    var trimmed := TrimAll(parts);
    TrimAllPieces(parts, '+');
    DropEmpty(trimmed)
  }

  lemma {:induction false} TrimAllPieces(parts: seq<string>, sep: char)
    requires forall i :: 0 <= i < |parts| ==> sep !in parts[i]
    ensures forall x :: x in TrimAll(parts) ==> sep !in x && x == Trim(x)
    decreases |parts|
  {
    if parts != [] {
      var p := parts[0];
      TrimIsIdempotent(p);
      TrimIsInfix(p, sep);
      TrimAllPieces(parts[1..], sep);
    }
  }

  lemma TrimIsInfix(s: string, c: char)
    requires c !in s
    ensures c !in Trim(s)
  {
    var r := Trim(s);
    var i := StartOfText(s, 0);
    forall x | 0 <= x < |r|
      ensures r[x] != c
    {
      assert r[x] == s[i + x];
    }
  }

  /** The sum over the pieces, the last piece added last, as the loop accumulates it. */
  function SumX(terms: seq<string>): nat
  {
    if terms == [] then 0 else SumX(terms[..|terms| - 1]) + Contribution(terms[|terms| - 1])
  }

  /** The `sumX` of an expression. */
  function ExprSumX(expr: string): nat
  {
    SumX(Terms(expr))
  }

  /**
   * The `useMemo` result of `AlgebraPanel`: `sumX` is the sum over the
   * pieces of their first match's count times scale, and `people` is ten
   * times it. Any text is accepted.
   */
  method Evaluate(expr: string) returns (sumX: int, people: int)
    ensures sumX == ExprSumX(expr) && sumX >= 0
    ensures people == sumX * 10
  {
    var terms := Terms(expr);
    sumX := 0;
    for i := 0 to |terms|
      invariant sumX == SumX(terms[..i])
    {
      assert terms[..i + 1][..i] == terms[..i];
      assert SumX(terms[..i + 1]) == SumX(terms[..i]) + Contribution(terms[i]);
      var m := FirstMatch(terms[i]);
      if m.None? {
        continue;
      }
      var n := m.value.count;
      var unit := m.value.unit;
      sumX := sumX + n * ScaleOf(unit);
    }
    assert terms[..|terms|] == terms;
    people := sumX * 10;
  }

  lemma {:induction false} SumXConcat(a: seq<string>, b: seq<string>)
    ensures SumX(a + b) == SumX(a) + SumX(b)
    decreases |b|
  {
    if b != [] {
      var ab := a + b;
      assert ab[..|ab| - 1] == a + b[..|b| - 1];
      SumXConcat(a, b[..|b| - 1]);
    } else {
      assert a + b == a;
    }
  }

  /** The sum is additive over `+`: the value of `a + b` is the value of `a` plus the value of `b`. */
  lemma ExprSumXAdditive(a: string, b: string)
    ensures ExprSumX(a + "+" + b) == ExprSumX(a) + ExprSumX(b)
  {
    assert a + "+" + b == a + ['+'] + b;
    SplitConcat(a, b, '+');
    TrimAllConcat(Split(a, '+'), Split(b, '+'));
    DropEmptyConcat(TrimAll(Split(a, '+')), TrimAll(Split(b, '+')));
    SumXConcat(Terms(a), Terms(b));
  }

  /** A piece without any digit has no match and adds nothing; an empty piece is one. */
  lemma NoDigitsNoContribution(t: string)
    requires forall q :: 0 <= q < |t| ==> !IsDigit(t[q])
    ensures FirstMatch(t).None? && Contribution(t) == 0
  {
    forall q | 0 <= q <= |t|
      ensures MatchAt(t, q).None?
    {
    }
  }

  lemma {:induction false} DigitsEndShift(junk: string, t: string, q: nat)
    requires q <= |t|
    ensures DigitsEnd(junk + t, |junk| + q) == |junk| + DigitsEnd(t, q)
    decreases |t| - q
  {
    var s := junk + t;
    if q < |t| {
      assert s[|junk| + q] == t[q];
      if IsDigit(t[q]) {
        DigitsEndShift(junk, t, q + 1);
      }
    }
  }

  lemma {:induction false} SpacesEndShift(junk: string, t: string, q: nat)
    requires q <= |t|
    ensures SpacesEnd(junk + t, |junk| + q) == |junk| + SpacesEnd(t, q)
    decreases |t| - q
  {
    var s := junk + t;
    if q < |t| {
      assert s[|junk| + q] == t[q];
      if IsSpace(t[q]) {
        SpacesEndShift(junk, t, q + 1);
      }
    }
  }

  lemma MatchAtShift(junk: string, t: string, q: nat)
    requires q <= |t|
    ensures MatchAt(junk + t, |junk| + q) == MatchAt(t, q)
  {
    var s := junk + t;
    DigitsEndShift(junk, t, q);
    var j := DigitsEnd(t, q);
    SpacesEndShift(junk, t, j);
    var k := SpacesEnd(t, j);
    assert s[|junk| + q..|junk| + j] == t[q..j];
    if k < |t| {
      assert s[|junk| + k] == t[k];
    }
  }

  /**
   * The pattern is not anchored: text before the number that holds no digit
   * is skipped, so "x 3 连" still reads as 3 连.
   */
  lemma LeadingTextIgnored(junk: string, t: string)
    requires forall q :: 0 <= q < |junk| ==> !IsDigit(junk[q])
    ensures FirstMatch(junk + t) == FirstMatch(t)
  {
    var s := junk + t;
    match Search(t, 0)
    case None =>
      NoMatchBefore(junk, t, |t|);
      assert MatchAt(s, |s|).None?;
    case Some(p) =>
      NoMatchBefore(junk, t, p);
      MatchAtShift(junk, t, p);
      FirstMatchIsLeftmost(s, |junk| + p);
  }

  /** With no digit in `junk`, a match in `junk + t` before `|junk| + p` needs one in `t` before `p`. */
  lemma NoMatchBefore(junk: string, t: string, p: nat)
    requires forall q :: 0 <= q < |junk| ==> !IsDigit(junk[q])
    requires p <= |t| && forall q :: 0 <= q < p ==> MatchAt(t, q).None?
    ensures forall q :: 0 <= q < |junk| + p ==> MatchAt(junk + t, q).None?
  {
    var s := junk + t;
    forall q | 0 <= q < |junk| + p
      ensures MatchAt(s, q).None?
    {
      if q < |junk| {
        assert s[q] == junk[q];
      } else {
        MatchAtShift(junk, t, q - |junk|);
      }
    }
  }

  lemma {:induction false} DigitsEndPrefix(a: string, b: string, q: nat)
    requires q <= |a| && DigitsEnd(a, q) < |a|
    ensures DigitsEnd(a + b, q) == DigitsEnd(a, q)
    decreases |a| - q
  {
    var s := a + b;
    assert s[q] == a[q];
    if IsDigit(a[q]) {
      DigitsEndPrefix(a, b, q + 1);
    }
  }

  lemma {:induction false} SpacesEndPrefix(a: string, b: string, q: nat)
    requires q <= |a| && SpacesEnd(a, q) < |a|
    ensures SpacesEnd(a + b, q) == SpacesEnd(a, q)
    decreases |a| - q
  {
    var s := a + b;
    assert s[q] == a[q];
    if IsSpace(a[q]) {
      SpacesEndPrefix(a, b, q + 1);
    }
  }

  /** A run starting before a non-digit ends at or before it. */
  lemma {:induction false} DigitsEndBefore(t: string, q: nat, k: nat)
    requires q <= k < |t| && !IsDigit(t[k])
    ensures DigitsEnd(t, q) <= k
    decreases k - q
  {
    if q < k && IsDigit(t[q]) {
      DigitsEndBefore(t, q + 1, k);
    }
  }

  lemma {:induction false} SpacesEndBefore(t: string, q: nat, k: nat)
    requires q <= k < |t| && !IsSpace(t[k])
    ensures SpacesEnd(t, q) <= k
    decreases k - q
  {
    if q < k && IsSpace(t[q]) {
      SpacesEndBefore(t, q + 1, k);
    }
  }

  /**
   * Only the first match of a piece counts: once `a` holds a match, nothing
   * written after it changes what the piece contributes ("2 团 3 连" is 2 团).
   */
  lemma TrailingTextIgnored(a: string, b: string)
    requires FirstMatch(a).Some?
    ensures FirstMatch(a + b) == FirstMatch(a)
  {
    var s := a + b;
    var p := Search(a, 0).value;
    var kp := SpacesEnd(a, DigitsEnd(a, p));
    PatternUnitsAreTableUnits(a[kp]);
    forall q | 0 <= q <= p
      ensures MatchAt(s, q) == MatchAt(a, q)
    {
      DigitsEndBefore(a, q, kp);
      var j := DigitsEnd(a, q);
      DigitsEndPrefix(a, b, q);
      SpacesEndBefore(a, j, kp);
      SpacesEndPrefix(a, b, j);
      var k := SpacesEnd(a, j);
      assert s[q..j] == a[q..j];
      assert s[k] == a[k];
    }
    FirstMatchIsLeftmost(s, p);
  }

  /** An expression without `+` is one piece, worth what its trimmed text contributes. */
  lemma SinglePiece(expr: string)
    requires '+' !in expr
    ensures ExprSumX(expr) == Contribution(Trim(expr))
  {
    SplitNoSeparator(expr, '+');
    var t := Trim(expr);
    assert [expr][1..] == [];
    assert TrimAll([expr]) == [t] + TrimAll([]);
    var terms := DropEmpty([t]);
    assert [t][1..] == [];
    assert terms == (if t == [] then [] else [t]) + DropEmpty([]);
    assert Terms(expr) == terms;
    if t == [] {
      NoDigitsNoContribution(t);
    } else {
      assert terms[..0] == [];
      assert SumX(terms) == SumX([]) + Contribution(t);
    }
  }

  /** A piece that starts with its match reports that match and contributes it. */
  lemma MatchFromStart(t: string, j: nat, k: nat, m: Term)
    requires MatchesAt(t, 0, j, k, m)
    ensures FirstMatch(t) == Some(m)
    ensures Contribution(t) == m.count * ScaleOf(m.unit)
  {
    MatchAtIsPatternMatch(t, 0);
    FirstMatchIsLeftmost(t, 0);
  }

  /** A piece as it comes out of `Terms`: not empty, no `+`, no blank at either end. */
  predicate IsTrimmedPiece(e: string) {
    e != [] && '+' !in e && !IsSpace(e[0]) && !IsSpace(e[|e| - 1])
  }

  predicate NoDigits(t: string) {
    forall q :: 0 <= q < |t| ==> !IsDigit(t[q])
  }

  /** A single trimmed piece, with or without a blank on either side, is worth its own contribution. */
  lemma OnePiece(e: string)
    requires IsTrimmedPiece(e)
    ensures ExprSumX(e) == Contribution(e)
    ensures ExprSumX(e + " ") == Contribution(e)
    ensures ExprSumX(" " + e) == Contribution(e)
  {
    SinglePiece(e);
    TrimKeepsTrimmed(e);
    SinglePiece(e + " ");
    TrimTrailingSpace(e);
    SinglePiece(" " + e);
    TrimLeadingSpace(e);
  }

  /** Two pieces written "a + b", as the page's examples write them, add up. */
  lemma TwoPieces(a: string, b: string)
    requires IsTrimmedPiece(a) && IsTrimmedPiece(b)
    ensures ExprSumX(a + " + " + b) == Contribution(a) + Contribution(b)
  {
    assert a + " + " + b == (a + " ") + "+" + (" " + b);
    ExprSumXAdditive(a + " ", " " + b);
    OnePiece(a);
    OnePiece(b);
  }

  lemma PieceConcat(a: string, b: string)
    requires a != [] && b != [] && !IsSpace(a[0]) && !IsSpace(b[|b| - 1]) && '+' !in a && '+' !in b
    ensures IsTrimmedPiece(a + b)
  {
    var e := a + b;
    assert e[0] == a[0] && e[|e| - 1] == b[|b| - 1];
    forall q | 0 <= q < |e|
      ensures e[q] != '+'
    {
      if q < |a| {
        assert e[q] == a[q];
      } else {
        assert e[q] == b[q - |a|];
      }
    }
  }

  /** A one-digit count, a blank and a unit, such as "3 连": the count times the unit's scale. */
  lemma SimpleTerm(d: char, u: char)
    requires IsDigit(d) && IsPatternUnit(u)
    ensures FirstMatch([d, ' ', u]) == Some(Term(DigitValue(d), u))
    ensures Contribution([d, ' ', u]) == DigitValue(d) * ScaleX[u]
  {
    var t := [d, ' ', u];
    assert t[0..1] == [d];
    assert DecimalValue([d]) == DigitValue(d) by {
      assert [d][..0] == [];
    }
    PatternUnitsAreTableUnits(u);
    MatchFromStart(t, 1, 2, Term(DigitValue(d), u));
  }

  /** "2 团 + 1 连" and every expression of that shape: each term adds its count times its scale. */
  lemma TwoTerms(d1: char, u1: char, d2: char, u2: char)
    requires IsDigit(d1) && IsPatternUnit(u1) && IsDigit(d2) && IsPatternUnit(u2)
    ensures ExprSumX([d1, ' ', u1, ' ', '+', ' ', d2, ' ', u2])
      == DigitValue(d1) * ScaleX[u1] + DigitValue(d2) * ScaleX[u2]
  {
    PatternUnitsAreTableUnits(u1);
    PatternUnitsAreTableUnits(u2);
    assert [d1, ' ', u1, ' ', '+', ' ', d2, ' ', u2] == [d1, ' ', u1] + " + " + [d2, ' ', u2];
    TwoPieces([d1, ' ', u1], [d2, ' ', u2]);
    SimpleTerm(d1, u1);
    SimpleTerm(d2, u2);
  }

  /** "abc + 3 连": a piece without digits is skipped without error, the other still counts. */
  lemma MalformedPieceSkipped(junk: string, d: char, u: char)
    requires IsTrimmedPiece(junk) && NoDigits(junk) && IsDigit(d) && IsPatternUnit(u)
    ensures ExprSumX(junk + " + " + [d, ' ', u]) == DigitValue(d) * ScaleX[u]
  {
    PatternUnitsAreTableUnits(u);
    TwoPieces(junk, [d, ' ', u]);
    NoDigitsNoContribution(junk);
    SimpleTerm(d, u);
  }

  /** "x 3 连": the pattern is not anchored, so text without digits before a term is skipped. */
  lemma LeadingJunkSkipped(junk: string, d: char, u: char)
    requires junk != [] && !IsSpace(junk[0]) && '+' !in junk && NoDigits(junk)
    requires IsDigit(d) && IsPatternUnit(u)
    ensures ExprSumX(junk + [d, ' ', u]) == DigitValue(d) * ScaleX[u]
  {
    PatternUnitsAreTableUnits(u);
    var t := [d, ' ', u];
    PieceConcat(junk, t);
    OnePiece(junk + t);
    LeadingTextIgnored(junk, t);
    SimpleTerm(d, u);
  }

  /** "2 团 3 连": only the first match of a piece counts; whatever follows it is ignored. */
  lemma SecondMatchIgnored(d: char, u: char, rest: string)
    requires IsDigit(d) && IsPatternUnit(u)
    requires rest != [] && '+' !in rest && !IsSpace(rest[|rest| - 1])
    ensures ExprSumX([d, ' ', u] + rest) == DigitValue(d) * ScaleX[u]
  {
    PatternUnitsAreTableUnits(u);
    var t := [d, ' ', u];
    PieceConcat(t, rest);
    OnePiece(t + rest);
    SimpleTerm(d, u);
    TrailingTextIgnored(t, rest);
  }

  /** The page's own example: "2 团 + 1 连" is 2 × 9 + 1 × 3 = 21 X, that is 210 people. */
  lemma ExampleTwoRegimentsOneCompany()
    ensures ExprSumX("2 团 + 1 连") == 21
  {
    TwoTerms('2', '团', '1', '连');
    assert DigitValue('2') * ScaleX['团'] + DigitValue('1') * ScaleX['连'] == 21;
  }

  lemma ExampleMalformedPiece()
    ensures ExprSumX("abc + 3 连") == 9
  {
    var junk := ['a', 'b', 'c'];
    assert IsTrimmedPiece(junk) && NoDigits(junk);
    assert "abc + 3 连" == junk + " + " + ['3', ' ', '连'];
    MalformedPieceSkipped(junk, '3', '连');
    assert DigitValue('3') * ScaleX['连'] == 9;
  }

  lemma ExampleLeadingJunk()
    ensures ExprSumX("x 3 连") == 9
  {
    assert "x 3 连" == "x " + ['3', ' ', '连'];
    LeadingJunkSkipped("x ", '3', '连');
    assert DigitValue('3') * ScaleX['连'] == 9;
  }

  lemma ExampleSecondMatchIgnored()
    ensures ExprSumX("2 团 3 连") == 18
  {
    assert "2 团 3 连" == ['2', ' ', '团'] + " 3 连";
    SecondMatchIgnored('2', '团', " 3 连");
    assert DigitValue('2') * ScaleX['团'] == 18;
  }

  /** What `Boxes` draws: one marker per platoon up to 50, and whether the overflow hint shows. */
  datatype BoxesView = BoxesView(markers: seq<nat>, overflowHint: bool)

  /**
   * `Boxes`: `Math.min(count, 50)` markers keyed 0, 1, ..., and the hint
   * "only the first 50 shown" exactly when some platoons are not drawn.
   */
  function Boxes(count: int): (view: BoxesView)
    ensures |view.markers| <= 50
    ensures forall i :: 0 <= i < |view.markers| ==> view.markers[i] == i
    ensures 0 <= count <= 50 ==> |view.markers| == count
    ensures count > 50 ==> |view.markers| == 50
    ensures count < 0 ==> |view.markers| == 0
    ensures view.overflowHint <==> |view.markers| < count
    ensures view.overflowHint <==> count > 50
  {
    var capped := if count < 50 then count else 50;
    var length := if capped < 0 then 0 else capped;
    BoxesView(seq(length, i => i), count > 50)
  }
}
