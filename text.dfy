/**
 * The JavaScript string built-ins the page relies on, on strings of Unicode
 * characters: `split` on one character, `join`, `trim`, the regular-expression
 * classes `\d` and `\s`, `parseInt(s, 10)` on a digit string, and the decimal
 * text of a non-negative integer.
 */
module Text {

  /** `\d` in a regular expression without the `u` flag: the ASCII digits. */
  predicate IsDigit(c: char) {
    '0' <= c <= '9'
  }

  /** The characters `trim` removes and `\s` matches: ECMAScript WhiteSpace and LineTerminator. */
  predicate IsSpace(c: char) {
    var k := c as int;
    k == 0x09 || k == 0x0A || k == 0x0B || k == 0x0C || k == 0x0D || k == 0x20 || k == 0xA0
    || k == 0x1680 || (0x2000 <= k <= 0x200A) || k == 0x2028 || k == 0x2029 || k == 0x202F
    || k == 0x205F || k == 0x3000 || k == 0xFEFF
  }

  predicate AllDigits(s: string) {
    forall i :: 0 <= i < |s| ==> IsDigit(s[i])
  }

  predicate AllSpaces(s: string) {
    forall i :: 0 <= i < |s| ==> IsSpace(s[i])
  }

  function DigitValue(c: char): (d: nat)
    requires IsDigit(c)
    ensures d < 10
  {
    (c as int) - ('0' as int)
  }

  function DigitChar(d: nat): (c: char)
    requires d < 10
    ensures IsDigit(c) && DigitValue(c) == d
  {
    (('0' as int) + d) as char
  }

  function Pow10(n: nat): (p: nat)
    ensures p >= 1
  {
    if n == 0 then 1 else 10 * Pow10(n - 1)
  }

  /**
   * `parseInt(s, 10)` on a non-empty run of decimal digits; leading zeros
   * are allowed. `n` digits never spell `10^n` or more.
   */
  function DecimalValue(s: string): (v: nat)
    requires AllDigits(s)
    ensures v < Pow10(|s|)
  {
    if s == [] then 0 else 10 * DecimalValue(s[..|s| - 1]) + DigitValue(s[|s| - 1])
  }

  /** A leading zero does not change what `parseInt` reads: "007" is 7. */
  lemma {:induction false} LeadingZeroIgnored(s: string)
    requires AllDigits(s)
    ensures AllDigits(['0'] + s) && DecimalValue(['0'] + s) == DecimalValue(s)
    decreases |s|
  {
    var z := ['0'] + s;
    assert forall i :: 0 <= i < |s| ==> z[i + 1] == s[i];
    if s != [] {
      var init := s[..|s| - 1];
      assert z[..|z| - 1] == ['0'] + init;
      LeadingZeroIgnored(init);
    }
  }

  /**
   * The decimal text JavaScript renders for a non-negative integer: digits
   * only, no leading zero, and `parseInt` reads it back as the same number.
   */
  function DecimalString(n: nat): (s: string)
    ensures s != [] && AllDigits(s)
    ensures s[0] == '0' ==> s == "0"
    ensures DecimalValue(s) == n
  {
    if n < 10 then [DigitChar(n)]
    else
      var prefix := DecimalString(n / 10);
      var s := prefix + [DigitChar(n % 10)];
      assert s[..|s| - 1] == prefix;
      s
  }

  /** `parts.join(sep)`. */
  function Join(parts: seq<string>, sep: string): string
  {
    if parts == [] then ""
    else if |parts| == 1 then parts[0]
    else parts[0] + sep + Join(parts[1..], sep)
  }

  /** The joined text opens with the first part and closes with the last. */
  lemma {:induction false} JoinEnds(parts: seq<string>, sep: string)
    requires parts != []
    ensures var r, first, last := Join(parts, sep), parts[0], parts[|parts| - 1];
      |first| <= |r| && r[..|first|] == first && |last| <= |r| && r[|r| - |last|..] == last
    decreases |parts|
  {
    if |parts| > 1 {
      JoinEnds(parts[1..], sep);
      var j := Join(parts[1..], sep);
      var r := parts[0] + sep + j;
      assert r[|r| - |j|..] == j;
    }
  }

  /** A character in neither the parts nor the separator is not in the joined text. */
  lemma {:induction false} JoinAvoids(parts: seq<string>, sep: string, c: char)
    requires c !in sep && forall i :: 0 <= i < |parts| ==> c !in parts[i]
    ensures c !in Join(parts, sep)
    decreases |parts|
  {
    if |parts| > 1 {
      JoinAvoids(parts[1..], sep, c);
    }
  }

  lemma {:induction false} JoinSnoc(parts: seq<string>, x: string, sep: string)
    requires parts != []
    ensures Join(parts + [x], sep) == Join(parts, sep) + sep + x
    decreases |parts|
  {
    if |parts| > 1 {
      assert (parts + [x])[1..] == parts[1..] + [x];
      JoinSnoc(parts[1..], x, sep);
    }
  }

  /**
   * `s.split(sep)` for a one-character separator: the pieces between
   * separators, with an empty piece at either end or between two adjacent
   * separators. No piece holds the separator, and joining the pieces with
   * it gives `s` back, which determines the pieces.
   */
  function Split(s: string, sep: char): (parts: seq<string>)
    ensures |parts| >= 1
    ensures forall i :: 0 <= i < |parts| ==> sep !in parts[i]
    ensures Join(parts, [sep]) == s
    decreases |s|
  {
    if s == [] then [[]]
    else
      var rest := Split(s[1..], sep);
      if s[0] == sep then
        var parts := [[]] + rest;
        assert parts[1..] == rest;
        parts
      else
        var parts := [[s[0]] + rest[0]] + rest[1..];
        assert |parts| > 1 ==> parts[1..] == rest[1..] && Join(rest, [sep]) == rest[0] + [sep] + Join(rest[1..], [sep]);
        parts
  }

  lemma SplitNoSeparator(s: string, sep: char)
    requires sep !in s
    ensures Split(s, sep) == [s]
    decreases |s|
  {
    if s != [] {
      SplitNoSeparator(s[1..], sep);
    }
  }

  /** Splitting is a homomorphism: a separator between two texts separates their pieces. */
  lemma {:induction false} SplitConcat(a: string, b: string, sep: char)
    ensures Split(a + [sep] + b, sep) == Split(a, sep) + Split(b, sep)
    decreases |a|
  {
    var s := a + [sep] + b;
    if a == [] {
      assert s[1..] == b;
    } else {
      assert s[1..] == a[1..] + [sep] + b;
      SplitConcat(a[1..], b, sep);
    }
  }

  /** Three separators between four texts free of it cut the whole into exactly those four. */
  lemma SplitFour(a: string, b: string, c: string, d: string, sep: char)
    requires sep !in a && sep !in b && sep !in c && sep !in d
    ensures Split(a + ([sep] + (b + ([sep] + (c + ([sep] + d))))), sep) == [a, b, c, d]
  {
    SplitNoSeparator(d, sep);
    SplitInFront(c, d, [d], sep);
    assert [c] + [d] == [c, d];
    SplitInFront(b, c + ([sep] + d), [c, d], sep);
    assert [b] + [c, d] == [b, c, d];
    SplitInFront(a, b + ([sep] + (c + ([sep] + d))), [b, c, d], sep);
    assert [a] + [b, c, d] == [a, b, c, d];
  }

  lemma SplitInFront(a: string, b: string, pb: seq<string>, sep: char)
    requires sep !in a && Split(b, sep) == pb
    ensures Split(a + ([sep] + b), sep) == [a] + pb
  {
    assert a + ([sep] + b) == a + [sep] + b;
    SplitNoSeparator(a, sep);
    SplitConcat(a, b, sep);
  }

  lemma SplitAfterPrefix(c: char, s: string, sep: char)
    requires c != sep
    ensures var parts := Split(s, sep); Split([c] + s, sep) == [[c] + parts[0]] + parts[1..]
  {
    assert ([c] + s)[1..] == s;
  }

  /** Where the text of `s` starts once the whitespace from `i` on is skipped. */
  function StartOfText(s: string, i: nat): (k: nat)
    requires i <= |s|
    ensures i <= k <= |s|
    ensures forall q :: i <= q < k ==> IsSpace(s[q])
    ensures k == |s| || !IsSpace(s[k])
    decreases |s| - i
  {
    if i < |s| && IsSpace(s[i]) then StartOfText(s, i + 1) else i
  }

  /** Where the text of `s[..j]` ends once the whitespace before `j` is skipped. */
  function EndOfText(s: string, j: nat): (k: nat)
    requires j <= |s|
    ensures k <= j
    ensures forall q :: k <= q < j ==> IsSpace(s[q])
    ensures k == 0 || !IsSpace(s[k - 1])
  {
    if j > 0 && IsSpace(s[j - 1]) then EndOfText(s, j - 1) else j
  }

  /**
   * `s.trim()`: the infix of `s` left once the whitespace at both ends is
   * dropped. It neither starts nor ends with whitespace, only whitespace
   * lies before and after it, and it is empty exactly when `s` is all
   * whitespace.
   */
  function Trim(s: string): (r: string)
    ensures r == [] <==> AllSpaces(s)
    ensures r == [] || (!IsSpace(r[0]) && !IsSpace(r[|r| - 1]))
    ensures var i := StartOfText(s, 0);
      i + |r| <= |s| && r == s[i..i + |r|]
      && (forall q :: 0 <= q < i ==> IsSpace(s[q]))
      && (forall q :: i + |r| <= q < |s| ==> IsSpace(s[q]))
  {
    var i := StartOfText(s, 0);
    if i == |s| then []
    else
      var j := EndOfText(s, |s|);
      s[i..j]
  }

  /**
   * `trim` is determined by what it promises: an infix `s[a..b]` that has
   * only whitespace around it and no whitespace at its ends is the trimmed text.
   */
  lemma TrimUnique(s: string, a: nat, b: nat)
    requires a <= b <= |s|
    requires forall q :: 0 <= q < a ==> IsSpace(s[q])
    requires forall q :: b <= q < |s| ==> IsSpace(s[q])
    requires a == b || (!IsSpace(s[a]) && !IsSpace(s[b - 1]))
    ensures Trim(s) == s[a..b]
  {
    if a == b {
      assert AllSpaces(s) by {
        forall q | 0 <= q < |s|
          ensures IsSpace(s[q])
        {
          if q >= a {
            assert q >= b;
          }
        }
      }
    }
  }

  /** A text that neither starts nor ends with whitespace is left as it is. */
  lemma TrimKeepsTrimmed(s: string)
    requires s != [] && !IsSpace(s[0]) && !IsSpace(s[|s| - 1])
    ensures Trim(s) == s
  {
    TrimUnique(s, 0, |s|);
  }

  /** A blank in front of a text does not change what `trim` gives. */
  lemma TrimLeadingSpace(x: string)
    ensures Trim(" " + x) == Trim(x)
  {
    var s := " " + x;
    var r := Trim(x);
    var i := StartOfText(x, 0);
    assert forall q :: 1 <= q < |s| ==> s[q] == x[q - 1];
    assert s[i + 1..i + 1 + |r|] == r;
    TrimUnique(s, i + 1, i + 1 + |r|);
  }

  /** A blank after a text does not change what `trim` gives. */
  lemma TrimTrailingSpace(x: string)
    ensures Trim(x + " ") == Trim(x)
  {
    var s := x + " ";
    var r := Trim(x);
    var i := StartOfText(x, 0);
    assert forall q :: 0 <= q < |x| ==> s[q] == x[q];
    assert s[i..i + |r|] == r;
    TrimUnique(s, i, i + |r|);
  }

  /** Blanks added on either side of a trimmed text are all that `trim` removes. */
  lemma TrimPadded(x: string)
    requires x != [] && !IsSpace(x[0]) && !IsSpace(x[|x| - 1])
    ensures Trim(" " + x + " ") == x
  {
    assert " " + x + " " == " " + (x + " ");
    TrimLeadingSpace(x + " ");
    TrimTrailingSpace(x);
    TrimKeepsTrimmed(x);
  }

  /** Trimming twice trims no more than once. */
  lemma TrimIsIdempotent(s: string)
    ensures Trim(Trim(s)) == Trim(s)
  {
    var r := Trim(s);
    if r != [] {
      TrimKeepsTrimmed(r);
    }
  }

  /** `parts.map(s => s.trim())`. */
  function TrimAll(parts: seq<string>): (r: seq<string>)
    ensures |r| == |parts|
    ensures forall i :: 0 <= i < |parts| ==> r[i] == Trim(parts[i])
  {
    if parts == [] then [] else [Trim(parts[0])] + TrimAll(parts[1..])
  }

  lemma {:induction false} TrimAllConcat(a: seq<string>, b: seq<string>)
    ensures TrimAll(a + b) == TrimAll(a) + TrimAll(b)
    decreases |a|
  {
    if a == [] {
      assert a + b == b;
    } else {
      assert (a + b)[1..] == a[1..] + b;
      TrimAllConcat(a[1..], b);
    }
  }

  /** `parts.filter(Boolean)`: the empty strings dropped, the rest kept in order. */
  function DropEmpty(parts: seq<string>): (r: seq<string>)
    ensures |r| <= |parts|
    ensures forall x :: x in r <==> x in parts && x != []
  {
    if parts == [] then []
    else (if parts[0] == [] then [] else [parts[0]]) + DropEmpty(parts[1..])
  }

  lemma {:induction false} DropEmptyConcat(a: seq<string>, b: seq<string>)
    ensures DropEmpty(a + b) == DropEmpty(a) + DropEmpty(b)
    decreases |a|
  {
    if a == [] {
      assert a + b == b;
    } else {
      assert (a + b)[1..] == a[1..] + b;
      DropEmptyConcat(a[1..], b);
    }
  }
}
