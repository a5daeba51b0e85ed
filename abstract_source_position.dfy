/**
 * `AbstractSourcePosition`: the equality, hashing, ordering and text of a
 * source range given by its first and last line and column and the URL of
 * its file. Any `Position` can be the other operand; the URL class is not
 * part of this model and compares by its text.
 */
module SourcePositions {
  import opened Wrappers
  import opened JavaText

  datatype Url = Url(spec: string)

  datatype Position = Position(firstLine: Int32, lastLine: Int32, firstCol: Int32, lastCol: Int32, url: Option<Url>)

  /** A non-null argument of `equals`/`compareTo`: a position or any other
      object. */
  datatype Object = PositionObject(position: Position) | OtherObject(id: nat)

  predicate SameCoordinates(p: Position, q: Position)
  {
    p.firstLine == q.firstLine && p.lastLine == q.lastLine && p.firstCol == q.firstCol && p.lastCol == q.lastCol
  }

  /** `equals(o)`, with `None` for null: a position with the same four
      coordinates and a URL that is equal, or null on both sides. */
  predicate Equals(p: Position, o: Option<Object>)
  {
    && o.Some? && o.value.PositionObject?
    && SameCoordinates(p, o.value.position)
    && (if p.url.Some? then o.value.position.url == p.url else o.value.position.url.None?)
  }

  /** Two positions are equal exactly when they agree in all five parts. */
  lemma EqualsMeans(p: Position, q: Position)
    ensures Equals(p, Some(PositionObject(q))) <==> p == q
  {
  }

  /** `hashCode()`: the four coordinates multiplied left to right in `int`
      arithmetic. */
  function HashCode(p: Position): Int32
  {
    Wrap(Wrap(Wrap(p.firstLine * p.lastLine) * p.firstCol) * p.lastCol)
  }

  /** The hash is the mathematical product of the coordinates, wrapped once. */
  lemma HashIsProduct(p: Position)
    ensures HashCode(p) == Wrap(p.firstLine * p.lastLine * p.firstCol * p.lastCol)
  {
    WrapMul(p.firstLine * p.lastLine, p.firstCol);
    WrapMul(p.firstLine * p.lastLine * p.firstCol, p.lastCol);
    WrapMul(Wrap(p.firstLine * p.lastLine) * p.firstCol, p.lastCol);
  }

  /** Equal positions hash equally; the URL plays no part in the hash. */
  lemma EqualPositionsHashEqually(p: Position, q: Position)
    requires SameCoordinates(p, q)
    ensures HashCode(p) == HashCode(q)
  {
  }

  /** `compareTo(o)`: the `int` difference of the first coordinate that
      differs, in the order first line, first column, last line, last column;
      0 against anything that is not a position (and null included). */
  function CompareTo(p: Position, o: Option<Object>): Int32
  {
    if o.None? || !o.value.PositionObject? then 0
    else
      var q := o.value.position;
      if p.firstLine != q.firstLine then Wrap(p.firstLine - q.firstLine)
      else if p.firstCol != q.firstCol then Wrap(p.firstCol - q.firstCol)
      else if p.lastLine != q.lastLine then Wrap(p.lastLine - q.lastLine)
      else Wrap(p.lastCol - q.lastCol)
  }

  function Compare(p: Position, q: Position): Int32
  {
    CompareTo(p, Some(PositionObject(q)))
  }

  /** Null and objects that are not positions: never `equals`, and
      `compareTo` gives 0 for them. */
  lemma OtherObjectsDiffer(p: Position, id: nat)
    ensures !Equals(p, None) && !Equals(p, Some(OtherObject(id)))
    ensures CompareTo(p, None) == 0 && CompareTo(p, Some(OtherObject(id))) == 0
  {
  }

  /** `p` comes strictly before `q` in the lexicographic order of
      (first line, first column, last line, last column). */
  predicate Before(p: Position, q: Position)
  {
    || p.firstLine < q.firstLine
    || (p.firstLine == q.firstLine && p.firstCol < q.firstCol)
    || (p.firstLine == q.firstLine && p.firstCol == q.firstCol && p.lastLine < q.lastLine)
    || (p.firstLine == q.firstLine && p.firstCol == q.firstCol && p.lastLine == q.lastLine && p.lastCol < q.lastCol)
  }

  /** An `int` subtraction whose exact result is in range, so that Java's
      wrap-around leaves it alone. */
  predicate FitsInt32(d: int)
  {
    -0x8000_0000 <= d < 0x8000_0000
  }

  /** Every coordinate difference `p - q` that `compareTo` may compute is
      exact. Non-negative coordinates, as a front end records them, always
      qualify. */
  predicate NoOverflow(p: Position, q: Position)
  {
    && FitsInt32(p.firstLine - q.firstLine) && FitsInt32(p.firstCol - q.firstCol)
    && FitsInt32(p.lastLine - q.lastLine) && FitsInt32(p.lastCol - q.lastCol)
  }

  lemma WrapZero(a: Int32, b: Int32)
    ensures Wrap(a - b) == 0 <==> a == b
  {
    if Wrap(a - b) == 0 {
      assert (a - b) % 0x1_0000_0000 == 0;
    }
  }

  /** `compareTo` is 0 exactly when the four coordinates agree, whatever
      the URLs. */
  lemma CompareZero(p: Position, q: Position)
    ensures Compare(p, q) == 0 <==> SameCoordinates(p, q)
  {
    WrapZero(p.firstLine, q.firstLine);
    WrapZero(p.firstCol, q.firstCol);
    WrapZero(p.lastLine, q.lastLine);
    WrapZero(p.lastCol, q.lastCol);
  }

  /** `compareTo` is 0 whenever `equals` holds. */
  lemma EqualsComparesZero(p: Position, q: Position)
    requires Equals(p, Some(PositionObject(q)))
    ensures Compare(p, q) == 0
  {
    CompareZero(p, q);
  }

  /** When no difference overflows, the sign of `compareTo` is the
      lexicographic order. */
  lemma CompareIsLexicographic(p: Position, q: Position)
    requires NoOverflow(p, q)
    ensures Compare(p, q) < 0 <==> Before(p, q)
    ensures Compare(p, q) > 0 <==> Before(q, p)
  {
  }

  /** When none of the differences between the three positions overflows,
      `compareTo` is antisymmetric in sign and transitive. */
  lemma CompareIsOrder(p: Position, q: Position, r: Position)
    requires NoOverflow(p, q) && NoOverflow(q, p) && NoOverflow(q, r) && NoOverflow(p, r)
    ensures Compare(p, q) < 0 <==> Compare(q, p) > 0
    ensures Compare(p, q) == 0 <==> Compare(q, p) == 0
    ensures Compare(p, q) < 0 && Compare(q, r) < 0 ==> Compare(p, r) < 0
  {
    CompareIsLexicographic(p, q);
    CompareIsLexicographic(q, p);
    CompareIsLexicographic(q, r);
    CompareIsLexicographic(p, r);
    CompareZero(p, q);
    CompareZero(q, p);
  }

  /** `toString()`: "[firstLine:firstCol] -> [lastLine:lastCol]". */
  function ToString(p: Position): string
  {
    "[" + DecimalText(p.firstLine) + ":" + DecimalText(p.firstCol) + "] -> ["
      + DecimalText(p.lastLine) + ":" + DecimalText(p.lastCol) + "]"
  }

  lemma DecimalAvoids(x: int, c: char)
    requires !IsDigit(c) && c != '-'
    ensures c !in DecimalText(x)
  {
  }

  /** Index of the first occurrence of `x` in `s`, or `|s|` when absent. */
  function FirstIndex(s: string, x: char): (i: nat)
    ensures i <= |s|
  {
    if |s| == 0 || s[0] == x then 0 else 1 + FirstIndex(s[1..], x)
  }

  lemma {:induction false} FirstIndexAfter(a: string, b: string, x: char)
    requires x !in a
    ensures FirstIndex(a + [x] + b, x) == |a|
  {
    if |a| > 0 {
      assert (a + [x] + b)[1..] == a[1..] + [x] + b;
      FirstIndexAfter(a[1..], b, x);
    }
  }

  /** Where a character first occurs splits a string uniquely. */
  lemma SplitAt(a: string, b: string, c: string, d: string, x: char)
    requires x !in a && x !in c && a + [x] + b == c + [x] + d
    ensures a == c && b == d
  {
    var s := a + [x] + b;
    FirstIndexAfter(a, b, x);
    FirstIndexAfter(c, d, x);
    assert a == s[..|a|] && c == s[..|c|];
    assert b == s[|a| + 1..] && d == s[|c| + 1..];
  }

  /** The text of four coordinate texts, grouped the way it is taken apart. */
  function Layout(f: string, c: string, l: string, k: string): string
  {
    "[" + (f + (":" + (c + ("] -> [" + (l + (":" + (k + "]")))))))
  }

  lemma LayoutIsText(p: Position)
    ensures ToString(p) == Layout(DecimalText(p.firstLine), DecimalText(p.firstCol), DecimalText(p.lastLine), DecimalText(p.lastCol))
  {
    Regroup(DecimalText(p.firstLine), DecimalText(p.firstCol), DecimalText(p.lastLine), DecimalText(p.lastCol));
  }

  /** The text as `toString` builds it, regrouped one concatenation at a
      time from the right. */
  lemma Regroup(f: string, c: string, l: string, k: string)
    ensures "[" + f + ":" + c + "] -> [" + l + ":" + k + "]" == Layout(f, c, l, k)
  {
    var x1 := "[" + f;
    var x2 := x1 + ":";
    var x3 := x2 + c;
    var x4 := x3 + "] -> [";
    var x5 := x4 + l;
    var x6 := x5 + ":";
    var r7 := k + "]";
    var r6 := ":" + r7;
    var r5 := l + r6;
    var r4 := "] -> [" + r5;
    var r3 := c + r4;
    var r2 := ":" + r3;
    var r1 := f + r2;
    assert (x6 + k) + "]" == x6 + r7;
    assert x6 + r7 == x5 + r6;
    assert x5 + r6 == x4 + r5;
    assert x4 + r5 == x3 + r4;
    assert x3 + r4 == x2 + r3;
    assert x2 + r3 == x1 + r2;
    assert x1 + r2 == "[" + r1;
  }

  lemma LayoutInjective(f1: string, c1: string, l1: string, k1: string, f2: string, c2: string, l2: string, k2: string)
    requires ':' !in f1 && ':' !in f2 && ']' !in c1 && ']' !in c2 && ':' !in l1 && ':' !in l2
    requires Layout(f1, c1, l1, k1) == Layout(f2, c2, l2, k2)
    ensures f1 == f2 && c1 == c2 && l1 == l2 && k1 == k2
  {
    var t1 := " -> [" + (l1 + (":" + (k1 + "]")));
    var t2 := " -> [" + (l2 + (":" + (k2 + "]")));
    var r1 := c1 + ("] -> [" + (l1 + (":" + (k1 + "]"))));
    var r2 := c2 + ("] -> [" + (l2 + (":" + (k2 + "]"))));
    assert Layout(f1, c1, l1, k1)[1..] == f1 + [':'] + r1;
    assert Layout(f2, c2, l2, k2)[1..] == f2 + [':'] + r2;
    SplitAt(f1, r1, f2, r2, ':');
    assert r1 == c1 + [']'] + t1 && r2 == c2 + [']'] + t2;
    SplitAt(c1, t1, c2, t2, ']');
    assert t1[5..] == l1 + [':'] + (k1 + "]") && t2[5..] == l2 + [':'] + (k2 + "]");
    SplitAt(l1, k1 + "]", l2, k2 + "]", ':');
    assert k1 == (k1 + "]")[..|k1|] && k2 == (k2 + "]")[..|k2|];
  }

  /** Different coordinates give different texts. */
  lemma ToStringInjective(p: Position, q: Position)
    requires ToString(p) == ToString(q)
    ensures SameCoordinates(p, q)
  {
    DecimalAvoids(p.firstLine, ':');
    DecimalAvoids(q.firstLine, ':');
    DecimalAvoids(p.firstCol, ']');
    DecimalAvoids(q.firstCol, ']');
    DecimalAvoids(p.lastLine, ':');
    DecimalAvoids(q.lastLine, ':');
    LayoutIsText(p);
    LayoutIsText(q);
    LayoutInjective(DecimalText(p.firstLine), DecimalText(p.firstCol), DecimalText(p.lastLine), DecimalText(p.lastCol),
                    DecimalText(q.firstLine), DecimalText(q.firstCol), DecimalText(q.lastLine), DecimalText(q.lastCol));
    DecimalInjective(p.firstLine, q.firstLine);
    DecimalInjective(p.firstCol, q.firstCol);
    DecimalInjective(p.lastLine, q.lastLine);
    DecimalInjective(p.lastCol, q.lastCol);
  }
}
