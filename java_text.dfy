/**
 * The bits of the Java platform the value classes lean on: 32-bit `int`
 * arithmetic, `Integer.toString`, `String.hashCode` and joining strings.
 */
module JavaText {
  import opened Wrappers

  /** The values of a Java `int`. */
  type Int32 = x: int | -0x8000_0000 <= x < 0x8000_0000

  /** The `int` a Java expression yields for the mathematical value `x`:
      the one value in range that agrees with `x` modulo 2^32. */
  function Wrap(x: int): (r: Int32)
    ensures (r - x) % 0x1_0000_0000 == 0
    ensures -0x8000_0000 <= x < 0x8000_0000 ==> r == x
  {
    var m := x % 0x1_0000_0000;
    if m >= 0x8000_0000 then m - 0x1_0000_0000 else m
  }

  function DigitChar(d: nat): char
    requires d < 10
  {
    "0123456789"[d]
  }

  predicate IsDigit(c: char)
  {
    '0' <= c <= '9'
  }

  function DigitValue(c: char): nat
    requires IsDigit(c)
  {
    (c as int - '0' as int) as nat
  }

  /** The decimal digits of `n`, most significant first, no leading zero. */
  function Digits(n: nat): (s: string)
    ensures |s| > 0 && forall i | 0 <= i < |s| :: IsDigit(s[i])
  {
    if n < 10 then [DigitChar(n)] else Digits(n / 10) + [DigitChar(n % 10)]
  }

  /** `Integer.toString(x)`, which is also what string concatenation shows. */
  function DecimalText(x: int): string
  {
    if x < 0 then "-" + Digits(-x) else Digits(x)
  }

  /** The value of a string of decimal digits. */
  function DigitsValue(s: string): nat
    requires forall i | 0 <= i < |s| :: IsDigit(s[i])
  {
    if s == [] then 0 else 10 * DigitsValue(s[..|s| - 1]) + DigitValue(s[|s| - 1])
  }

  /** `Integer.parseInt` without range checks: an optional minus sign and at
      least one digit. */
  function ParseDecimal(s: string): Option<int>
  {
    if |s| > 0 && s[0] == '-' then
      if |s| > 1 && forall i | 1 <= i < |s| :: IsDigit(s[i]) then Some(0 - DigitsValue(s[1..]) as int) else None
    else if |s| > 0 && forall i | 0 <= i < |s| :: IsDigit(s[i]) then Some(DigitsValue(s))
    else None
  }

  lemma {:induction false} DigitsRoundTrip(n: nat)
    ensures DigitsValue(Digits(n)) == n
  {
    if n >= 10 {
      var s := Digits(n);
      assert s[..|s| - 1] == Digits(n / 10);
      DigitsRoundTrip(n / 10);
    }
  }

  /** The decimal text of a number reads back as that number. */
  lemma DecimalRoundTrip(x: int)
    ensures ParseDecimal(DecimalText(x)) == Some(x)
  {
    if x < 0 {
      var d := Digits(-x);
      var t := "-" + d;
      assert t[1..] == d;
      forall i | 1 <= i < |t|
        ensures IsDigit(t[i])
      {
        assert t[i] == d[i - 1];
      }
      DigitsRoundTrip(-x);
      assert ParseDecimal(t) == Some(0 - DigitsValue(d) as int);
    } else {
      var d := Digits(x);
      assert IsDigit(d[0]);
      DigitsRoundTrip(x);
      assert ParseDecimal(d) == Some(DigitsValue(d));
    }
  }

  /** Different numbers have different decimal texts. */
  lemma DecimalInjective(x: int, y: int)
    requires DecimalText(x) == DecimalText(y)
    ensures x == y
  {
    DecimalRoundTrip(x);
    DecimalRoundTrip(y);
  }

  /** `String.hashCode`: h = 31 * h + c over the characters, in `int`
      arithmetic, starting from 0. */
  function StringHash(s: string): Int32
  {
    if s == [] then 0 else Wrap(31 * StringHash(s[..|s| - 1]) + s[|s| - 1] as int)
  }

  /** The strings of `parts` with `sep` between each two of them. */
  function Join(parts: seq<string>, sep: string): (r: string)
    ensures parts == [] ==> r == []
    ensures |parts| == 1 ==> r == parts[0]
  {
    if parts == [] then [] else if |parts| == 1 then parts[0] else parts[0] + sep + Join(parts[1..], sep)
  }

  /** Appending one more string to a non-empty list puts one separator in
      front of it. */
  lemma {:induction false} JoinSnoc(parts: seq<string>, last: string, sep: string)
    requires parts != []
    ensures Join(parts + [last], sep) == Join(parts, sep) + sep + last
  {
    if |parts| == 1 {
      assert parts + [last] == [parts[0], last];
      assert [parts[0], last][1..] == [last];
    } else {
      assert (parts + [last])[0] == parts[0] && (parts + [last])[1..] == parts[1..] + [last];
      JoinSnoc(parts[1..], last, sep);
    }
  }

  /** The only value congruent to `x` modulo 2^32 in `int` range is `Wrap(x)`. */
  lemma WrapUnique(r: Int32, x: int)
    requires (r - x) % 0x1_0000_0000 == 0
    ensures r == Wrap(x)
  {
    var w := Wrap(x);
    assert (r - w) % 0x1_0000_0000 == 0;
  }

  lemma MultipleMod(k: int)
    ensures (0x1_0000_0000 * k) % 0x1_0000_0000 == 0
  {
  }

  lemma CongruentMul(a: int, b: int, y: int)
    requires (a - b) % 0x1_0000_0000 == 0
    ensures (a * y - b * y) % 0x1_0000_0000 == 0
  {
    var k := (a - b) / 0x1_0000_0000;
    assert a - b == 0x1_0000_0000 * k;
    calc {
      a * y - b * y;
      (a - b) * y;
      (0x1_0000_0000 * k) * y;
      0x1_0000_0000 * (k * y);
    }
    MultipleMod(k * y);
  }

  lemma CongruentTrans(a: int, b: int, c: int)
    requires (a - b) % 0x1_0000_0000 == 0 && (b - c) % 0x1_0000_0000 == 0
    ensures (a - c) % 0x1_0000_0000 == 0
  {
    var j := (a - b) / 0x1_0000_0000;
    var k := (b - c) / 0x1_0000_0000;
    assert a - c == 0x1_0000_0000 * (j + k);
    MultipleMod(j + k);
  }

  /** Java's step-by-step `int` multiplication wraps to the same value as
      the mathematical product. */
  lemma WrapMul(x: int, y: int)
    ensures Wrap(Wrap(x) * y) == Wrap(x * y)
  {
    CongruentMul(Wrap(x), x, y);
    CongruentTrans(Wrap(Wrap(x) * y), Wrap(x) * y, x * y);
    WrapUnique(Wrap(Wrap(x) * y), x * y);
  }

  function Pow31(k: nat): nat
  {
    if k == 0 then 1 else 31 * Pow31(k - 1)
  }

  /** The value `String.hashCode` is documented to compute,
      s[0]*31^(n-1) + s[1]*31^(n-2) + ... + s[n-1], without wrapping. */
  function HashPolynomial(s: string): int
  {
    if |s| == 0 then 0 else (s[0] as int) * Pow31(|s| - 1) + HashPolynomial(s[1..])
  }

  lemma {:induction false} PolynomialSnoc(s: string, c: char)
    ensures HashPolynomial(s + [c]) == 31 * HashPolynomial(s) + c as int
    decreases |s|
  {
    var t := s + [c];
    if |s| == 0 {
      assert t == [c] && t[1..] == [];
    } else {
      assert t[0] == s[0] && t[1..] == s[1..] + [c];
      PolynomialSnoc(s[1..], c);
      var p := Pow31(|s| - 1);
      assert Pow31(|t| - 1) == 31 * p;
      assert (s[0] as int) * (31 * p) == 31 * ((s[0] as int) * p);
    }
  }

  /** Wrapping the running hash before each step changes nothing modulo
      2^32. */
  lemma WrapStep(x: int, c: int)
    ensures Wrap(31 * Wrap(x) + c) == Wrap(31 * x + c)
  {
    CongruentMul(Wrap(x), x, 31);
    assert (31 * Wrap(x) + c) - (31 * x + c) == Wrap(x) * 31 - x * 31;
    CongruentTrans(Wrap(31 * Wrap(x) + c), 31 * Wrap(x) + c, 31 * x + c);
    WrapUnique(Wrap(31 * Wrap(x) + c), 31 * x + c);
  }

  /** The step-by-step `int` hash is the documented polynomial, wrapped once. */
  lemma {:induction false} StringHashIsPolynomial(s: string)
    ensures StringHash(s) == Wrap(HashPolynomial(s))
    decreases |s|
  {
    if |s| > 0 {
      var t, c := s[..|s| - 1], s[|s| - 1];
      assert s == t + [c];
      StringHashIsPolynomial(t);
      PolynomialSnoc(t, c);
      WrapStep(HashPolynomial(t), c as int);
    }
  }
}
