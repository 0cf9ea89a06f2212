/**
 * `java.math.BigDecimal` as far as the account model uses it: the value
 * `unscaled * 10^-scale`, exact `add` and `subtract`, `equals` (which
 * compares the scale as well as the value) and `hashCode`.
 */
module BigDecimals {
  import opened JavaUtil

  /** A BigDecimal with a non-negative scale. */
  datatype Decimal = Decimal(unscaled: int, scale: nat)

  /** `BigDecimal.ZERO`: unscaled value 0 at scale 0. */
  const Zero: Decimal := Decimal(0, 0)

  function Pow10(n: nat): (p: nat)
    ensures p > 0
  {
    if n == 0 then 1 else 10 * Pow10(n - 1)
  }

  function Max(a: nat, b: nat): nat {
    if a < b then b else a
  }

  /** The number a decimal denotes. */
  ghost function Value(d: Decimal): real {
    d.unscaled as real / Pow10(d.scale) as real
  }

  lemma {:induction false} Pow10Add(k: nat, p: nat)
    ensures Pow10(k + p) == Pow10(k) * Pow10(p)
  {
    if k > 0 {
      Pow10Add(k - 1, p);
      assert Pow10(k + p) == 10 * Pow10(k - 1 + p);
    }
  }

  lemma CancelFactor(u: int, k: nat, p: nat)
    requires k > 0 && p > 0
    ensures (u * k) as real / (k * p) as real == u as real / p as real
  {
    var x := u as real / p as real;
    assert (u * k) as real == (u as real) * (k as real);
    assert (k * p) as real == (k as real) * (p as real);
    assert x * (p as real) == u as real;
    assert (x * (k as real * p as real)) == (u as real) * (k as real);
  }

  /** Re-expressing `d` at a larger scale `s` keeps its value. */
  lemma Rescale(d: Decimal, s: nat)
    requires d.scale <= s
    ensures (d.unscaled * Pow10(s - d.scale)) as real / Pow10(s) as real == Value(d)
  {
    Pow10Add(s - d.scale, d.scale);
    CancelFactor(d.unscaled, Pow10(s - d.scale), Pow10(d.scale));
  }

  lemma DivideDifference(x: int, y: int, p: nat)
    requires p > 0
    ensures (x - y) as real / p as real == x as real / p as real - y as real / p as real
  {
    assert (x - y) as real == x as real - y as real;
  }

  lemma DivideSum(x: int, y: int, p: nat)
    requires p > 0
    ensures (x + y) as real / p as real == x as real / p as real + y as real / p as real
  {
    assert (x + y) as real == x as real + y as real;
  }

  /** `a.add(b)`: exact, at the larger of the two scales. */
  function Add(a: Decimal, b: Decimal): (r: Decimal)
    ensures r.scale == Max(a.scale, b.scale)
    ensures Value(r) == Value(a) + Value(b)
  {
    var s := Max(a.scale, b.scale);
    var x, y := a.unscaled * Pow10(s - a.scale), b.unscaled * Pow10(s - b.scale);
    Rescale(a, s);
    Rescale(b, s);
    DivideSum(x, y, Pow10(s));
    Decimal(x + y, s)
  }

  /** `a.subtract(b)`: exact, at the larger of the two scales. */
  function Subtract(a: Decimal, b: Decimal): (r: Decimal)
    ensures r.scale == Max(a.scale, b.scale)
    ensures Value(r) == Value(a) - Value(b)
  {
    var s := Max(a.scale, b.scale);
    var x, y := a.unscaled * Pow10(s - a.scale), b.unscaled * Pow10(s - b.scale);
    Rescale(a, s);
    Rescale(b, s);
    DivideDifference(x, y, Pow10(s));
    Decimal(x - y, s)
  }

  /**
   * Adding and then subtracting the same amount gives back the value, but
   * not necessarily an `equals` decimal: the scale may have grown.
   */
  lemma AddSubtractKeepsValue(b: Decimal, a: Decimal)
    ensures Value(Subtract(Add(b, a), a)) == Value(b)
    ensures Subtract(Add(b, a), a).scale == Max(b.scale, a.scale)
  {
  }

  /** `ZERO` plus 1.50 minus 1.50 is 0.00, which is not `equals` to `ZERO`. */
  lemma ScaleIsObservable()
    ensures Subtract(Add(Zero, Decimal(150, 2)), Decimal(150, 2)) == Decimal(0, 2)
    ensures Value(Decimal(0, 2)) == Value(Zero) && Decimal(0, 2) != Zero
  {
  }

  /** The 32-bit words of a magnitude, most significant first, without leading zero words. */
  function Magnitude(n: nat): (words: seq<int>)
    ensures forall i :: 0 <= i < |words| ==> 0 <= words[i] < TWO_32
    ensures n == 0 <==> words == []
  {
    if n == 0 then [] else Magnitude(n / TWO_32) + [n % TWO_32]
  }

  function MagnitudeHash(words: seq<int>): Int32 {
    if words == [] then 0
    else Wrap32(31 * MagnitudeHash(words[..|words| - 1]) as int + words[|words| - 1])
  }

  function Signum(v: int): int {
    if v < 0 then -1 else if v == 0 then 0 else 1
  }

  /** `BigInteger.hashCode`: the 31-polynomial over the magnitude words, times the sign. */
  function BigIntegerHashCode(v: int): (r: Int32)
    ensures v == 0 ==> r == 0
  {
    var m := if v < 0 then -v else v;
    Wrap32(MagnitudeHash(Magnitude(m)) as int * Signum(v))
  }

  /**
   * `BigDecimal.hashCode`: 31 times the unscaled value's hash, plus the
   * scale, in `int` arithmetic. Zero's hash is its scale, so `0` and `0.00`,
   * which are not `equals`, hash apart.
   */
  function HashCode(d: Decimal): (r: Int32)
    ensures (r as int - (31 * BigIntegerHashCode(d.unscaled) as int + d.scale)) % TWO_32 == 0
    ensures d.unscaled == 0 && d.scale < 0x8000_0000 ==> r as int == d.scale
  {
    Wrap32(31 * BigIntegerHashCode(d.unscaled) as int + d.scale)
  }
}
