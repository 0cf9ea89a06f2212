/**
 * The few pieces of the Java platform that the account model relies on:
 * 32-bit `int` arithmetic for hash codes, `Objects.hash`, the shape of
 * `Object.equals`, and `java.util.UUID` with its `toString` and `hashCode`.
 */
module JavaUtil {
  import opened Wrappers

  const TWO_16: int := 0x1_0000
  const TWO_32: int := 0x1_0000_0000
  const TWO_48: int := 0x1_0000_0000_0000

  /** A Java `int`. */
  newtype Int32 = x: int | -0x8000_0000 <= x < 0x8000_0000

  /** Java's wrap-around: the `int` congruent to `x` modulo 2^32. */
  function Wrap32(x: int): (r: Int32)
    ensures (r as int - x) % TWO_32 == 0
    ensures -0x8000_0000 <= x < 0x8000_0000 ==> r as int == x
  {
    var m := x % TWO_32;
    (if m < 0x8000_0000 then m else m - TWO_32) as Int32
  }

  /** `Arrays.hashCode` over the hash codes, computed without overflow. */
  function HashPolynomial(hs: seq<Int32>): int {
    if hs == [] then 1 else 31 * HashPolynomial(hs[..|hs| - 1]) + hs[|hs| - 1] as int
  }

  lemma CongruentStep(a: int, b: int, h: int, w: int)
    requires (a - b) % TWO_32 == 0 && (w - (31 * a + h)) % TWO_32 == 0
    ensures (w - (31 * b + h)) % TWO_32 == 0
  {
    var q1, q2 := (a - b) / TWO_32, (w - (31 * a + h)) / TWO_32;
    assert w - (31 * b + h) == TWO_32 * (q2 + 31 * q1);
    ModOfMultiplePlus(w - (31 * b + h), TWO_32, q2 + 31 * q1, 0);
  }

  /**
   * `Objects.hash(values...)`, that is `Arrays.hashCode`: `result = 31 *
   * result + h` for each hash code in turn, from 1, in `int` arithmetic.
   * Wrapping at every step gives the exact polynomial modulo 2^32.
   */
  function ObjectsHash(hs: seq<Int32>): (r: Int32)
    ensures (r as int - HashPolynomial(hs)) % TWO_32 == 0
  {
    if hs == [] then 1
    else
      var init, h := hs[..|hs| - 1], hs[|hs| - 1];
      var prev := ObjectsHash(init);
      var r := Wrap32(31 * prev as int + h as int);
      CongruentStep(prev as int, HashPolynomial(init), h as int, r as int);
      r
  }

  lemma HashPolynomialOfTwo(a: Int32, b: Int32)
    ensures HashPolynomial([a]) == 31 + a as int
    ensures HashPolynomial([a, b]) == 961 + 31 * a as int + b as int
  {
    assert [a][..0] == [];
    assert [a, b][..1] == [a];
  }

  /**
   * The argument of `equals(Object o)`: null, an instance of the receiver's
   * own class, or an instance of some other class.
   */
  datatype Ref<+T> = Null | Instance(obj: T) | OtherClass

  // ---------------------------------------------------------------------
  // java.util.UUID
  // ---------------------------------------------------------------------

  /** The bit pattern of a Java `long`, read as an unsigned number. */
  newtype U64 = x: int | 0 <= x < 0x1_0000_0000_0000_0000

  /** A UUID is its two 64-bit halves; `UUID.equals` compares exactly these. */
  datatype UUID = UUID(mostSigBits: U64, leastSigBits: U64)

  const HexDigits: string := "0123456789abcdef"

  predicate IsHexDigit(c: char) {
    '0' <= c <= '9' || 'a' <= c <= 'f'
  }

  function DigitValue(c: char): (d: nat)
    requires IsHexDigit(c)
    ensures d < 16 && HexDigits[d] == c
  {
    if '0' <= c <= '9' then (c - '0') as nat else (c - 'a') as nat + 10
  }

  function Pow16(n: nat): (p: nat)
    ensures p > 0
  {
    if n == 0 then 1 else 16 * Pow16(n - 1)
  }

  /** The last `n` hexadecimal digits of `x`, zero-padded (`UUID.digits`). */
  function Hex(x: nat, n: nat): (s: string)
    ensures |s| == n
    ensures forall i :: 0 <= i < |s| ==> IsHexDigit(s[i])
  {
    if n == 0 then "" else Hex(x / 16, n - 1) + [HexDigits[x % 16]]
  }

  /** The number a string of hexadecimal digits denotes. */
  function HexValue(s: string): (v: nat)
    requires forall i :: 0 <= i < |s| ==> IsHexDigit(s[i])
    ensures v < Pow16(|s|)
  {
    if s == [] then 0 else 16 * HexValue(s[..|s| - 1]) + DigitValue(s[|s| - 1])
  }

  lemma DivModStep(x: nat, p: nat)
    requires p > 0
    ensures (x / 16) % p * 16 + x % 16 == x % (16 * p)
  {
    var q, r := x / 16, x % 16;
    var t, u := q / p, q % p;
    assert x == (16 * p) * t + (16 * u + r);
    assert 0 <= 16 * u + r < 16 * p;
    ModOfMultiplePlus(x, 16 * p, t, 16 * u + r);
  }

  lemma MulAtLeast(d: int, k: int)
    requires d > 0 && k >= 1
    ensures d * k >= d
  {
    assert d * k == d * (k - 1) + d;
    assert d * (k - 1) >= 0;
  }

  lemma ModOfMultiplePlus(x: int, d: int, t: int, r: int)
    requires d > 0 && 0 <= r < d && x == d * t + r
    ensures x % d == r && x / d == t
  {
    var q, m := x / d, x % d;
    assert x == d * q + m;
    assert d * (q - t) == r - m by {
      assert d * q - d * t == d * (q - t);
    }
    if q > t {
      MulAtLeast(d, q - t);
    } else if q < t {
      MulAtLeast(d, t - q);
    }
  }

  lemma DigitOf(d: nat)
    requires d < 16
    ensures DigitValue(HexDigits[d]) == d
  {
  }

  /** Reading back the digits of `Hex(x, n)` gives `x` modulo 16^n. */
  lemma {:induction false} HexRoundTrip(x: nat, n: nat)
    ensures HexValue(Hex(x, n)) == x % Pow16(n)
  {
    if n > 0 {
      var s := Hex(x, n);
      assert s[..n - 1] == Hex(x / 16, n - 1);
      HexRoundTrip(x / 16, n - 1);
      DigitOf(x % 16);
      assert HexValue(s) == 16 * ((x / 16) % Pow16(n - 1)) + x % 16;
      DivModStep(x, Pow16(n - 1));
    }
  }

  /** `UUID.toString`: 8-4-4-4-12 lower-case hexadecimal digits separated by dashes. */
  function ToString(u: UUID): (s: string)
    ensures |s| == 36
  {
    var msb, lsb := u.mostSigBits as int, u.leastSigBits as int;
    Hex(msb / TWO_32, 8) + "-" + Hex(msb / TWO_16, 4) + "-" + Hex(msb, 4) + "-"
      + Hex(lsb / TWO_48, 4) + "-" + Hex(lsb, 12)
  }

  predicate AllHex(s: string) {
    forall i :: 0 <= i < |s| ==> IsHexDigit(s[i])
  }

  /** Dashes at positions 8, 13, 18 and 23 of 36, hexadecimal digits elsewhere. */
  predicate IsCanonical(s: string) {
    && |s| == 36 && s[8] == '-' && s[13] == '-' && s[18] == '-' && s[23] == '-'
    && AllHex(s[0..8]) && AllHex(s[9..13]) && AllHex(s[14..18]) && AllHex(s[19..23]) && AllHex(s[24..36])
  }

  function HighHalf(s: string): (v: nat)
    requires IsCanonical(s)
    ensures v < 0x1_0000_0000_0000_0000
  {
    Pow16Values();
    HexValue(s[0..8]) * TWO_32 + HexValue(s[9..13]) * TWO_16 + HexValue(s[14..18])
  }

  function LowHalf(s: string): (v: nat)
    requires IsCanonical(s)
    ensures v < 0x1_0000_0000_0000_0000
  {
    Pow16Values();
    HexValue(s[19..23]) * TWO_48 + HexValue(s[24..36])
  }

  /** Parses the canonical form that `ToString` produces; anything else is `None`. */
  function ParseCanonical(s: string): (r: Option<UUID>)
    ensures r.Some? <==> IsCanonical(s)
  {
    if IsCanonical(s) then Some(UUID(HighHalf(s) as U64, LowHalf(s) as U64)) else None
  }

  lemma DivDiv(x: nat)
    ensures x / TWO_16 / TWO_16 == x / TWO_32
  {
    var a := x / TWO_16;
    var b := a / TWO_16;
    var r := (a % TWO_16) * TWO_16 + x % TWO_16;
    assert x == TWO_32 * b + r;
    ModOfMultiplePlus(x, TWO_32, b, r);
  }

  lemma Pow16Values()
    ensures Pow16(4) == TWO_16 && Pow16(8) == TWO_32 && Pow16(12) == TWO_48
  {
  }

  lemma DivBelow(x: nat, d: nat, b: nat)
    requires d > 0 && x < d * b
    ensures x / d < b
  {
    var q := x / d;
    assert x == d * q + x % d;
  }

  /** Digits of a number below 16^n read back as the number itself. */
  lemma HexExact(x: nat, n: nat)
    requires x < Pow16(n)
    ensures HexValue(Hex(x, n)) == x
  {
    HexRoundTrip(x, n);
    ModOfMultiplePlus(x, Pow16(n), 0, x);
  }

  /** The three groups of digits of the high half put back together. */
  lemma HighHalfDigits(msb: nat)
    requires msb < 0x1_0000_0000_0000_0000
    ensures HexValue(Hex(msb / TWO_32, 8)) * TWO_32 + HexValue(Hex(msb / TWO_16, 4)) * TWO_16
            + HexValue(Hex(msb, 4)) == msb
  {
    Pow16Values();
    var hi, a := msb / TWO_32, msb / TWO_16;
    DivBelow(msb, TWO_32, TWO_32);
    HexExact(hi, 8);
    HexRoundTrip(a, 4);
    HexRoundTrip(msb, 4);
    DivDiv(msb);
    assert a == hi * TWO_16 + a % TWO_16;
    assert msb == a * TWO_16 + msb % TWO_16;
  }

  /** The two groups of digits of the low half put back together. */
  lemma LowHalfDigits(lsb: nat)
    requires lsb < 0x1_0000_0000_0000_0000
    ensures HexValue(Hex(lsb / TWO_48, 4)) * TWO_48 + HexValue(Hex(lsb, 12)) == lsb
  {
    Pow16Values();
    var hi := lsb / TWO_48;
    DivBelow(lsb, TWO_48, TWO_16);
    HexExact(hi, 4);
    HexRoundTrip(lsb, 12);
    assert lsb == hi * TWO_48 + lsb % TWO_48;
  }

  /** Where the five groups of digits sit in the string form. */
  lemma ToStringGroups(u: UUID)
    ensures var s, msb, lsb := ToString(u), u.mostSigBits as int, u.leastSigBits as int;
      && s[8] == '-' && s[13] == '-' && s[18] == '-' && s[23] == '-'
      && s[0..8] == Hex(msb / TWO_32, 8) && s[9..13] == Hex(msb / TWO_16, 4) && s[14..18] == Hex(msb, 4)
      && s[19..23] == Hex(lsb / TWO_48, 4) && s[24..36] == Hex(lsb, 12)
  {
    var msb, lsb := u.mostSigBits as int, u.leastSigBits as int;
    var h0, h1, h2 := Hex(msb / TWO_32, 8), Hex(msb / TWO_16, 4), Hex(msb, 4);
    var h3, h4 := Hex(lsb / TWO_48, 4), Hex(lsb, 12);
    var s := ToString(u);
    assert s == h0 + "-" + h1 + "-" + h2 + "-" + h3 + "-" + h4;
  }

  /** The string form loses nothing: parsing it gives back the UUID. */
  lemma ParseToString(u: UUID)
    ensures ParseCanonical(ToString(u)) == Some(u)
  {
    var msb, lsb := u.mostSigBits as int, u.leastSigBits as int;
    var s := ToString(u);
    ToStringGroups(u);
    assert IsCanonical(s);
    HighHalfDigits(msb);
    LowHalfDigits(lsb);
    assert HighHalf(s) == msb;
    assert LowHalf(s) == lsb;
  }

  /** Distinct UUIDs have distinct string forms. */
  lemma ToStringInjective(a: UUID, b: UUID)
    requires ToString(a) == ToString(b)
    ensures a == b
  {
    ParseToString(a);
    ParseToString(b);
  }

  /** The high and the low 32 bits of a 64-bit word. */
  function High(x: bv64): bv32 {
    (x >> 32) as bv32
  }

  function Low(x: bv64): bv32 {
    (x & 0xFFFF_FFFF) as bv32
  }

  /** The xor of the four 32-bit words of two 64-bit words. */
  function XorWords(m: bv64, l: bv64): bv64 {
    (High(m) ^ Low(m) ^ High(l) ^ Low(l)) as bv64
  }

  lemma FoldXor(m: bv64, l: bv64)
    ensures ((m ^ l) >> 32) ^ ((m ^ l) & 0xFFFF_FFFF) == XorWords(m, l)
  {
  }

  /**
   * `UUID.hashCode`: the two 32-bit halves of `msb ^ lsb`, xor-ed, that is
   * the xor of the four 32-bit words of the id.
   */
  function UuidHashCode(u: UUID): (r: Int32)
    ensures var m, l := u.mostSigBits as int as bv64, u.leastSigBits as int as bv64;
      r == Wrap32(XorWords(m, l) as int)
  {
    var m, l := u.mostSigBits as int as bv64, u.leastSigBits as int as bv64;
    var hilo := m ^ l;
    var folded := (hilo >> 32) ^ (hilo & 0xFFFF_FFFF);
    FoldXor(m, l);
    Wrap32(folded as int)
  }
}
