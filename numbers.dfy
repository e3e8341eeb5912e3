/** Integer helpers of the console: `log2`, the DDR and encoder bandwidth
  * arithmetic, and the `atoi` used to read numeric arguments. */
module Numbers {
  const Mega: nat := 1000000
  /** Sizes of C's `unsigned int` and `unsigned long long` value ranges. */
  const U32: nat := 0x1_0000_0000
  const U64: nat := 0x1_0000_0000_0000_0000

  function Pow2(k: nat): (r: nat)
    ensures r >= 1
  {
    if k == 0 then 1 else 2 * Pow2(k - 1)
  }

  /** floor(log2(v)), with the source's convention that 0 and 1 both give 0. */
  function FloorLog2(v: nat): nat
  {
    if v < 2 then 0 else 1 + FloorLog2(v / 2)
  }

  /** FloorLog2 brackets its argument between two consecutive powers of two. */
  lemma {:induction false} FloorLog2Bounds(v: nat)
    requires v >= 1
    ensures Pow2(FloorLog2(v)) <= v < Pow2(FloorLog2(v) + 1)
  {
    if v >= 2 {
      FloorLog2Bounds(v / 2);
    }
  }

  /** `log2` of the DDR report: shifts v right until it is zero, counting the
    * shifts that left something behind. */
  method Log2(v: nat) returns (r: nat)
    ensures r == FloorLog2(v)
    ensures v >= 1 ==> Pow2(r) <= v < Pow2(r + 1)
    ensures v <= 1 ==> r == 0
  {
    r := 0;
    var x: nat := v / 2;
    while x != 0
      invariant r + (if x == 0 then 0 else FloorLog2(x) + 1) == FloorLog2(v)
      decreases x
    {
      r := r + 1;
      x := x / 2;
    }
    if v >= 1 {
      FloorLog2Bounds(v);
    }
  }

  /** One direction of the DDR rate: the `nr*f` product in 64-bit arithmetic,
    * shifted right by `24 - log2(burstbits)`, divided by 10^6 and stored in
    * an `unsigned int`. */
  function DdrMbps(count: nat, freq: nat, burstBits: nat): (r: nat)
    requires FloorLog2(burstBits) <= 24
    ensures r < U32
  {
    Megabits(count * freq, Pow2(24 - FloorLog2(burstBits)))
  }

  /** A 64-bit product shifted right (divided by a power of two, `scale`),
    * divided by 10^6 and kept as 32 bits. */
  function Megabits(product: nat, scale: nat): (r: nat)
    requires scale >= 1
    ensures r < U32
  {
    (product % U64 / scale) / Mega % U32
  }

  /** Nested floor divisions are one floor division by the product. */
  lemma DivDiv(x: nat, a: nat, b: nat)
    requires a >= 1 && b >= 1
    ensures x / a / b * (a * b) <= x < (x / a / b + 1) * (a * b)
  {
    var q := x / a;
    var r1 := x - q * a;
    var q2 := q / b;
    var r2 := q - q2 * b;
    assert x == q * a + r1 && 0 <= r1 < a;
    assert q == q2 * b + r2 && 0 <= r2 < b;
    assert x == q2 * (a * b) + (r2 * a + r1) by {
      assert q * a == (q2 * b + r2) * a;
    }
    assert r2 * a + r1 < a * b by {
      assert r2 * a <= (b - 1) * a;
    }
  }

  /** Without wrap-around, the rate is floor(x / (scale * 10^6)). */
  lemma MegabitsExact(x: nat, scale: nat)
    requires scale >= 1 && x < U64 && x / scale / Mega < U32
    ensures Megabits(x, scale) * (scale * Mega) <= x < (Megabits(x, scale) + 1) * (scale * Mega)
  {
    var q := x / scale / Mega;
    assert x % U64 == x;
    assert q % U32 == q;
    assert Megabits(x, scale) == q;
    DivDiv(x, scale, Mega);
  }

  /** Without 64-bit or 32-bit overflow, the reported rate is the whole number
    * of megabits: count * freq / 2^(24 - log2(burstBits)) / 10^6, rounded down. */
  lemma DdrMbpsExact(count: nat, freq: nat, burstBits: nat)
    requires FloorLog2(burstBits) <= 24
    requires count * freq < U64
    requires count * freq / Pow2(24 - FloorLog2(burstBits)) / Mega < U32
    ensures var m := Pow2(24 - FloorLog2(burstBits)) * Mega;
      DdrMbps(count, freq, burstBits) * m <= count * freq < (DdrMbps(count, freq, burstBits) + 1) * m
  {
    var scale := Pow2(24 - FloorLog2(burstBits));
    var x := count * freq;
    MegabitsExact(x, scale);
    assert DdrMbps(count, freq, burstBits) == Megabits(x, scale);
  }

  /** Encoder rate: the byte counter times 8 (in `unsigned int`), over 10^6. */
  function EncoderMbps(nbytes: nat): (r: nat)
    requires nbytes < U32
    ensures nbytes * 8 < U32 ==> r * Mega <= nbytes * 8 < (r + 1) * Mega
  {
    (nbytes * 8) % U32 / Mega
  }

  // ---- atoi ----

  predicate IsSpace(c: char) {
    c == ' ' || c == '\t' || c == '\n' || c == '\r' || c == 11 as char || c == 12 as char
  }

  predicate IsDigit(c: char) {
    '0' <= c <= '9'
  }

  function SkipSpaces(s: string): string {
    if s != [] && IsSpace(s[0]) then SkipSpaces(s[1..]) else s
  }

  /** The longest run of decimal digits at the head of s. */
  function LeadingDigits(s: string): (r: string)
    ensures forall i :: 0 <= i < |r| ==> IsDigit(r[i])
  {
    if s != [] && IsDigit(s[0]) then [s[0]] + LeadingDigits(s[1..]) else []
  }

  function DigitValue(c: char): nat
    requires IsDigit(c)
  {
    c as int - '0' as int
  }

  /** The number a run of decimal digits denotes, most significant first. */
  function DecValue(ds: string): nat
    requires forall i :: 0 <= i < |ds| ==> IsDigit(ds[i])
  {
    if ds == [] then 0 else DecValue(ds[..|ds| - 1]) * 10 + DigitValue(ds[|ds| - 1])
  }

  /** C's `atoi`: leading white space, an optional sign, then decimal digits up
    * to the first non-digit; text without digits reads as 0. */
  function Atoi(s: string): (r: int)
    ensures s == [] ==> r == 0
    ensures s != [] && !IsSpace(s[0]) && !IsDigit(s[0]) && s[0] != '-' && s[0] != '+' ==> r == 0
  {
    var t := SkipSpaces(s);
    if t != [] && t[0] == '-' then -(DecValue(LeadingDigits(t[1..])) as int)
    else if t != [] && t[0] == '+' then DecValue(LeadingDigits(t[1..]))
    else DecValue(LeadingDigits(t))
  }

  function DigitChar(d: nat): (c: char)
    requires d < 10
    ensures IsDigit(c) && DigitValue(c) == d
  {
    ('0' as int + d) as char
  }

  /** How `%d` prints a non-negative value. */
  function Decimal(n: nat): (r: string)
    ensures r != [] && forall i :: 0 <= i < |r| ==> IsDigit(r[i])
  {
    if n < 10 then [DigitChar(n)] else Decimal(n / 10) + [DigitChar(n % 10)]
  }

  lemma {:induction false} LeadingDigitsAll(s: string, tail: string)
    requires forall i :: 0 <= i < |s| ==> IsDigit(s[i])
    requires tail == [] || !IsDigit(tail[0])
    ensures LeadingDigits(s + tail) == s
  {
    if s != [] {
      assert (s + tail)[0] == s[0] && (s + tail)[1..] == s[1..] + tail;
      LeadingDigitsAll(s[1..], tail);
    } else {
      assert s + tail == tail;
    }
  }

  lemma {:induction false} DecValueDecimal(n: nat)
    ensures DecValue(Decimal(n)) == n
  {
    if n >= 10 {
      var d := Decimal(n);
      assert d[..|d| - 1] == Decimal(n / 10);
      DecValueDecimal(n / 10);
    }
  }

  /** `atoi` reads back what `%d` prints, for either sign. */
  lemma AtoiDecimal(n: nat)
    ensures Atoi(Decimal(n)) == n
    ensures Atoi("-" + Decimal(n)) == -(n as int)
  {
    var d := Decimal(n);
    LeadingDigitsAll(d, []);
    assert d + [] == d;
    DecValueDecimal(n);
    assert SkipSpaces(d) == d;
    var m := "-" + d;
    assert SkipSpaces(m) == m;
    assert m[1..] == d;
  }
}
