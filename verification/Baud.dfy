/**
 The clock divisor of the baud rate generator: uart_set_baudrate and uart_get_baudrate over a
 register of 20 integer and 4 fractional bits. `n` is UART_CLK_FREQ << 4.
 */
module Baud {

  const INT_BITS := 0x10_0000
  const REGISTER := 0x100_0000

  /** What the two register fields hold. */
  datatype Divisor = Divisor(divInt: nat, divFrag: nat)

  datatype Result = Ok(value: nat) | Fail | DivideByZero

  function Div(n: nat, d: nat): nat
    requires d > 0
  {
    n / d
  }

  /** The divisor split over the register: the integer field keeps 20 bits. */
  function Split(clkDiv: nat): (d: Divisor)
    ensures d.divInt < INT_BITS && d.divFrag < 16
  {
    Divisor(clkDiv / 16 % INT_BITS, clkDiv % 16)
  }

  /** The register read back as one number. */
  function Joined(d: Divisor): nat { d.divInt * 16 + d.divFrag }

  /** Nothing is lost in the register if and only if the divisor has at most 24 bits. */
  lemma SplitLosslessIff(clkDiv: nat)
    ensures Joined(Split(clkDiv)) == clkDiv <==> clkDiv < REGISTER
  {
    if clkDiv < REGISTER {
      assert clkDiv / 16 < INT_BITS;
    } else {
      assert Joined(Split(clkDiv)) < REGISTER;
    }
  }

  /** Set `b`, then get. */
  function RoundTrip(n: nat, b: nat): nat
    requires 0 < b <= n
  {
    Div(n, Div(n, b))
  }

  lemma DivBounds(n: nat, d: nat)
    requires d > 0
    ensures Div(n, d) * d <= n < Div(n, d) * d + d
  {
  }

  lemma MulMonotone(x: nat, y: nat, z: nat)
    requires x <= y
    ensures x * z <= y * z && z * x <= z * y
  {
  }

  /** `q` is at most the quotient if and only if `q` divisors fit. */
  lemma DivIs(n: nat, d: nat, q: nat)
    requires d > 0
    ensures q <= Div(n, d) <==> q * d <= n
  {
    DivBounds(n, d);
    if q <= Div(n, d) {
      MulMonotone(q, Div(n, d), d);
    } else {
      MulMonotone(Div(n, d) + 1, q, d);
      assert (Div(n, d) + 1) * d == Div(n, d) * d + d;
    }
  }

  lemma DivMonotone(n: nat, a: nat, b: nat)
    requires 0 < a <= b
    ensures Div(n, b) <= Div(n, a)
  {
    DivBounds(n, b);
    MulMonotone(a, b, Div(n, b));
    DivIs(n, a, Div(n, b));
  }

  /** The rate read back is never below the rate set. */
  lemma NeverSlower(n: nat, b: nat)
    requires 0 < b <= n
    ensures Div(n, b) > 0 && b <= RoundTrip(n, b)
  {
    DivIs(n, b, 1);
    DivBounds(n, b);
    DivIs(n, Div(n, b), b);
  }

  /** And it exceeds it by at most b * b / (n - b). */
  lemma ErrorBound(n: nat, b: nat)
    requires 0 < b < n
    ensures RoundTrip(n, b) <= b + Div(b * b, n - b)
  {
    NeverSlower(n, b);
    var d := Div(n, b);
    var r := RoundTrip(n, b);
    DivBounds(n, b);
    DivBounds(n, d);
    // d * b > n - b, so r * (n - b) < r * d * b <= n * b, unless r is 0
    assert n - b < d * b;
    MulMonotone(n - b, d * b, r);
    assert r * (n - b) <= r * (d * b);
    assert r * (d * b) == (r * d) * b by { MulAssociates(r, d, b); }
    MulMonotone(r * d, n, b);
    assert r * (n - b) <= n * b;
    var e := r - b;
    assert e * (n - b) == r * (n - b) - b * (n - b) by { MulDistributes(r, b, n - b); }
    assert b * (n - b) == b * n - b * b by { MulDistributesRight(b, n, b); }
    assert n * b == b * n;
    DivIs(b * b, n - b, e);
  }

  lemma MulAssociates(x: nat, y: nat, z: nat)
    ensures x * (y * z) == (x * y) * z
  {
  }

  lemma MulDistributes(x: nat, y: nat, z: nat)
    requires y <= x
    ensures (x - y) * z == x * z - y * z
  {
  }

  lemma MulDistributesRight(x: nat, y: nat, z: nat)
    requires z <= y
    ensures x * (y - z) == x * y - x * z
  {
  }

  /** Setting the rate that was read back programs the same divisor: the pair is stable after one
      round. */
  lemma SettingReadBackIsStable(n: nat, b: nat)
    requires 0 < b <= n
    ensures RoundTrip(n, b) <= n && RoundTrip(n, b) > 0 && Div(n, RoundTrip(n, b)) == Div(n, b)
  {
    NeverSlower(n, b);
    var d := Div(n, b);
    var r := RoundTrip(n, b);
    DivIs(n, d, r);
    DivIs(n, r, d);
    assert r * d == d * r;
    DivMonotone(n, b, r);
    MulMonotone(1, d, r);
  }

  /** `v` is the highest rate whose divisor is at least `d`. */
  ghost predicate HighestRate(n: nat, d: nat, v: nat) {
    forall b: nat :: b > 0 ==> (b <= v <==> d <= Div(n, b))
  }

  lemma QuotientIsHighest(n: nat, d: nat)
    requires d > 0
    ensures HighestRate(n, d, Div(n, d))
  {
    forall b: nat | b > 0 ensures b <= Div(n, d) <==> d <= Div(n, b) {
      DivIs(n, d, b);
      DivIs(n, b, d);
      assert b * d == d * b;
    }
  }

  lemma HighestRateIs(n: nat, d: nat, v: nat)
    requires d > 0 && HighestRate(n, d, v)
    ensures v == Div(n, d)
  {
    QuotientIsHighest(n, d);
    var q := Div(n, d);
    assert q > 0 ==> d <= Div(n, q);
    assert v > 0 ==> d <= Div(n, v);
  }

  class Generator {
    const clk: nat       // UART_CLK_FREQ
    const maxRate: nat   // UART_BITRATE_MAX
    var reg: Divisor

    constructor (clkFreq: nat, bitRateMax: nat)
      ensures clk == clkFreq && maxRate == bitRateMax
    {
      clk, maxRate := clkFreq, bitRateMax;
      reg := Divisor(0, 0);
    }

    /** uart_set_baudrate. A rate of 0 passes its check and divides by zero. */
    method SetBaudrate(rate: nat) returns (r: Result)
      modifies this
      ensures r == if rate >= maxRate then Fail else if rate == 0 then DivideByZero else Ok(0)
      ensures reg == if r.Ok? then Split(Div(clk * 16, rate)) else old(reg)
    {
      if rate >= maxRate {
        return Fail;
      }
      if rate == 0 {
        return DivideByZero;
      }
      var clkDiv := Div(clk * 16, rate);
      reg := Divisor(clkDiv / 16 % INT_BITS, clkDiv % 16);
      r := Ok(0);
    }

    /** uart_get_baudrate. The rate read is the highest for which uart_set_baudrate would compute a
        divisor no smaller than the register's; only an empty register has none. */
    method GetBaudrate() returns (r: Result)
      ensures r != Fail && (r == DivideByZero <==> Joined(reg) == 0)
      ensures r.Ok? ==> HighestRate(clk * 16, Joined(reg), r.value)
    {
      var clkDiv := reg.divInt * 16 + reg.divFrag;
      if clkDiv == 0 {
        return DivideByZero;
      }
      QuotientIsHighest(clk * 16, clkDiv);
      r := Ok(Div(clk * 16, clkDiv));
    }

    /** A rate set and read back, for every rate whose divisor fits the register. */
    method SetThenGet(rate: nat) returns (r: Result)
      requires 0 < rate < maxRate && rate < clk * 16 && Div(clk * 16, rate) < REGISTER
      modifies this
      ensures r.Ok? && rate <= r.value <= rate + Div(rate * rate, clk * 16 - rate)
      ensures r.value > 0 && reg == Split(Div(clk * 16, r.value))
    {
      var done := SetBaudrate(rate);
      SplitLosslessIff(Div(clk * 16, rate));
      NeverSlower(clk * 16, rate);
      ErrorBound(clk * 16, rate);
      SettingReadBackIsStable(clk * 16, rate);
      r := GetBaudrate();
      HighestRateIs(clk * 16, Joined(reg), r.value);
    }
  }
}
