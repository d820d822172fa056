/** The PolyGnome module: a polymetric clock. A phase accumulator drives a
    base clock and four sub-clocks whose rates are denominator/numerator
    times the base rate. Whole cycles are carried into an integer counter,
    which is kept small by subtracting a common period of the sub-clocks
    whose gate outputs are in use. */
module PolyGnomeCore {

  const NumClocks: nat := 4

  // Parameter ids
  const ClockParam: nat := 0
  const ClockNumerator1: nat := 1
  const ClockDenominator1: nat := 5
  const NumParams: nat := 9

  // Output ids: gate 0 is the base clock, gates 1..4 the sub-clocks
  const ClockGate0: nat := 0
  const NumOutputs: nat := 5

  // Light ids
  const LightNumerator1: nat := 0
  const LightDenominator1: nat := 4
  const NumLights: nat := 8

  /** The value the cycle counter starts from. */
  const InitialLongpart: int := 274

  /* ---------------- Parameters ---------------- */

  /** The C conversion of a float to int: truncation toward zero. */
  function Trunc(x: real): (r: int)
    ensures 0.0 <= x ==> r as real <= x < r as real + 1.0
    ensures x < 0.0 ==> r as real - 1.0 < x <= r as real
  {
    if x >= 0.0 then x.Floor else -((-x).Floor)
  }

  /** Numerator of sub-clock i. */
  function Numi(params: seq<real>, i: int): (n: int)
    requires |params| == NumParams && 0 <= i < NumClocks
    ensures n >= 1 <==> params[ClockNumerator1 + i] >= 1.0
  {
    Trunc(params[ClockNumerator1 + i])
  }

  /** Denominator of sub-clock i. */
  function Deni(params: seq<real>, i: int): (d: int)
    requires |params| == NumParams && 0 <= i < NumClocks
    ensures d >= 1 <==> params[ClockDenominator1 + i] >= 1.0
  {
    Trunc(params[ClockDenominator1 + i])
  }

  /** The parameter range the step routine relies on: every numerator and
      denominator is at least 1. */
  predicate ParamsValid(params: seq<real>)
  {
    |params| == NumParams &&
    forall i :: 0 <= i < NumClocks ==> Numi(params, i) >= 1 && Deni(params, i) >= 1
  }

  /* ---------------- The carry of whole cycles ---------------- */

  /** How many whole cycles the carry loop takes out of a phase x: none when
      x <= 1, otherwise the number that leaves a phase in (0, 1]. */
  function Carries(x: real): (n: int)
    ensures x <= 1.0 ==> n == 0
    ensures x > 1.0 ==> n >= 1 && 0.0 < x - n as real <= 1.0
  {
    if x <= 1.0 then 0 else -((1.0 - x).Floor)
  }

  /** At most one whole number of cycles leaves a phase in (0, 1]. */
  lemma CarriesUnique(x: real, k: int)
    requires x > 1.0 && 0.0 < x - k as real <= 1.0
    ensures k == Carries(x)
  {
    var c := Carries(x);
    assert -1.0 < (k - c) as real < 1.0;
  }

  /** The carry loop: move whole cycles from the phase into the counter. */
  method Carry(phase: real, longpart: int) returns (p: real, l: int)
    requires phase >= 0.0
    ensures p + l as real == phase + longpart as real
    ensures 0.0 <= p <= 1.0
    ensures l == longpart + Carries(phase) && p == phase - Carries(phase) as real
  {
    p, l := phase, longpart;
    while p > 1.0
      invariant p + l as real == phase + longpart as real
      invariant l >= longpart
      invariant l == longpart || p > 0.0
      invariant p >= 0.0
      decreases p.Floor
    {
      p := p - 1.0;
      l := l + 1;
    }
    if l != longpart {
      CarriesUnique(phase, l - longpart);
    }
  }

  /* ---------------- The common period ---------------- */

  /** Product of the denominators of the active sub-clocks among 0..n-1;
      active[i + 1] tells whether sub-clock i's gate output is in use. */
  function DenProduct(params: seq<real>, active: seq<bool>, n: nat): (r: int)
    requires |params| == NumParams && |active| == NumOutputs && n <= NumClocks
    ensures ParamsValid(params) ==> r >= 1
  {
    if n == 0 then 1
    else
      var r := DenProduct(params, active, n - 1);
      var f := if active[n] then Deni(params, n - 1) else 1;
      assert ParamsValid(params) ==> r * f >= 1 by {
        if ParamsValid(params) {
          MulAtLeast(f, r);
        }
      }
      r * f
  }

  /** Product of the numerators of the active sub-clocks among 0..n-1. */
  function NumProduct(params: seq<real>, active: seq<bool>, n: nat): (r: int)
    requires |params| == NumParams && |active| == NumOutputs && n <= NumClocks
    ensures ParamsValid(params) ==> r >= 1
  {
    if n == 0 then 1
    else
      var r := NumProduct(params, active, n - 1);
      var f := if active[n] then Numi(params, n - 1) else 1;
      assert ParamsValid(params) ==> r * f >= 1 by {
        if ParamsValid(params) {
          MulAtLeast(f, r);
        }
      }
      r * f
  }

  /** The common period: the product of denominator times numerator over
      the active sub-clocks among 0..n-1 (1 when none is active). With valid
      parameters it is at least 1. */
  function CommonPeriod(params: seq<real>, active: seq<bool>, n: nat): (c: int)
    requires |params| == NumParams && |active| == NumOutputs && n <= NumClocks
    ensures ParamsValid(params) ==> c >= 1
  {
    if n == 0 then 1
    else
      var c := CommonPeriod(params, active, n - 1);
      var f := if active[n] then Deni(params, n - 1) * Numi(params, n - 1) else 1;
      assert ParamsValid(params) ==> c * f >= 1 by {
        if ParamsValid(params) {
          MulAtLeast(Deni(params, n - 1), Numi(params, n - 1));
          MulAtLeast(f, c);
        }
      }
      c * f
  }

  lemma {:induction false} ProductsCombine(params: seq<real>, active: seq<bool>, n: nat)
    requires |params| == NumParams && |active| == NumOutputs && n <= NumClocks
    ensures DenProduct(params, active, n) * NumProduct(params, active, n) == CommonPeriod(params, active, n)
  {
    if n > 0 {
      ProductsCombine(params, active, n - 1);
      var d, m := DenProduct(params, active, n - 1), NumProduct(params, active, n - 1);
      if active[n] {
        var a, b := Deni(params, n - 1), Numi(params, n - 1);
        MulRegroup(d, a, m, b);
      }
    }
  }

  lemma MulAssoc(x: int, y: int, z: int)
    ensures (x * y) * z == x * (y * z)
  {
  }

  lemma MulSwap(x: int, y: int)
    ensures x * y == y * x
  {
  }

  lemma MulRegroup(d: int, a: int, m: int, b: int)
    ensures (d * a) * (m * b) == (d * m) * (a * b)
  {
  }

  /** The common period is exactly 1 when no sub-clock is active. */
  lemma {:induction false} CommonPeriodNoneActive(params: seq<real>, active: seq<bool>, n: nat)
    requires |params| == NumParams && |active| == NumOutputs && n <= NumClocks
    requires forall j :: 1 <= j <= n ==> !active[j]
    ensures CommonPeriod(params, active, n) == 1
  {
    if n > 0 {
      CommonPeriodNoneActive(params, active, n - 1);
    }
  }

  /** The common period is a multiple of denominator times numerator of
      every active sub-clock: m is the cofactor. */
  lemma {:induction false} CommonPeriodMultiple(params: seq<real>, active: seq<bool>, n: nat, i: nat) returns (m: int)
    requires ParamsValid(params) && |active| == NumOutputs && n <= NumClocks
    requires i < n && active[i + 1]
    ensures CommonPeriod(params, active, n) == Deni(params, i) * Numi(params, i) * m
  {
    var c := CommonPeriod(params, active, n - 1);
    var a := if active[n] then Deni(params, n - 1) * Numi(params, n - 1) else 1;
    assert CommonPeriod(params, active, n) == c * a;
    if i == n - 1 {
      m := c;
      MulSwap(c, Deni(params, i) * Numi(params, i));
    } else {
      var m' := CommonPeriodMultiple(params, active, n - 1, i);
      m := m' * a;
      MulAssoc(Deni(params, i) * Numi(params, i), m', a);
    }
  }

  /** The loop over the sub-clocks that multiplies up the common period. */
  method CommonPeriodOf(params: seq<real>, active: seq<bool>) returns (commonp: int)
    requires |params| == NumParams && |active| == NumOutputs
    ensures commonp == CommonPeriod(params, active, NumClocks)
  {
    var sd := 1;
    var sn := 1;
    var i := 0;
    while i < NumClocks
      invariant 0 <= i <= NumClocks
      invariant sd == DenProduct(params, active, i)
      invariant sn == NumProduct(params, active, i)
    {
      if active[ClockGate0 + i + 1] {
        sd := sd * Deni(params, i);
        sn := sn * Numi(params, i);
      }
      i := i + 1;
    }
    ProductsCombine(params, active, NumClocks);
    commonp := sd * sn;
  }

  /* ---------------- Renormalisation ---------------- */

  /** Where the renormalisation loop leaves a counter l for period m: l
      itself when l <= m, else the member of l's residue class in (0, m]. */
  function Reduce(l: int, m: int): (r: int)
    requires m >= 1
    ensures l <= m ==> r == l
    ensures l > m ==> 0 < r <= m
    ensures (l - r) % m == 0
  {
    if l <= m then l
    else
      var q := (l - 1) / m;
      assert l - ((l - 1) % m + 1) == q * m;
      MulMod(q, m);
      (l - 1) % m + 1
  }

  lemma MulAtLeast(k: int, m: int)
    requires k >= 1 && m >= 1
    ensures k * m >= m
  {
  }

  /** No remainder means a whole multiple. */
  lemma DivExact(a: int, m: int)
    requires m >= 1 && a % m == 0
    ensures a == (a / m) * m
  {
  }

  /** A multiple of m leaves no remainder. */
  lemma MulMod(q: int, m: int)
    requires m >= 1
    ensures (q * m) % m == 0
  {
    var d, r := (q * m) / m, (q * m) % m;
    assert q * m == d * m + r;
    assert (q - d) * m == r;
    if q - d >= 1 {
      MulAtLeast(q - d, m);
    } else if q - d <= -1 {
      MulAtLeast(d - q, m);
    }
  }

  /** Within (0, m] there is only one member of a residue class. */
  lemma ReduceUnique(l: int, m: int, k: nat)
    requires m >= 1 && 0 < l - k * m <= m
    ensures l - k * m == Reduce(l, m)
  {
    var r := Reduce(l, m);
    DivExact(l - r, m);
    var q := (l - r) / m;
    var d := q - k;
    assert (l - k * m) - r == d * m;
    if d >= 1 {
      MulAtLeast(d, m);
    } else if d <= -1 {
      MulAtLeast(-d, m);
    }
  }

  /** The renormalisation loop: subtract the period while the counter is
      above it. */
  method Renormalise(longpart: int, commonp: int) returns (l: int)
    requires commonp >= 1
    ensures l == Reduce(longpart, commonp)
  {
    l := longpart;
    ghost var k: nat := 0;
    while l > commonp
      invariant l == longpart - k * commonp
      invariant k == 0 || l > 0
    {
      l := l - commonp;
      k := k + 1;
    }
    if k > 0 {
      ReduceUnique(longpart, commonp, k);
    }
  }

  /* ---------------- The gates ---------------- */

  /** Fractional part of a non-negative or negative real (floor based). */
  function Frac(x: real): (r: real)
    ensures 0.0 <= r < 1.0
    ensures (x - r).Floor as real == x - r
  {
    x - x.Floor as real
  }

  /** Adding a whole number does not move the fractional part. */
  lemma FracShift(x: real, n: int)
    ensures Frac(x + n as real) == Frac(x)
  {
    var f := x.Floor;
    assert f as real <= x < f as real + 1.0;
    assert (f + n) as real <= x + n as real < (f + n) as real + 1.0;
    assert (x + n as real).Floor == f + n;
  }

  /** Rate of gate i relative to the base clock: 1 for the base clock,
      denominator / numerator for a sub-clock. */
  function Ratio(params: seq<real>, i: int): (r: real)
    requires ParamsValid(params) && 0 <= i < NumOutputs
    ensures r > 0.0
    ensures i > 0 ==> r * Numi(params, i - 1) as real == Deni(params, i - 1) as real
  {
    if i == 0 then 1.0 else Deni(params, i - 1) as real / Numi(params, i - 1) as real
  }

  /** A gate's voltage: 10 in the first half of its cycle, 0 in the second.
      The phase is split into its fractional part and the cycle counter. */
  function Gate(phase: real, longpart: int, ratio: real): (v: real)
    ensures v == 10.0 || v == 0.0
  {
    if Frac(phase * ratio + longpart as real * ratio) < 0.5 then 10.0 else 0.0
  }

  /** A restatement of Gate's definition, for use inside the quantified
      loop invariant of Gates, where the verifier does not unfold Gate by
      itself. */
  lemma GateDefinition(phase: real, longpart: int, ratio: real)
    ensures Gate(phase, longpart, ratio) ==
            if Frac(phase * ratio + longpart as real * ratio) < 0.5 then 10.0 else 0.0
  {
  }

  /** Gates agree for two counters whose difference, scaled by the ratio,
      is a whole number. */
  lemma GateShift(phase: real, l: int, l': int, ratio: real, d: int, n: int)
    requires l - l' == d && d as real * ratio == n as real
    ensures Gate(phase, l, ratio) == Gate(phase, l', ratio)
  {
    var x := phase * ratio + l' as real * ratio;
    assert phase * ratio + l as real * ratio == x + n as real;
    FracShift(x, n);
  }

  /** The base clock: with a phase in [0, 1) the gate is high exactly in the
      first half of the cycle, whatever the counter; a phase of exactly 1,
      which the carry loop can leave, counts as the start of the next cycle. */
  lemma BaseGateDuty(phase: real, longpart: int)
    requires 0.0 <= phase <= 1.0
    ensures Gate(phase, longpart, 1.0) == if phase < 0.5 || phase == 1.0 then 10.0 else 0.0
  {
    if phase == 1.0 {
      FracShift(0.0, longpart + 1);
      assert Frac(0.0) == 0.0;
    } else {
      FracShift(phase, longpart);
      assert Frac(phase) == phase;
    }
  }

  /** A sub-clock with ratio d/n repeats every n base cycles. */
  lemma SubClockPeriodic(phase: real, longpart: int, params: seq<real>, i: int)
    requires ParamsValid(params) && 1 <= i < NumOutputs
    ensures Gate(phase, longpart + Numi(params, i - 1), Ratio(params, i)) ==
            Gate(phase, longpart, Ratio(params, i))
  {
    GateShift(phase, longpart + Numi(params, i - 1), longpart, Ratio(params, i), Numi(params, i - 1), Deni(params, i - 1));
  }

  /** Renormalising the counter leaves the base clock and every active
      sub-clock exactly where they were: the reduction is a multiple of the
      common period, which each of their cycles divides. */
  lemma RenormaliseKeepsGate(phase: real, longpart: int, params: seq<real>, active: seq<bool>, i: int)
    requires ParamsValid(params) && |active| == NumOutputs
    requires 0 <= i < NumOutputs && (i == 0 || active[i])
    ensures var r := Reduce(longpart, CommonPeriod(params, active, NumClocks));
            Gate(phase, r, Ratio(params, i)) == Gate(phase, longpart, Ratio(params, i))
  {
    var cp := CommonPeriod(params, active, NumClocks);
    if longpart > cp {
      var k := ReduceQuotient(longpart, cp);
      var z := k * cp;
      if i > 0 {
        z := SubClockWhole(params, active, i - 1, k);
      }
      GateShift(phase, longpart, Reduce(longpart, cp), Ratio(params, i), k * cp, z);
    }
  }

  /** A whole multiple of the common period moves an active sub-clock by
      whole cycles. */
  lemma SubClockWhole(params: seq<real>, active: seq<bool>, j: int, k: int) returns (z: int)
    requires ParamsValid(params) && |active| == NumOutputs
    requires 0 <= j < NumClocks && active[j + 1]
    ensures (k * CommonPeriod(params, active, NumClocks)) as real * Ratio(params, j + 1) == z as real
  {
    var m := CommonPeriodMultiple(params, active, NumClocks, j);
    z := WholeShift(k, CommonPeriod(params, active, NumClocks), Deni(params, j), Numi(params, j), m, Ratio(params, j + 1));
  }

  /** The reduction removes k whole periods. */
  lemma ReduceQuotient(l: int, m: int) returns (k: int)
    requires m >= 1
    ensures l - Reduce(l, m) == k * m
  {
    DivExact(l - Reduce(l, m), m);
    k := (l - Reduce(l, m)) / m;
  }

  /** A multiple of d·n·m, scaled by a ratio d/n, is a whole number. */
  lemma WholeShift(k: int, cp: int, d: int, n: int, m: int, ratio: real) returns (z: int)
    requires cp == d * n * m && ratio * n as real == d as real
    ensures (k * cp) as real * ratio == z as real
  {
    Regroup(k, d, n, m);
    var w := k * m * d;
    ScaleRatio(w, n, d, ratio);
    z := w * d;
  }

  lemma Regroup(k: int, d: int, n: int, m: int)
    ensures k * (d * n * m) == (k * m * d) * n
  {
  }

  lemma ScaleRatio(w: int, n: int, d: int, ratio: real)
    requires ratio * n as real == d as real
    ensures (w * n) as real * ratio == (w * d) as real
  {
    assert (w * n) as real == w as real * n as real;
    assert (w * d) as real == w as real * d as real;
  }

  /** The loop that writes all five gate outputs. */
  method Gates(phase: real, longpart: int, params: seq<real>) returns (gates: seq<real>)
    requires ParamsValid(params)
    ensures |gates| == NumOutputs
    ensures forall i :: 0 <= i < NumOutputs ==> gates[i] == Gate(phase, longpart, Ratio(params, i))
  {
    gates := [];
    var i := 0;
    while i < NumClocks + 1
      invariant 0 <= i <= NumOutputs && |gates| == i
      invariant forall j :: 0 <= j < i ==> gates[j] == Gate(phase, longpart, Ratio(params, j))
    {
      var frac := if i == 0 then 1.0 else Deni(params, i - 1) as real / (1.0 * Numi(params, i - 1) as real);
      assert frac == Ratio(params, i);
      var lphase := phase * frac;
      var liphase := longpart as real * frac;
      var gateIn := Frac(lphase + liphase) < 0.5;
      GateDefinition(phase, longpart, frac);
      gates := gates + [if gateIn then 10.0 else 0.0];
      i := i + 1;
    }
  }

  /** The loop that shows each sub-clock's numerator and denominator. */
  method DisplayLights(params: seq<real>) returns (lights: seq<real>)
    requires |params| == NumParams
    ensures |lights| == NumLights
    ensures forall i :: 0 <= i < NumClocks ==>
              lights[LightNumerator1 + i] == Numi(params, i) as real &&
              lights[LightDenominator1 + i] == Deni(params, i) as real
  {
    lights := seq(NumLights, _ => 0.0);
    var i := 0;
    while i < NumClocks
      invariant 0 <= i <= NumClocks && |lights| == NumLights
      invariant forall j :: 0 <= j < i ==>
                  lights[LightNumerator1 + j] == Numi(params, j) as real &&
                  lights[LightDenominator1 + j] == Deni(params, j) as real
    {
      lights := lights[LightNumerator1 + i := Trunc(params[ClockNumerator1 + i]) as real];
      lights := lights[LightDenominator1 + i := Trunc(params[ClockDenominator1 + i]) as real];
      i := i + 1;
    }
  }

  /* ---------------- The module ---------------- */

  class PolyGnome {
    var phase: real
    var phaseLongpart: int

    /** The phase stays within [0, 1] and the counter positive. */
    ghost predicate Valid()
      reads this
    {
      0.0 <= phase <= 1.0 && phaseLongpart >= 1
    }

    constructor ()
      ensures Valid()
      ensures phase == 0.0 && phaseLongpart == InitialLongpart
    {
      phase := 0.0;
      phaseLongpart := InitialLongpart;
    }

    /** One sample. The increment stands for 2^(rate + CV) times the sample
        period; active[i] tells whether gate output i is in use. */
    method Step(increment: real, params: seq<real>, active: seq<bool>) returns (outputs: seq<real>, lights: seq<real>)
      requires Valid() && increment >= 0.0
      requires ParamsValid(params) && |active| == NumOutputs
      modifies this
      ensures Valid()
      ensures var x := old(phase) + increment;
              phase == x - Carries(x) as real &&
              phaseLongpart == Reduce(old(phaseLongpart) + Carries(x), CommonPeriod(params, active, NumClocks))
      ensures |outputs| == NumOutputs
      ensures forall i :: 0 <= i < NumOutputs ==> outputs[i] == Gate(phase, phaseLongpart, Ratio(params, i))
      ensures forall i :: 0 <= i < NumOutputs && (i == 0 || active[i]) ==>
                outputs[i] == Gate(phase, old(phaseLongpart) + Carries(old(phase) + increment), Ratio(params, i))
      ensures |lights| == NumLights
      ensures forall i :: 0 <= i < NumClocks ==>
                lights[LightNumerator1 + i] == Numi(params, i) as real &&
                lights[LightDenominator1 + i] == Deni(params, i) as real
    {
      var p, l := Carry(phase + increment, phaseLongpart);
      var commonp := CommonPeriodOf(params, active);
      l := Renormalise(l, commonp);
      phase, phaseLongpart := p, l;
      outputs := Gates(phase, phaseLongpart, params);
      ghost var unreduced := old(phaseLongpart) + Carries(old(phase) + increment);
      forall i | 0 <= i < NumOutputs && (i == 0 || active[i])
        ensures outputs[i] == Gate(phase, unreduced, Ratio(params, i))
      {
        RenormaliseKeepsGate(phase, unreduced, params, active, i);
      }
      lights := DisplayLights(params);
    }
  }
}
