/** The AddOne module: a pitch-offset engine. Six interval switches select
    semitone sizes whose sum, signed by an up/down switch and divided by 12,
    is added to the input (1 V per octave). Changes of the offset are not
    applied at once but glided linearly over ShiftTime samples. */
module AddOneCore {

  datatype Option<T> = None | Some(value: T)

  // Parameter ids (the order of the source's ParamIds enumeration)
  const UpOrDown: nat := 0
  const HalfStep: nat := 1
  const WholeStep: nat := 2
  const MinorThird: nat := 3
  const MajorThird: nat := 4
  const Fifth: nat := 5
  const Octave: nat := 6
  const NumParams: nat := 7

  // Output ids
  const EchoOutput: nat := 0
  const IncreasedOutput: nat := 1
  const NumOutputs: nat := 2

  // Light ids
  const UpLight: nat := 0
  const DownLight: nat := 1
  const HalfStepLight: nat := 2
  const DigitLightOnes: nat := 8
  const DigitLightTens: nat := 9
  const NumLights: nat := 10

  /** Length of a glide in samples: the C integer division 44000 / 5. */
  const ShiftTime: int := 44000 / 5

  /** Semitone size of each interval switch, indexed by parameter id;
      entry 0 (the up/down switch) is unused. */
  function OffsetTable(): seq<int>
  {
    [0, 1, 2, 3, 4, 7, 12]
  }

  /* ---------------- Building the offsets table ---------------- */

  /** A write to index i of a vector, failing when i is out of bounds. */
  function Put(v: Option<seq<int>>, i: int, x: int): (r: Option<seq<int>>)
    ensures r.Some? <==> v.Some? && 0 <= i < |v.value|
    ensures r.Some? ==> |r.value| == |v.value| && r.value[i] == x
    ensures r.Some? ==> forall k :: 0 <= k < |r.value| && k != i ==> r.value[k] == v.value[k]
  {
    if v.Some? && 0 <= i < |v.value| then Some(v.value[i := x]) else None
  }

  /** The constructor's table: push `pushes` zeros, then write the six
      interval sizes at indices HalfStep..Octave. None stands for a write
      past the end of the vector. */
  function BuildOffsets(pushes: nat): (r: Option<seq<int>>)
    ensures r.Some? <==> pushes > Octave
    ensures r.Some? ==> |r.value| == pushes && r.value[..Octave + 1] == OffsetTable()
    ensures r.Some? ==> forall k :: Octave < k < pushes ==> r.value[k] == 0
  {
    var v := Some(seq(pushes, _ => 0));
    Put(Put(Put(Put(Put(Put(v, HalfStep, 1), WholeStep, 2), MinorThird, 3),
      MajorThird, 4), Fifth, 7), Octave, 12)
  }

  /** As written, the constructor pushes only Octave zeros, so the write of
      offsets[Octave] is past the end. */
  lemma OffsetsAsWrittenOverrun()
    ensures BuildOffsets(Octave) == None
  {
  }

  /** Pushing one more zero gives the intended seven-entry table. */
  lemma OffsetsCorrected()
    ensures BuildOffsets(Octave + 1) == Some(OffsetTable())
  {
    var r := BuildOffsets(Octave + 1).value;
    assert r == r[..Octave + 1];
  }

  /* ---------------- Switches, lights and the desired offset ---------------- */

  /** Sum of the table entries of the interval switches 1..n that are on. */
  function SwitchSum(offsets: seq<int>, params: seq<real>, n: nat): int
    requires n < |offsets| && n < |params|
  {
    if n == 0 then 0
    else SwitchSum(offsets, params, n - 1) + (if params[n] > 0.0 then offsets[n] else 0)
  }

  /** Sum of the table entries 1..n: the largest value SwitchSum can take. */
  function TableTotal(offsets: seq<int>, n: nat): int
    requires n < |offsets|
  {
    if n == 0 then 0 else TableTotal(offsets, n - 1) + offsets[n]
  }

  lemma {:induction false} SwitchSumBounded(offsets: seq<int>, params: seq<real>, n: nat)
    requires n < |offsets| && n < |params|
    requires forall k :: 0 <= k < |offsets| ==> offsets[k] >= 0
    ensures 0 <= SwitchSum(offsets, params, n) <= TableTotal(offsets, n)
  {
    if n > 0 {
      SwitchSumBounded(offsets, params, n - 1);
    }
  }

  /** With every switch off the sum is 0; with every switch on it is the
      total of the table entries. */
  lemma {:induction false} SwitchSumExtremes(offsets: seq<int>, params: seq<real>, n: nat)
    requires n < |offsets| && n < |params|
    ensures (forall k :: 1 <= k <= n ==> params[k] <= 0.0) ==> SwitchSum(offsets, params, n) == 0
    ensures (forall k :: 1 <= k <= n ==> params[k] > 0.0) ==> SwitchSum(offsets, params, n) == TableTotal(offsets, n)
  {
    if n > 0 {
      SwitchSumExtremes(offsets, params, n - 1);
    }
  }

  /** With the interval table, the semitone sum lies in 0..29. */
  lemma SwitchSumRange(params: seq<real>)
    requires |params| == NumParams
    ensures 0 <= SwitchSum(OffsetTable(), params, Octave) <= 29
  {
    SwitchSumBounded(OffsetTable(), params, Octave);
    assert TableTotal(OffsetTable(), Octave) == 29;
  }

  /** The loop over the interval switches: light k-1 (relative to HalfStepLight)
      is 1 exactly when switch k is on, and the sum adds the table entries
      of the switches that are on. */
  method ReadSwitches(offsets: seq<int>, params: seq<real>) returns (switchLights: seq<real>, sum: int)
    requires |offsets| == NumParams && |params| == NumParams
    ensures |switchLights| == Octave
    ensures forall k :: HalfStep <= k <= Octave ==>
              switchLights[k - HalfStep] == if params[k] > 0.0 then 1.0 else 0.0
    ensures sum == SwitchSum(offsets, params, Octave)
  {
    switchLights := [];
    sum := 0;
    var i := HalfStep;
    while i <= Octave
      invariant HalfStep <= i <= Octave + 1
      invariant |switchLights| == i - HalfStep
      invariant forall k :: HalfStep <= k < i ==>
                  switchLights[k - HalfStep] == if params[k] > 0.0 then 1.0 else 0.0
      invariant sum == SwitchSum(offsets, params, i - 1)
    {
      if params[i] > 0.0 {
        switchLights := switchLights + [1.0];
        sum := sum + offsets[i];
      } else {
        switchLights := switchLights + [0.0];
      }
      i := i + 1;
    }
  }

  /** Ones and tens digits of the semitone sum, as shown by the two
      seven-segment lights. */
  function Digits(sum: int): (r: (int, int))
    requires 0 <= sum <= 29
    ensures 0 <= r.0 <= 9 && 0 <= r.1 <= 2
    ensures 10 * r.1 + r.0 == sum
  {
    (sum % 10, sum / 10)
  }

  /** The sign of the shift: +1 when the up/down switch is up, else -1. */
  function Direction(upOrDown: real): (r: real)
    ensures r == 1.0 || r == -1.0
    ensures r > 0.0 <==> upOrDown > 0.0
  {
    if upOrDown > 0.0 then 1.0 else -1.0
  }

  /** The offset the switches ask for, in volts (octaves). */
  function Desired(params: seq<real>): (d: real)
    requires |params| == NumParams
    ensures params[UpOrDown] > 0.0 ==> 0.0 <= d <= 29.0 / 12.0
    ensures params[UpOrDown] <= 0.0 ==> -29.0 / 12.0 <= d <= 0.0
    ensures 12.0 * d * Direction(params[UpOrDown]) == SwitchSum(OffsetTable(), params, Octave) as real
  {
    SwitchSumRange(params);
    Direction(params[UpOrDown]) * SwitchSum(OffsetTable(), params, Octave) as real / 12.0
  }

  /** The ten light values of one sample: direction, intervals, digits. */
  function Panel(params: seq<real>): (lights: seq<real>)
    requires |params| == NumParams
    ensures |lights| == NumLights
    ensures lights[UpLight] == (if params[UpOrDown] > 0.0 then 1.0 else 0.0)
    ensures lights[DownLight] == 1.0 - lights[UpLight]
    ensures forall k :: HalfStep <= k <= Octave ==>
              lights[k - HalfStep + HalfStepLight] == if params[k] > 0.0 then 1.0 else 0.0
    ensures var sum := SwitchSum(OffsetTable(), params, Octave);
            0 <= sum <= 29 &&
            lights[DigitLightOnes] == Digits(sum).0 as real &&
            lights[DigitLightTens] == Digits(sum).1 as real
  {
    SwitchSumRange(params);
    var sum := SwitchSum(OffsetTable(), params, Octave);
    var up := params[UpOrDown] > 0.0;
    [if up then 1.0 else 0.0, if up then 0.0 else 1.0] +
    seq(Octave, k requires 0 <= k < Octave => if params[k + HalfStep] > 0.0 then 1.0 else 0.0) +
    [Digits(sum).0 as real, Digits(sum).1 as real]
  }

  /** The light-setting part of the step routine, with the sum of the
      switched-on intervals it accumulates on the way. */
  method PanelLights(offsets: seq<int>, params: seq<real>) returns (lights: seq<real>, sum: int)
    requires offsets == OffsetTable() && |params| == NumParams
    ensures lights == Panel(params)
    ensures sum == SwitchSum(OffsetTable(), params, Octave)
  {
    var uod := Direction(params[UpOrDown]);
    var upLight, downLight := if uod > 0.0 then 1.0 else 0.0, if uod > 0.0 then 0.0 else 1.0;
    var switchLights;
    switchLights, sum := ReadSwitches(offsets, params);
    assert switchLights ==
      seq(Octave, k requires 0 <= k < Octave => if params[k + HalfStep] > 0.0 then 1.0 else 0.0);
    SwitchSumRange(params);
    var digits := Digits(sum);
    lights := [upLight, downLight] + switchLights + [digits.0 as real, digits.1 as real];
  }

  /* ---------------- The glide ---------------- */

  /** The glide state kept between samples. */
  datatype GlideState = GlideState(prior: real, target: real, count: int)

  /** The state the source's comment describes: a count within the glide,
      and no glide (count 0) only when prior and target agree. */
  predicate GlideValid(s: GlideState)
  {
    0 <= s.count < ShiftTime && (s.count == 0 ==> s.prior == s.target)
  }

  /** Linear interpolation from p to t at sample c of ShiftTime. */
  function Lerp(p: real, t: real, c: int): real
  {
    ((ShiftTime - c) as real * p + c as real * t) / ShiftTime as real
  }

  predicate Between(x: real, a: real, b: real)
  {
    (a <= x <= b) || (b <= x <= a)
  }

  lemma LerpBetween(p: real, t: real, c: int)
    requires 0 <= c <= ShiftTime
    ensures Between(Lerp(p, t, c), p, t)
    ensures c == 0 ==> Lerp(p, t, c) == p
    ensures c == ShiftTime ==> Lerp(p, t, c) == t
  {
    var st := ShiftTime as real;
    var f := c as real / st;
    assert Lerp(p, t, c) == p + f * (t - p);
    assert 0.0 <= f <= 1.0;
    if p <= t {
      ScaleBetween(f, t - p);
      assert p <= Lerp(p, t, c) <= t;
    } else {
      ScaleBetween(f, p - t);
      assert f * (t - p) == -(f * (p - t));
      assert t <= Lerp(p, t, c) <= p;
    }
  }

  lemma ScaleBetween(f: real, d: real)
    requires 0.0 <= f <= 1.0 && 0.0 <= d
    ensures 0.0 <= f * d <= d
  {
    assert f * d <= 1.0 * d;
  }

  /** Next state and emitted offset of one sample. */
  datatype GlideOut = GlideOut(next: GlideState, emitted: real)

  /** One sample of the glide, branch for branch as the step routine runs it:
      idle and unchanged; start a glide (count 1); retarget from the value
      the old glide reaches now; march on. A glide whose count reaches
      ShiftTime ends, keeping the value emitted last. */
  function Glide(s: GlideState, desired: real): (o: GlideOut)
    ensures o.next.count != 0 ==> o.next.target == desired
  {
    if s.count == 0 && desired == s.prior then
      GlideOut(s, desired)
    else
      var started := if s.count == 0 then GlideState(s.prior, desired, 1) else s;
      var from :=
        if desired != started.target
        then GlideState(Lerp(started.prior, started.target, started.count), desired, 0)
        else started;
      var e := Lerp(from.prior, desired, from.count);
      if from.count + 1 == ShiftTime then GlideOut(GlideState(e, e, 0), e)
      else GlideOut(GlideState(from.prior, from.target, from.count + 1), e)
  }

  /** The glide keeps its invariant. */
  lemma GlideKeepsValid(s: GlideState, desired: real)
    requires GlideValid(s)
    ensures GlideValid(Glide(s, desired).next)
  {
  }

  /** After a sample that leaves the count at 0, prior, target and the
      emitted offset coincide, as the source's comment says. */
  lemma SettledAgrees(s: GlideState, desired: real)
    requires GlideValid(s)
    ensures var o := Glide(s, desired);
            o.next.count == 0 ==> o.emitted == o.next.prior == o.next.target
  {
  }

  /** Idle stability: with nothing to do the state stays and the desired
      offset is emitted. */
  lemma IdleStable(s: GlideState, desired: real)
    requires GlideValid(s) && s.count == 0 && desired == s.prior
    ensures Glide(s, desired) == GlideOut(s, s.prior)
  {
  }

  /** The emitted offset always lies between where the glide came from and
      where it is going (the desired offset, when a glide starts). */
  lemma EmittedBetween(s: GlideState, desired: real)
    requires GlideValid(s)
    ensures Between(Glide(s, desired).emitted, s.prior, if s.count == 0 then desired else s.target)
  {
    if s.count == 0 && desired == s.prior {
    } else if s.count == 0 {
      LerpBetween(s.prior, desired, 1);
    } else if desired != s.target {
      LerpBetween(s.prior, s.target, s.count);
      assert Glide(s, desired).emitted == Lerp(s.prior, s.target, s.count);
    } else {
      LerpBetween(s.prior, s.target, s.count);
    }
  }

  /** Retargeting mid-glide is continuous: the value emitted is the one the
      old glide would have emitted now, and it becomes the new prior. */
  lemma RetargetContinuous(s: GlideState, desired: real)
    requires GlideValid(s) && s.count != 0 && desired != s.target
    ensures var o := Glide(s, desired);
            o.emitted == Lerp(s.prior, s.target, s.count) &&
            o.next == GlideState(o.emitted, desired, 1)
  {
    LerpBetween(Lerp(s.prior, s.target, s.count), desired, 0);
  }

  /** A glide that keeps its target advances by one sample and emits the
      interpolated value. */
  lemma GlideAdvances(s: GlideState, desired: real)
    requires GlideValid(s) && s.count != 0 && desired == s.target && s.count + 1 < ShiftTime
    ensures Glide(s, desired) == GlideOut(GlideState(s.prior, s.target, s.count + 1), Lerp(s.prior, s.target, s.count))
  {
  }

  /** A glide that starts emits the first interpolated value and is at count 2
      afterwards (the count is set to 1 and then incremented). */
  lemma GlideStarts(s: GlideState, desired: real)
    requires GlideValid(s) && s.count == 0 && desired != s.prior
    ensures Glide(s, desired) == GlideOut(GlideState(s.prior, desired, 2), Lerp(s.prior, desired, 1))
  {
  }

  /** The step that ends a glide keeps the value of sample ShiftTime - 1,
      which falls short of the target by 1/ShiftTime of the whole distance. */
  lemma CompletionFallsShort(s: GlideState)
    requires GlideValid(s) && s.count == ShiftTime - 1
    ensures var o := Glide(s, s.target);
            o.next == GlideState(o.emitted, o.emitted, 0) &&
            s.target - o.emitted == (s.target - s.prior) / ShiftTime as real
  {
  }

  /** n samples with a constant desired offset. */
  function Run(s: GlideState, desired: real, n: nat): GlideState
    decreases n
  {
    if n == 0 then s else Run(Glide(s, desired).next, desired, n - 1)
  }

  /** Marching: k samples of an unchanged target add k to the count. */
  lemma {:induction false} RunMarches(s: GlideState, k: nat)
    requires GlideValid(s) && s.count != 0 && s.count + k < ShiftTime
    ensures Run(s, s.target, k) == GlideState(s.prior, s.target, s.count + k)
    decreases k
  {
    if k > 0 {
      GlideAdvances(s, s.target);
      RunMarches(GlideState(s.prior, s.target, s.count + 1), k - 1);
    }
  }

  /** From rest at p, a new desired offset d is glided to in ShiftTime - 1
      samples, ending at rest at the value of sample ShiftTime - 1, which
      misses d by (d - p) / ShiftTime; so the next sample starts a new glide. */
  lemma GlideFromRest(p: real, d: real)
    requires p != d
    ensures var r := Run(GlideState(p, p, 0), d, ShiftTime - 1);
            r.count == 0 && r.prior == r.target &&
            d - r.prior == (d - p) / ShiftTime as real && r.prior != d
  {
    var s0 := GlideState(p, p, 0);
    GlideStarts(s0, d);
    var s1 := GlideState(p, d, 2);
    assert Run(s0, d, ShiftTime - 1) == Run(s1, d, ShiftTime - 2);
    RunMarches(s1, ShiftTime - 3);
    RunSplit(s1, d, ShiftTime - 3, 1);
    CompletionFallsShort(GlideState(p, d, ShiftTime - 1));
  }

  lemma {:induction false} RunSplit(s: GlideState, d: real, m: nat, n: nat)
    ensures Run(s, d, m + n) == Run(Run(s, d, m), d, n)
    decreases m
  {
    if m > 0 {
      RunSplit(Glide(s, d).next, d, m - 1, n);
    }
  }

  /* ---------------- The module ---------------- */

  class AddOne {
    var offsets: seq<int>
    var priorOffset: real
    var targetOffset: real
    var offsetCount: int

    function State(): GlideState
      reads this
    {
      GlideState(priorOffset, targetOffset, offsetCount)
    }

    ghost predicate Valid()
      reads this
    {
      offsets == OffsetTable() && GlideValid(State())
    }

    /** Builds the interval table (with the seventh entry the source leaves
        out) and starts at rest at offset 0. */
    constructor ()
      ensures Valid()
      ensures Some(offsets) == BuildOffsets(Octave + 1)
      ensures State() == GlideState(0.0, 0.0, 0)
    {
      var v: seq<int> := [];
      var i := 0;
      while i <= Octave
        invariant 0 <= i <= Octave + 1
        invariant v == seq(i, _ => 0)
      {
        v := v + [0];
        i := i + 1;
      }
      v := v[HalfStep := 1][WholeStep := 2][MinorThird := 3];
      v := v[MajorThird := 4][Fifth := 7][Octave := 12];
      offsets := v;
      OffsetsCorrected();
      priorOffset := 0.0;
      targetOffset := 0.0;
      offsetCount := 0;
    }

    /** One sample: echo the input, light the direction and interval lights
        and the digits of the semitone sum, and add the gliding offset. */
    method Step(input: real, params: seq<real>) returns (outputs: seq<real>, lights: seq<real>)
      requires Valid() && |params| == NumParams
      modifies this
      ensures Valid()
      ensures |outputs| == NumOutputs && outputs[EchoOutput] == input
      ensures var o := Glide(old(State()), Desired(params));
              State() == o.next && outputs[IncreasedOutput] == input + o.emitted
      ensures lights == Panel(params)
    {
      var echo := input;
      var uod := Direction(params[UpOrDown]);
      var sum;
      lights, sum := PanelLights(offsets, params);
      var offsetI := uod * sum as real / 12.0;
      assert offsetI == Desired(params);
      ghost var s := State();
      var inGliss := offsetCount != 0;
      if !inGliss {
        if offsetI != priorOffset {
          targetOffset := offsetI;
          offsetCount := 1;
          inGliss := true;
        }
      }
      if inGliss {
        if offsetI != targetOffset {
          var lastKnown := Lerp(priorOffset, targetOffset, offsetCount);
          targetOffset := offsetI;
          priorOffset := lastKnown;
          offsetCount := 0;
        }
        offsetI := Lerp(priorOffset, offsetI, offsetCount);
        offsetCount := offsetCount + 1;
      }
      if offsetCount == ShiftTime {
        offsetCount := 0;
        priorOffset := offsetI;
        targetOffset := offsetI;
      }
      GlideKeepsValid(s, Desired(params));
      outputs := [echo, input + offsetI];
    }
  }
}
