# BaconPlugs AddOne and PolyGnome, modelled in Dafny

This project models the per-sample `step` routines of two VCV Rack modules
from the BaconPlugs collection, and proves properties of them.

- **AddOne** (`addone.dfy`, module `AddOneCore`) shifts a pitch voltage. Six
  interval switches (half step, whole step, minor third, major third, fifth,
  octave) select semitone sizes 1, 2, 3, 4, 7 and 12. The sum is signed by an
  up/down switch, divided by 12 and added to the input. The module also
  echoes the input unchanged, lights the direction and interval lights, and
  shows the semitone sum on two digit lights. A change of offset is not
  applied at once. The engine glides linearly from `priorOffset` to
  `targetOffset` over `ShiftTime` = 44000/5 = 8800 samples, and
  `offsetCount` tracks progress. A change in the middle of a glide restarts
  the glide from the value reached.
- **PolyGnome** (`polygnome.dfy`, module `PolyGnomeCore`) is a polymetric
  clock. A phase accumulator advances by a rate-dependent increment. Whole
  cycles are carried into the integer counter `phaseLongpart`. Five gates
  are derived from the phase: the base clock, and four sub-clocks whose rate
  is denominator/numerator times the base rate. A gate is high (10 V) in the
  first half of its cycle. The counter is kept small by subtracting the
  product of numerator times denominator over the sub-clocks whose outputs
  are in use. The lemma `RenormaliseKeepsGate` proves that this subtraction
  never moves the base clock or any active sub-clock.

Each module is a class whose fields are the source's fields. `Step` changes
those fields and is proved against specification functions: `Glide` for
AddOne, and `Carries` and `Reduce` for PolyGnome. Each loop of the source
is a method on values, proved with loop invariants: `ReadSwitches`
(called by `PanelLights`), `Carry`, `CommonPeriodOf`, `Renormalise`,
`Gates` and `DisplayLights`.
Float quantities are `real`. The host's `params`, `inputs`, `outputs`,
`lights` and `.active` flags are passed in as sequences, or returned as
sequences.

Three behaviours of the code are worth stating plainly:

- **AddOne, end of a glide.** The comment at src/AddOne.cpp:117-119 says
  that outside a glide `priorOffset`, `targetOffset` and the switch setting
  `offsetI` are all the same. The completion branch (lines 153-158) breaks
  this: it stores the value emitted at count `ShiftTime - 1`, which falls
  short of the target by 1/`ShiftTime` of the distance
  (`CompletionFallsShort`). The glide therefore comes to rest at a value
  other than the switch setting, and the next sample starts a new glide
  (`GlideFromRest`).
- **AddOne, start of a glide.** A glide starts at count 1 (line 128), and
  the count is incremented in the same sample. The first value emitted is
  therefore one step along the line, and the stored count is 2
  (`GlideStarts`).
- **PolyGnome, phase range.** The carry loop at src/PolyGnome.hpp:52 runs
  only while `phase > 1`, so it leaves the phase in [0, 1], not [0, 1): a
  phase of exactly 1.0 stays (0.5 + 0.5, for one). The model's invariant is
  0 <= `phase` <= 1, and `BaseGateDuty` covers the phase 1.0 too.

## Model

| member | source | states |
|---|---|---|
| `AddOneCore.Put` | src/AddOne.cpp:53-58 | an indexed write into the offsets vector succeeds exactly when the index is in bounds, and then changes that entry only |
| `AddOneCore.BuildOffsets` | src/AddOne.cpp:51-58 | pushing `pushes` zeros and then writing the six interval sizes succeeds exactly when more than OCTAVE zeros were pushed, and then gives the table 0,1,2,3,4,7,12 followed by zeros |
| `AddOneCore.OffsetsAsWrittenOverrun` | src/AddOne.cpp:51-58 | as written, the constructor pushes OCTAVE (6) zeros, so its write of `offsets[OCTAVE]` falls outside the vector |
| `AddOneCore.OffsetsCorrected` | src/AddOne.cpp:51-58 | with one more push, the writes give the intended table 0,1,2,3,4,7,12 |
| `AddOneCore.AddOne.constructor` | src/AddOne.cpp:50-62 | builds the table that `BuildOffsets(OCTAVE + 1)` gives, which is the corrected seven-entry interval table, and starts at rest: prior = target = 0, count 0 |
| `AddOneCore.ReadSwitches` | src/AddOne.cpp:92-104 | interval light k is 1 if switch k's param is > 0 and 0 otherwise; the sum is the total of the table entries of the switches that are on |
| `AddOneCore.SwitchSum` | src/AddOne.cpp:93-99 | the sum of the table entries of the interval switches 1..n whose param is > 0 (a definition; its properties are the next three rows) |
| `AddOneCore.SwitchSumExtremes` | src/AddOne.cpp:93-99 | with every switch off the sum is 0; with every switch on it is the total of the table entries |
| `AddOneCore.SwitchSumBounded` | src/AddOne.cpp:92-104 | the switch sum lies between 0 and the total of all table entries |
| `AddOneCore.SwitchSumRange` | src/AddOne.cpp:92-104 | with the interval table, the semitone sum lies in 0..29 |
| `AddOneCore.Digits` | src/AddOne.cpp:105-106 | the ones digit is in 0..9 and the tens digit in 0..2, and 10·tens + ones is the sum |
| `AddOneCore.Panel` | src/AddOne.cpp:82-106 | exactly one of the up and down lights is 1, the up light exactly when UP_OR_DOWN > 0; each interval light is 1 exactly when its switch is on; the digit lights show the ones and tens of a sum in 0..29 |
| `AddOneCore.PanelLights` | src/AddOne.cpp:81-106 | the light-setting code produces `Panel(params)`, and the semitone sum of the switches that are on |
| `AddOneCore.Direction` | src/AddOne.cpp:82-90 | the sign is +1 or -1, and it is +1 exactly when the UP_OR_DOWN param is > 0 |
| `AddOneCore.Desired` | src/AddOne.cpp:108 | the desired offset is the signed sum divided by 12: in [0, 29/12] when up, in [-29/12, 0] when down |
| `AddOneCore.GlideValid` | src/AddOne.cpp:117-120 | the state the comment describes: the count lies in 0..ShiftTime-1, and a count of 0 (no glide) means prior = target (a definition; `GlideKeepsValid` proves it is kept) |
| `AddOneCore.Lerp` | src/AddOne.cpp:139-147 | the interpolation `((shift_time - c) * prior + c * target) / shift_time` of lines 139-140 and 146-147 (a definition; `LerpBetween` states its properties) |
| `AddOneCore.LerpBetween` | src/AddOne.cpp:139-147 | the interpolation at count c in 0..ShiftTime lies between prior and target, and equals prior at c = 0 and target at c = ShiftTime |
| `AddOneCore.Glide` | src/AddOne.cpp:121-158 | one sample of the glide, branch for branch: idle, start, retarget, march, completion; whenever a glide is still in progress afterwards, its target is this sample's desired offset |
| `AddOneCore.GlideKeepsValid` | src/AddOne.cpp:117-158 | every sample keeps 0 <= offsetCount < ShiftTime, and keeps prior = target whenever the count is 0 |
| `AddOneCore.SettledAgrees` | src/AddOne.cpp:117-158 | after a sample that leaves the count at 0, the emitted offset, prior and target are equal |
| `AddOneCore.IdleStable` | src/AddOne.cpp:121-131 | at rest with an unchanged desired offset, the state stays as it is and the prior offset is emitted |
| `AddOneCore.EmittedBetween` | src/AddOne.cpp:121-150 | the emitted offset lies between the old prior and the old target (the desired offset, when a glide starts) |
| `AddOneCore.RetargetContinuous` | src/AddOne.cpp:137-147 | on a retarget, the emitted value is the one the old glide would emit now; it becomes the new prior; the new target is the desired offset; the count is 1 |
| `AddOneCore.GlideAdvances` | src/AddOne.cpp:146-149 | with an unchanged target, a glide emits the interpolation at its count and advances the count by one |
| `AddOneCore.GlideStarts` | src/AddOne.cpp:122-149 | a glide from rest emits the interpolation at count 1, and stores count 2 |
| `AddOneCore.CompletionFallsShort` | src/AddOne.cpp:152-158 | the sample at count ShiftTime-1 ends the glide at the emitted value, which misses the target by (target - prior)/ShiftTime |
| `AddOneCore.RunMarches` | src/AddOne.cpp:133-150 | k samples with an unchanged target add k to the count and keep prior and target |
| `AddOneCore.GlideFromRest` | src/AddOne.cpp:121-158 | from rest at p, after ShiftTime-1 samples toward d the engine is at rest again at d - (d-p)/ShiftTime, not at d |
| `AddOneCore.AddOne.Step` | src/AddOne.cpp:69-164 | the echo output is the input; the lights are `Panel(params)`; the new state and the shifted output follow `Glide` from the old state and the desired offset; the invariant is kept |
| `PolyGnomeCore.Trunc` | src/PolyGnome.hpp:45-46 | the C float-to-int cast truncates toward zero |
| `PolyGnomeCore.Numi` | src/PolyGnome.hpp:45 | the numerator of sub-clock i is the truncated param, and it is at least 1 exactly when the param is at least 1.0 |
| `PolyGnomeCore.Deni` | src/PolyGnome.hpp:46 | the denominator of sub-clock i is the truncated param, and it is at least 1 exactly when the param is at least 1.0 |
| `PolyGnomeCore.PolyGnome.constructor` | src/PolyGnome.hpp:39-43 | the module starts with phase = 0 and phase_longpart = 274 |
| `PolyGnomeCore.Carries` | src/PolyGnome.hpp:52-56 | no cycle is carried from a phase <= 1; from a larger phase, the number carried leaves a phase in (0, 1] |
| `PolyGnomeCore.Carry` | src/PolyGnome.hpp:52-56 | the carry loop keeps phase + longpart, leaves 0 <= phase <= 1, and moves exactly `Carries(phase)` cycles |
| `PolyGnomeCore.DenProduct` | src/PolyGnome.hpp:65-74 | the product `sd` of the denominators of the active sub-clocks is at least 1 when all params are at least 1 |
| `PolyGnomeCore.NumProduct` | src/PolyGnome.hpp:65-74 | the product `sn` of the numerators of the active sub-clocks is at least 1 when all params are at least 1 |
| `PolyGnomeCore.CommonPeriod` | src/PolyGnome.hpp:65-75 | the product of numerator·denominator over the active sub-clocks is at least 1 when all params are at least 1 |
| `PolyGnomeCore.ProductsCombine` | src/PolyGnome.hpp:65-75 | the product of the denominators times the product of the numerators is the product of the numerator·denominator pairs |
| `PolyGnomeCore.CommonPeriodNoneActive` | src/PolyGnome.hpp:65-75 | when no sub-clock output is active, the common period is 1 |
| `PolyGnomeCore.CommonPeriodMultiple` | src/PolyGnome.hpp:59-75 | the common period is a multiple of numerator·denominator of every active sub-clock |
| `PolyGnomeCore.CommonPeriodOf` | src/PolyGnome.hpp:65-75 | the loop over sub-clocks computes sd·sn, the common period of the active sub-clocks |
| `PolyGnomeCore.Reduce` | src/PolyGnome.hpp:78-81 | a counter <= the period is kept; a larger one is brought into (0, period]; the change is always a multiple of the period |
| `PolyGnomeCore.Renormalise` | src/PolyGnome.hpp:78-81 | the renormalisation loop terminates and leaves `Reduce(longpart, commonp)` |
| `PolyGnomeCore.Frac` | src/PolyGnome.hpp:97-99 | the fractional part lies in [0, 1) and differs from its argument by a whole number |
| `PolyGnomeCore.Ratio` | src/PolyGnome.hpp:87-90 | gate 0 has rate 1; gate i has rate deni(i-1)/numi(i-1), which is positive |
| `PolyGnomeCore.Gate` | src/PolyGnome.hpp:92-102 | a gate output is 10 or 0 |
| `PolyGnomeCore.BaseGateDuty` | src/PolyGnome.hpp:83-102 | for every phase in [0, 1] that a step can leave, the base gate is 10 exactly when phase < 1/2 or phase = 1 (the start of the next cycle), whatever the counter |
| `PolyGnomeCore.SubClockPeriodic` | src/PolyGnome.hpp:87-102 | a sub-clock with ratio d/n repeats every n base cycles |
| `PolyGnomeCore.RenormaliseKeepsGate` | src/PolyGnome.hpp:59-102 | replacing the counter by its reduction modulo the common period leaves the base gate and every active sub-clock gate unchanged |
| `PolyGnomeCore.Gates` | src/PolyGnome.hpp:83-103 | all five gate outputs are written, each `Gate(phase, longpart, Ratio(i))` |
| `PolyGnomeCore.DisplayLights` | src/PolyGnome.hpp:105-109 | the numerator and denominator lights show the truncated params of each sub-clock |
| `PolyGnomeCore.PolyGnome.Step` | src/PolyGnome.hpp:47-110 | the new phase and counter are the carry followed by the reduction; all five gates come from the new state; the base and active gates equal those of the unreduced counter; the lights show the params; 0 <= phase <= 1 and counter >= 1 are kept |

## Left out

- The `AddOneWidget` constructor (src/AddOne.cpp:166-211) and all of src/Components.hpp. They are panel layout and NanoVG drawing for the host UI.
- The global debug counter `pct` (src/AddOne.cpp:67,79). Nothing reads it.
- `powf(2, CLOCK_PARAM + CLOCK_INPUT) * engineGetSampleTime()` (src/PolyGnome.hpp:49-50). This is floating exponentiation and a host call. It is a non-negative real `increment` parameter of `PolyGnome.Step`.
- IEEE float and double rounding. Every quantity is an exact `real`, so float equality tests in AddOne are exact comparisons of reals. `modf` is a floor-based fractional part, which agrees with `modf` on the non-negative values the clock produces.
- C `int` and `long` overflow of `commonp` and `phase_longpart`. Integers are mathematical.
- PolyGnome.Step: requires every numerator and denominator to be at least 1. No file of the module sets a range for these params, so this is an assumption of the model. The code would also run with a non-positive denominator on an inactive sub-clock. A zero numerator divides by zero (line 90). A non-positive common period makes the renormalisation loop run forever (line 78).
- AddOne.Step and PolyGnome.Step: return the output and light values as fresh sequences; they do not write into the host's arrays.
- The seven-segment rendering of the digit lights, and how the UI clamps light values, are not part of this model.

## Findings

| source | as written | input that shows it | evidently intended | confidence | as-written member | corrected member |
|---|---|---|---|---|---|---|
| src/AddOne.cpp:51-58 | the constructor pushes OCTAVE (6) zeros, then writes `offsets[OCTAVE]`; line 98 later reads `offsets[OCTAVE]`, also past the end | default construction: the write at index 6 goes into a vector of size 6 | a table of 7 entries, indexed 1..6 with values 1,2,3,4,7,12 | high; not executed | `AddOneCore.OffsetsAsWrittenOverrun` | `AddOneCore.OffsetsCorrected` |
