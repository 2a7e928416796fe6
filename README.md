# Depth gas planner — verified model

This project models the planning core of Depth, a gas planner for cave and
wreck dives. It covers two parts.

- The planner (`src/planner.js`) converts depth to ambient pressure. It computes
  the maximum distance for a closed-circuit rebreather (CCR) dive under a half-gas
  exit reserve, and for an open-circuit (OC) dive under the balance
  `total gas = penetration gas + 2 × exit gas`. It also schedules bailout drops
  (CCR) and stage drops (OC).
- The gas planner component (`src/components/gasPlanner.js`) keeps the diver's
  tank list, the running total of the gas those tanks supply, and the
  "cave filled" flag. It updates the total incrementally on every change.

All arithmetic is exact (`real`); the literal 0.43 is exactly 43/100.

Files:

- `tanks.dfy`, module `Tanks`: the tank record and the `TANK_TYPES` table. It also
  holds the effective-volume rule `(caveFilled ? caveFill ?? fill : fill) × (double ? 2 : 1)`
  and `TotalVolume`, the fold that `changeFillType`'s `reduce` computes.
- `inventory.dfy`, module `Inventory`: the class `GasPlanner`, whose fields are `tanks`,
  `totalGas` and `caveFilled`. It has the four transitions. Its invariant `Valid()` says
  the running total equals `TotalVolume(tanks, caveFilled)`.
- `planner.dfy`, module `Planner`: ambient pressure, `PlanCCR`, `PlanOC`, and the two
  drop schedulers. Each scheduler is a method over an `array<Tank>` with loop invariants.
  Each is proved equal to a specification function, and the lemmas state what the
  schedule means.

Behaviour of the code that the model keeps on purpose:

- The bailout guard filters on a `doubles` property. The comment above it
  (src/planner.js:76) says it rejects plans that use more than one set of doubles.
  No tank record has that property; the records carry `double`. The guard therefore
  never rejects (`NoTankMarkedDoubles`).
- A bailout record made at the last index names `tanks[i + 1]`, which does not exist.
  The model gives it tank `None`.
- The stage schedule reverses the caller's array in place before it walks it, so the
  caller's array comes back reversed: `PlanOCStageDrops` has `modifies tanks` and ensures
  `tanks[..] == Reverse(old(tanks[..]))`.
- `salinity` is a `bool`. The page passes the strings `'fresh'` and `'salt'`, and both are
  truthy. With those callers the 33-foot salt-water constant is always chosen.
- The component starts with `caveFilled` set to true.

## Model

| member | source | states |
|---|---|---|
| Tanks.TankType | src/components/gasPlanner.js:4-9 | every table entry has a positive fill; exactly LP85 and LP108 are doubles, and exactly they have a cave fill; the cave-filled volume is never below the standard volume, and equals the fill for single tanks |
| Tanks.SingleVolume | src/components/gasPlanner.js:84 | one cylinder's volume is its standard fill, or its cave fill when cave filling is on and it has one; with cave filling off it is always the standard fill (the same rule as at lines 92 and 101) |
| Tanks.EffectiveVolume | src/components/gasPlanner.js:84 | the gas a tank supplies, a pair counting twice, is never negative when its fills are not |
| Tanks.TotalVolume | src/components/gasPlanner.js:101 | the `reduce` over the tanks is never negative when no tank's effective volume is |
| Tanks.TotalVolumeConcat | src/components/gasPlanner.js:101 | the reduce over a concatenation is the sum of the reduces over the parts |
| Tanks.TotalVolumeRemove | src/components/gasPlanner.js:80-86 | splicing out index i lowers the summed effective volume by exactly that tank's effective volume |
| Tanks.TotalVolumeReplace | src/components/gasPlanner.js:88-94 | replacing index i changes the summed effective volume by the new tank's volume minus the old one's |
| Inventory.GasPlanner.constructor | src/components/gasPlanner.js:70-72 | starts with no tanks, zero gas and cave filling on, and the invariant holds |
| Inventory.GasPlanner.AddTank | src/components/gasPlanner.js:75-78 | appends an AL80 after the unchanged earlier tanks, raises the total by exactly 80, and keeps the invariant |
| Inventory.GasPlanner.RemoveTank | src/components/gasPlanner.js:80-86 | removes only index i, keeps the other tanks in order, lowers the total by that tank's effective volume, and keeps the invariant |
| Inventory.GasPlanner.SetTankType | src/components/gasPlanner.js:88-94 | replaces only index i with the table tank, adjusts the total by new minus old effective volume, and keeps the invariant |
| Inventory.GasPlanner.ChangeFillType | src/components/gasPlanner.js:96-103 | toggles the flag, leaves the tanks alone, and sets the total to the sum of effective volumes under the new flag |
| Inventory.ChangeFillTypeTwice | src/components/gasPlanner.js:96-103 | toggling twice restores the tanks, the total and the flag |
| Planner.AmbientPressure | src/planner.js:1-8 | each 33 feet of salt water, or 34 feet of fresh water, adds one atmosphere to the surface atmosphere |
| Planner.AmbientPressureReferencePoints | src/planner.js:1-8 | 1 atm at the surface in either water; 2 atm at 33 ft of salt water and at 34 ft of fresh water |
| Planner.SaltAtLeastFresh | src/planner.js:4-7 | at any depth ≥ 0, salt water's pressure is at least fresh water's, and strictly greater below the surface |
| Planner.AmbientPressureIncreasing | src/planner.js:4-7 | pressure is strictly increasing in depth for either salinity |
| Planner.ExitGas | src/planner.js:49 | the derivation's exit gas S(e)·P·(D/R(e)), the reference term against which PlanCCR's and PlanOC's contracts are stated |
| Planner.PenetrationGas | src/planner.js:53 | the derivation's penetration gas G(p) = S(p)·P·(D/R(p)), the reference term of PlanOC's balance |
| Planner.PlanCCR | src/planner.js:10-24 | the exit gas over the returned distance is exactly half the total gas; with a zero exit rate the distance is 0 |
| Planner.PlanCCRUnique | src/planner.js:10-24 | any distance whose exit gas is half the total gas is the PlanCCR distance |
| Planner.PlanCCRScalesWithExitRate | src/planner.js:23 | scaling the exit rate by k scales the distance by k |
| Planner.PlanCCRScalesWithTotalGas | src/planner.js:12 | scaling the total gas by k scales the distance by k |
| Planner.PlanCCRInverseInSacExit | src/planner.js:15-19 | scaling the exit SAC by a nonzero k divides the distance by k |
| Planner.MaxTime | src/planner.js:19 | maxTime = maxGas / rmv, the minutes of exit swimming the reserved half of the gas lasts |
| Planner.PlanCCRMaxTime | src/planner.js:19-23 | the CCR distance is the exit rate times maxTime |
| Planner.MaxTimeIgnoresExitRate | src/planner.js:12-19 | maxTime does not depend on the exit rate |
| Planner.PlanCCRExample | src/planner.js:10-24 | 200 cu ft, SAC 0.75, 30 ft/min, 66 ft of fresh water gives exactly 1360 ft |
| Planner.GasBalanceLinear | src/planner.js:35-65 | penetration gas plus twice the exit gas over a distance D is D times the gas per foot that the formula inverts |
| Planner.GasPerFoot | src/planner.js:67 | the quantity the formula inverts is the gas charged for one foot: its penetration gas plus twice its exit gas |
| Planner.PlanOC | src/planner.js:26-67 | the returned distance satisfies penetration gas + 2 × exit gas = total gas |
| Planner.PlanOCUnique | src/planner.js:26-67 | any distance meeting that gas balance is the PlanOC distance |
| Planner.PlanOCWithoutPenetrationGas | src/planner.js:26-67 | with a zero penetration SAC the OC distance equals the CCR distance for the same inputs |
| Planner.PlanOCAtMostCCR | src/planner.js:26-67 | with non-negative inputs and positive rates and exit SAC, the OC distance is at most the CCR distance |
| Planner.PenetrationRaisesGasPerFoot | src/planner.js:30-33 | under those inputs the gas per foot is positive and charging penetration gas can only raise it |
| Planner.PlanCCRIgnoresPenetration | src/planner.js:10 | the CCR distance does not depend on the penetration SAC |
| Planner.NoTankMarkedDoubles | src/planner.js:77-79 | the "more than two doubles" guard counts zero tanks on every list, so it never rejects |
| Planner.DoublesProperty | src/planner.js:77 | the `tank.doubles` property the guard filters on, false for every tank since no tank record carries it; NoTankMarkedDoubles states the consequence |
| Planner.MarkedDoublesCount | src/planner.js:77 | the guard's `.filter(...).length` never exceeds the number of tanks |
| Planner.Progress | src/planner.js:93 | `(tank.fill / 2) / gasPerFoot`, with gasPerFoot = (totalGas / 2) / maxDistance from line 74, is the tank's share of the total gas times maxDistance |
| Planner.Remaining | src/planner.js:87-95 | the `currentDistance` accumulator after k iterations; its contract is stated by RemainingClosedForm |
| Planner.RemainingClosedForm | src/planner.js:87-95 | after k iterations currentDistance × totalGas = maxDistance × (totalGas − the first k tanks' fills): the distance left is maxDistance's share of the gas not yet spent |
| Planner.RemainingPositiveWhileGasLeft | src/planner.js:87-101 | with positive total gas and distance, iteration k pushes a record exactly when the fills of tanks 0..k are below the total gas |
| Planner.NextTank | src/planner.js:101 | `tanks[i + 1]`: the tank after index i, and None when i + 1 is past the end; BailoutPrefixShape states which tank each record names |
| Planner.BailoutPrefix | src/planner.js:89-103 | the first k iterations push at most k records |
| Planner.BailoutDrops | src/planner.js:70-106 | the schedule never has more records than there are tanks, for every input meeting the nonzero-divisor precondition |
| Planner.PlanCCRBailoutDrops | src/planner.js:70-106 | returns exactly the schedule BailoutDrops: the two guards, then one record per iteration whose lowered distance stays positive |
| Planner.RemainingDecreasing | src/planner.js:87-96 | with positive inputs, every iteration strictly lowers currentDistance |
| Planner.BailoutPrefixShape | src/planner.js:89-103 | records come from a prefix of the loop indices; the j-th names tank j+1 (absent after the last tank) and carries the positive distance after j+1 tanks; every later index was skipped |
| Planner.BailoutDropsOrdered | src/planner.js:70-106 | with positive inputs: no more records than tanks, tank j+1 in record j, every distance in (0, maxDistance), distances strictly decreasing |
| Planner.BailoutDropsRejects | src/planner.js:81-84 | an empty list, or a first tank that is not doubles, gives no schedule |
| Planner.BailoutFirstDrop | src/planner.js:81-103 | with doubles first and a first fill below the total gas, the first record names the second listed tank at maxDistance minus the first tank's share |
| Planner.Reverse | src/planner.js:109 | reversal preserves length |
| Planner.ReverseAt | src/planner.js:109 | element k of the reversal is element n-1-k of the original |
| Planner.ReverseReverse | src/planner.js:109 | reversing twice restores the original order, so two calls of the stage schedule put the caller's array back |
| Planner.ReverseInPlace | src/planner.js:109 | the array afterwards holds the reversal of its old contents |
| Planner.NonDoubles | src/planner.js:113-116 | keeps no doubles and never grows the list |
| Planner.NonDoublesMembers | src/planner.js:113-116 | a tank is kept if and only if it is in the list and is not doubles |
| Planner.NonDoublesReverse | src/planner.js:109-116 | skipping doubles after reversing is reversing after skipping doubles |
| Planner.UsableGas | src/planner.js:119 | `tank.fill * 0.43`, the gas a stage gives before it is dropped at 1700 of its 3000 psi |
| Planner.StageAdvance | src/planner.js:121 | `estimatedTankDrop`: the usable gas times the penetration SAC times the penetration rate |
| Planner.StageAdvanceScaled | src/planner.js:119-121 | one stage's advance is 0.43 × SAC × rate times its fill |
| Planner.StageSum | src/planner.js:111-122 | the `penetration` accumulator over the stages so far; its contract is stated by StageSumNonNegative and StageSumMonotone |
| Planner.StageSumClosedForm | src/planner.js:111-122 | the `penetration` accumulator over any stages is 0.43 × SAC × rate times their summed fills |
| Planner.StageSumNonNegative | src/planner.js:111-122 | the `penetration` accumulator is never negative when the fills, SAC and rate are not |
| Planner.RunningDrops | src/planner.js:111-124 | one record per stage, in order, naming that stage; the last record carries the whole sum |
| Planner.PlanOCStageDrops | src/planner.js:108-128 | reverses the caller's array in place, then returns one record per non-doubles tank of the reversed array, each with the running sum of fill × 0.43 × SAC × rate |
| Planner.StageOrder | src/planner.js:109-116 | the stages are exactly the non-doubles tanks in reverse of their listed order |
| Planner.StageExample | src/planner.js:108-128 | LP108, AL80, AL40 as listed are staged as AL40 then AL80, with running sums of their advances |
| Planner.StageSumMonotone | src/planner.js:119-122 | with non-negative fills, SAC and rate, the running sum over a longer prefix is at least that over a shorter one |
| Planner.StageDropsNonDecreasing | src/planner.js:119-124 | under the same conditions the stage records' penetrations are non-decreasing |

## Left out

- React rendering, the styled components and JSX are not modelled. This includes the
  `useState` setters' asynchronous batching and stale reads of `totalGas`, and the
  `isMounted` ref with the `onChange` effect (src/components/gasPlanner.js:105-133). The
  transitions are modelled as synchronous updates.
- src/pages/index.js is not part of this model: the form reducer, local storage, the
  disclaimer and the result display. The `mode` argument it passes to the bailout
  schedule is unused there, so it is dropped.
- IEEE-754 behaviour is not modelled: rounding, the inexact literal 0.43, and `NaN` or
  `Infinity` from zero divisors. Divisions instead carry nonzero preconditions:
  `CCRDefined`, `OCDefined` and `Scalable`.
- Planner.PlanCCRBailoutDrops: requires nonzero totalGas and maxDistance whenever the
  loop runs (the first tank is doubles). JavaScript then divides by zero, and the page
  does call it with a distance of 0 before a plan exists. The model also computes the
  per-foot gas inside each iteration's progress rather than once before the guards; in
  exact arithmetic the result is the same.
- Dynamic typing is not modelled. Missing properties, string truthiness and an unknown
  key passed to `setTankType` (which would yield `undefined`) are left out: tank names are
  the enumeration `TankName`, salinity is a `bool`, and the absent `tanks[i+1]` is `None`.
- Inventory.GasPlanner.RemoveTank and Inventory.GasPlanner.SetTankType: require a valid index. JavaScript throws when
  reading `tanks[i].fill` of a missing tank; the component only passes indices of rows it rendered.
