# Lennard-Jones Monte Carlo / molecular dynamics engine in Dafny

This project models `mm_python`, the core of a small Lennard-Jones fluid simulator. The simulator has two variants that share one design.

- **Array-based variant.** A box holds `coordinates`, `velocities` and `forces` as N x 3 arrays. Its parts are:
  - `ForceField.py`: reduced units, with an optional switch function;
  - `ForceFieldManager.py`: per-particle and whole-box sums of energy, virial and force;
  - `Integrators.py`: Velocity Verlet;
  - `BoxManager.py`: random or lattice placement, and reading an xyz restart file;
  - `Simulation.py`: the Monte Carlo and molecular dynamics step bodies.
- **Particle-object variant.** A box holds a list of `Particle` objects, each with a `position` and `parms`. Its parts are:
  - `forceField.py`: explicit `(sigma, epsilon)`;
  - `forceFieldManager.py`;
  - `boxManager.py`.

Reals are exact Dafny `real`s. The minimum-image convention `rij - L * round(rij / L)` is defined once (`Geometry.Wrap`), using numpy's round-half-to-even (`Geometry.Round`), and every file reuses it. The wrapped range is the closed interval `[-L/2, L/2]`: a separation of exactly half a box length stays at `+L/2` or `-L/2`. It is not the half-open interval one might expect.

The model's files, by module:

| file | module | models |
|---|---|---|
| `geometry.dfy` | `Geometry` | vectors, `np.round`, the wrap |
| `outcomes.dfy` | `Outcomes` | `Option` / `Result` for raised exceptions |
| `powers.dfy` | `Powers` | `np.power` with a natural exponent |
| `reduced_force_field.dfy` | `ReducedForceField` | `ForceField.py` |
| `param_force_field.dfy` | `ParamForceField` | `forceField.py` |
| `pair_sums.dfy` | `PairSums` | sums over `j != i` and over unordered pairs |
| `interactions.dfy` | `Interactions` | the pair terms the engine adds up, as functions of a configuration |
| `engine.dfy` | `Engine` | `ForceFieldManager.py` (loops over the box arrays) |
| `particle_engine.dfy` | `ParticleEngine` | `forceFieldManager.py` |
| `integrators.dfy` | `Integrators` | `Integrators.py` |
| `lattice.dfy` | `Lattice` | `nSide`, the counter and the site formula |
| `config_lines.dfy` | `ConfigLines` | a split restart-file line; Python indexing |
| `box.dfy` | `Boxes` | the two box classes and `Particle` |
| `box_manager.dfy` | `BoxManagers` | `BoxManager.py` |
| `particle_box_manager.dfy` | `ParticleBoxManagers` | `boxManager.py` |
| `simulation.dfy` | `Simulations` | `Simulation.py` |

Proof structure:

- **Energy sums.** The engine's loops are proved against recursive sum functions (`PairSums.Row`, `Total`, `Pairs`). The pair terms are symmetric because the wrap is odd, so the halved whole-box total is the sum over unordered pairs.
- **Monte Carlo bookkeeping.** Moving one particle changes the total by exactly the change of that particle's own row. This lets the Monte Carlo step keep running totals that always equal a from-scratch recomputation (`Simulations.Tracks`).
- **Array-based box.** The array-based box is a class whose arrays the methods update in place.
- **Particle-object box.** The particle-object box is a class holding a sequence of `Particle` objects. Its methods append particles and write positions; their effect is stated through `ParticleBox.Positions()`.

## Model

| member | source | states |
|---|---|---|
| Geometry.Round | mm_python/ForceFieldManager.py:44 | `np.round`: the nearest integer, the even one on a tie |
| Geometry.RoundOdd | mm_python/ForceFieldManager.py:44 | round-half-to-even is odd: `round(-x) == -round(x)` |
| Geometry.Wrap | mm_python/ForceFieldManager.py:44 | a wrapped component lies in `[-L/2, L/2]` |
| Geometry.WrapWholeBoxes | mm_python/ForceFieldManager.py:44 | the wrap moves a component by a whole number of box lengths |
| Geometry.WrapOdd | mm_python/ForceFieldManager.py:44 | `wrap(-x) == -wrap(x)`, so the separation from j to i is minus that from i to j |
| Geometry.WrapInBox | mm_python/ForceFieldManager.py:44 | a component already in the box is left unchanged |
| Geometry.WrapIdempotent | mm_python/ForceFieldManager.py:44 | wrapping twice is wrapping once |
| Geometry.WrapVecInBox | mm_python/ForceFieldManager.py:61 | a wrapped separation vector is in the box, and wrapping it again changes nothing |
| Geometry.WrapVecOdd | mm_python/ForceFieldManager.py:162 | the vector wrap commutes with negation |
| Geometry.Norm2OfWrappedEnd | mm_python/Simulation.py:106-111 | wrapping the displaced particle does not change its squared minimum-image distance to any other particle |
| ReducedForceField.NewLennardJones | mm_python/ForceField.py:29-42 | raises exactly when a truthy switch exceeds the cutoff; otherwise `cutoff2 = cutoff^2`; a `None` or `0` switch means no switch; a set switch stores `switch^2` |
| ReducedForceField.Evaluate | mm_python/ForceField.py:85-88 | `4((1/r2)^6 - (1/r2)^3)`; zero exactly at `r2 = 1`, negative exactly beyond it |
| ReducedForceField.PairVirial | mm_python/ForceField.py:177-181 | `24(2(1/r2)^6 - (1/r2)^3)`; zero exactly at `r2^3 = 2`, positive exactly inside it |
| ReducedForceField.VirialOverDistance | mm_python/ForceField.py:177-181 | `virial(r^2) / r = 24/r (2 r^-12 - r^-6)` |
| ReducedForceField.ComputeSwitch | mm_python/ForceField.py:108-123 | without a switch, 1 inside the cutoff and 0 outside; with one, 1 up to `switch2`, 0 from `cutoff2` on, and between them the switching polynomial, which equals the smoothstep of `(rc^2 - r^2) / (rc^2 - rs^2)`; always in `[0, 1]` |
| ReducedForceField.SwitchPolynomialEnds | mm_python/ForceField.py:116-121 | the middle polynomial is 1 at `switch2` and 0 at `cutoff2`, so S is continuous |
| ReducedForceField.SwitchIsSmoothstep | mm_python/ForceField.py:121 | the middle polynomial is `3u^2 - 2u^3` of the fraction `u = (c2 - r2)/(c2 - s2)` |
| ReducedForceField.SwitchPolynomialNonIncreasing | mm_python/ForceField.py:116-121 | between `switch2` and `cutoff2`, S never increases with distance |
| ReducedForceField.ComputeSwitchDerivative | mm_python/ForceField.py:140-150 | `dS/dr` is never positive, and is negative exactly inside the open switching interval (zero with no switch and at both ends) |
| ReducedForceField.SwitchDerivativeIsSlope | mm_python/ForceField.py:148 | the derivative formula is `2r` times the slope of the middle polynomial in `r2` (the chain rule) |
| ReducedForceField.TailCorrection | mm_python/ForceField.py:208-215 | zero for an empty box |
| ReducedForceField.TailCorrectionScaling | mm_python/ForceField.py:208-215 | the correction of N particles in edge L is `N * (N / L^3)` times that of one particle in a unit box |
| ReducedForceField.PressureCorrection | mm_python/ForceField.py:242-249 | zero for an empty box |
| ReducedForceField.PressureCorrectionScaling | mm_python/ForceField.py:242-249 | the pressure correction is `(N / L^3)^2` times that of one particle in a unit box |
| ParamForceField.NewLennardJones | mm_python/forceField.py:9-20 | raises a type error exactly when `parms` is not a tuple; otherwise stores `parms` unchanged and `cutoff2 = cutoff^2` |
| ParamForceField.Evaluate | mm_python/forceField.py:27-31 | `4 eps ((sigma^2/r2)^6 - (sigma^2/r2)^3)` |
| ParamForceField.EvaluateScaling | mm_python/forceField.py:28-31 | `U(r2) = eps * U*(r2 / sigma^2)`, with `U*` the reduced-unit energy |
| ParamForceField.EvaluateRoot | mm_python/forceField.py:28-31 | with non-zero parameters, the energy vanishes exactly at `r = sigma` |
| ParamForceField.EvaluateReducedUnits | mm_python/forceField.py:28-31 | with `sigma = eps = 1` it equals the reduced-unit `evaluate` |
| ParamForceField.TailCorrection | mm_python/forceField.py:33-44 | zero for an empty box |
| ParamForceField.TailCorrectionLinearInEpsilon | mm_python/forceField.py:38-44 | the correction is `eps` times the correction with `eps = 1` |
| ParamForceField.TailCorrectionReducedUnits | mm_python/forceField.py:33-44 | with `sigma = eps = 1` it equals the reduced-unit tail correction |
| PairSums.HalfTotalIsPairs | mm_python/ForceFieldManager.py:103-111 | for a symmetric pair term, half the sum of all per-particle sums is the sum over unordered pairs |
| PairSums.AntisymmetricTotalVanishes | mm_python/ForceFieldManager.py:103-111 | for an antisymmetric pair term, the sum of all per-particle sums is zero |
| PairSums.MoveOne | mm_python/Simulation.py:110-126 | when only particle i's terms change, the pair sum changes by exactly the change of i's own sum |
| PairSums.HalfTotalMoveOne | mm_python/Simulation.py:123-126 | the same for the halved whole-box total |
| Interactions.SeparationSwap | mm_python/ForceFieldManager.py:43-45 | the wrapped separation from j to i is minus that from i to j, with the same squared length |
| Interactions.EnergySymmetric | mm_python/ForceFieldManager.py:43-47 | the masked pair energy is symmetric in i and j |
| Interactions.VirialSymmetric | mm_python/ForceFieldManager.py:60-65 | the masked pair virial is symmetric in i and j |
| Interactions.ForceTermSwap | mm_python/ForceFieldManager.py:63-67 | the pair force on j from i is minus the force on i from j |
| Interactions.ForceAntisymmetric | mm_python/ForceFieldManager.py:63-67 | each force component is an antisymmetric pair term |
| Interactions.ForcesSumToZero | mm_python/ForceFieldManager.py:97-111 | the forces on all particles add up to zero |
| Interactions.MoveAgreesAwayFrom | mm_python/Simulation.py:105-108 | moving particle i changes no pair term that does not involve i |
| Interactions.MoveOneParticle | mm_python/Simulation.py:102-126 | moving particle i changes the halved energy and virial totals by the change of i's own energy and virial |
| Interactions.RunningTotalForce | mm_python/ForceFieldManager.py:63-67 | the force on `i` as written, built from the running virial total; with no partner inside the cutoff it is zero |
| Interactions.RunningTotalForceOffBy | mm_python/ForceFieldManager.py:63-67 | as written, the force on particle 0 of a three-particle line is off by `-12` in x |
| Interactions.RunningTotalForceCounterexample | mm_python/ForceFieldManager.py:63-67 | a concrete configuration (three particles one unit apart, cutoff 3, box 10) where the running-total force is wrong |
| Interactions.ForcesOnFirstOfThree | mm_python/ForceFieldManager.py:63-67 | for three interacting particles, the as-written force adds `w_01 r_02 / r_02^2` to the true force |
| Engine.ForceFieldManager.constructor | mm_python/ForceFieldManager.py:5-6 | keeps the force field |
| Engine.ForceFieldManager.GetMolEnergy | mm_python/ForceFieldManager.py:38-48 | the sum over `j != i` of the energy of pairs strictly inside the cutoff |
| Engine.ForceFieldManager.GetMolPairEnergyAndVirial | mm_python/ForceFieldManager.py:52-69 | the same energy as `getMolEnergy` and the matching virial sum; with `populateForces`, `forces[i]` grows by the sum of the pair forces on i, and no other row of `forces` changes |
| Engine.ForceFieldManager.GetMolVirial | mm_python/ForceFieldManager.py:156-168 | the same virial as `getMolPairEnergyAndVirial`, with the same force update |
| Engine.ForceFieldManager.AddRow | mm_python/ForceFieldManager.py:103-107 | one pass of the loop: the running totals grow from the sums over the rows before `i` to the sums over the rows up to `i`; with `populateForces`, the zero row `forces[i]` becomes the total force on `i` and the other rows are unchanged |
| Engine.ForceFieldManager.SumRows | mm_python/ForceFieldManager.py:100-107 | the loop returns the sums of every particle's energy and virial rows; with `populateForces`, starting from zero rows, `forces` ends holding every particle's total force |
| Engine.ForceFieldManager.GetTotalPairEnergyAndVirial | mm_python/ForceFieldManager.py:97-111 | half the sum of the per-particle sums, equal to the sum over unordered pairs; with `populateForces`, `forces` is a fresh array holding every particle's total force, whatever it held before; coordinates untouched |
| Integrators.Drift | mm_python/Integrators.py:46-56 | a drifted, wrapped position lies in the box |
| Integrators.DriftAll | mm_python/Integrators.py:46-56 | one drifted row per particle, each in the box |
| Integrators.Kick | mm_python/Integrators.py:60-61 | one row of the half-step velocity update; a kick with the opposite force restores the velocity, and no force leaves it unchanged |
| Integrators.KickAll | mm_python/Integrators.py:58-61 | the velocity update row by row, with the same two facts for every row |
| Integrators.DriftAtRest | mm_python/Integrators.py:46-56 | with zero velocity and force, a position in the box stays put |
| Integrators.KickTwice | mm_python/Integrators.py:60-61 | two half kicks with the same forces give `v + f dt` |
| Integrators.VelocityVerlet.constructor | mm_python/Integrators.py:18-19 | keeps the time step and the box |
| Integrators.VelocityVerlet.UpdatePositions | mm_python/Integrators.py:46-56 | each row becomes `wrap(x + v dt + 0.5 f dt^2)`, with no mass; all rows end in the box; velocities and forces untouched |
| Integrators.VelocityVerlet.UpdateVelocities | mm_python/Integrators.py:58-61 | each row becomes `v + 0.5 f dt`; coordinates and forces untouched |
| Lattice.LatticeSide | mm_python/BoxManager.py:51-54 | the smallest positive `nSide` with `nSide^3 >= n` |
| Lattice.LatticeSideUnique | mm_python/BoxManager.py:51-54 | there is only one such `nSide` |
| Lattice.Tick | mm_python/BoxManager.py:60-66 | one step of the counter: with the first two digits in `[0, nSide)` they stay there, and the third grows by at most 1 |
| Lattice.Odometer | mm_python/BoxManager.py:55-66 | the counter after `k` steps from zero; its first two digits lie in `[0, nSide)` |
| Lattice.OdometerTick | mm_python/BoxManager.py:60-66 | one tick of the counter takes the digits of k to the digits of k + 1 |
| Lattice.OdometerIndex | mm_python/BoxManager.py:55-66 | reading the counter back gives k, so distinct particles get distinct cells |
| Lattice.OdometerBounds | mm_python/BoxManager.py:55-66 | while `k < nSide^3`, every counter component lies in `[0, nSide)` |
| Lattice.CellCentreInjective | mm_python/BoxManager.py:57-59 | distinct particles get distinct cell centres |
| Lattice.SitesDistinct | mm_python/BoxManager.py:57-69 | distinct particles get distinct lattice positions in both variants |
| ConfigLines.PyIndex | mm_python/BoxManager.py:109 | Python list indexing: `-n <= i < n` is valid, and a negative index counts from the end |
| Boxes.Particle.constructor | mm_python/particle.py:11-14 | a new particle is at the origin with two parameters |
| Boxes.ParticleBox.constructor | mm_python/Box.py:7-10 | an empty box of the given edge |
| Boxes.ParticleBox.AppendParticle | mm_python/boxManager.py:44 | appends one fresh particle at the origin; the count is unchanged |
| Boxes.ParticleBox.SetPosition | mm_python/boxManager.py:46 | writes one particle's position and nothing else |
| Boxes.ParticleBox.CountParticle | mm_python/boxManager.py:47 | `numParticles` grows by one; the positions are unchanged |
| BoxManagers.RandomRowsInBox | mm_python/BoxManager.py:48 | `(0.5 - u) L` with `u` in `[0, 1)` lies in the box |
| BoxManagers.LatticeRowsDistinct | mm_python/BoxManager.py:50-69 | no two lattice particles share a position, and the counter never leaves `[0, nSide)` |
| BoxManagers.ReadLine | mm_python/BoxManager.py:98-109 | an exception leaves the rows as they were; a count line makes as many zero rows as it says; any other line keeps the count and the number of rows |
| BoxManagers.ReadLines | mm_python/BoxManager.py:96-109 | the lines in order up to the first exception; without a count line, neither the count nor the number of rows changes |
| BoxManagers.ReadLinesStops | mm_python/BoxManager.py:96-109 | after an exception, no later line has any effect |
| BoxManagers.FailureIsFinal | mm_python/BoxManager.py:96-109 | a line that raises ends the reading |
| BoxManagers.ReadCountThenData | mm_python/BoxManager.py:99-109 | a count line and then data lines give that many rows, each holding the last position listed for it, or zero |
| BoxManagers.IndexZeroWritesLastRow | mm_python/BoxManager.py:104-109 | a data line with index 0 writes the last row |
| BoxManagers.FindLatticeSide | mm_python/BoxManager.py:51-54 | the `while` loop finds the smallest `nSide` |
| BoxManagers.FillLattice | mm_python/BoxManager.py:55-66 | row k is the centre of counter cell k, moved by `-L/2` |
| BoxManagers.BuildRandom | mm_python/BoxManager.py:48 | a fresh array of `(0.5 - u) L` rows |
| BoxManagers.ShiftRows | mm_python/BoxManager.py:68-69 | every row moves by the same amount in each component |
| BoxManagers.BuildLattice | mm_python/BoxManager.py:50-69 | a fresh array holding exactly the n lattice rows |
| BoxManagers.BoxManager.constructor | mm_python/BoxManager.py:10-11 | keeps the box |
| BoxManagers.BoxManager.AddParticles | mm_python/BoxManager.py:40-69 | the count becomes n whatever the method; random and lattice fill n fresh rows, or fail for a negative n; any other method changes only the count |
| BoxManagers.BoxManager.GetConfigFromFile | mm_python/BoxManager.py:96-109 | the box ends as the line-by-line reading says, up to the first exception |
| ParticleBoxManagers.AppendToEmpty | mm_python/boxManager.py:43-47 | from an empty box, the written rows are exactly the new positions |
| ParticleBoxManagers.AppendKeepsTail | mm_python/boxManager.py:43-47 | past the written rows, old particles keep their positions and appended ones stay at the origin |
| ParticleBoxManagers.LatticeFromEmpty | mm_python/boxManager.py:54-68 | from an empty box, particle k sits at its cell centre minus 0.5, with no `-L/2` |
| ParticleBoxManagers.ReadLine | mm_python/boxManager.py:97-110 | a data line appends exactly one particle, even when it then raises; only a count line changes the count; lines of at most one field never raise |
| ParticleBoxManagers.ReadLines | mm_python/boxManager.py:95-110 | the lines in order up to the first exception; an exception needs a data line |
| ParticleBoxManagers.ReadLinesStops | mm_python/boxManager.py:95-110 | after an exception, no later line has any effect |
| ParticleBoxManagers.FailureIsFinal | mm_python/boxManager.py:95-110 | a line that raises ends the reading |
| ParticleBoxManagers.ReadLinesGrowth | mm_python/boxManager.py:101-102 | a successful reading appends one particle per data line |
| ParticleBoxManagers.ReadInOrder | mm_python/boxManager.py:99-110 | data lines numbered 1..n, read into an empty box, give exactly their positions in order |
| ParticleBoxManagers.ParticleBoxManager.constructor | mm_python/boxManager.py:10-11 | keeps the box |
| ParticleBoxManagers.ParticleBoxManager.AddParticles | mm_python/boxManager.py:42-68 | dispatches to the random or lattice branch; any other method changes nothing |
| ParticleBoxManagers.ParticleBoxManager.AddRandom | mm_python/boxManager.py:43-47 | one fresh particle appended and counted per draw; row k gets draw k; old parameters kept |
| ParticleBoxManagers.ParticleBoxManager.AddLattice | mm_python/boxManager.py:49-68 | the count grows by n; the first `numParticles` positions are the lattice rows written at indices 0..n-1, moved by -0.5; the shift fails exactly when the count exceeds the list |
| ParticleBoxManagers.ParticleBoxManager.PlaceOnLattice | mm_python/boxManager.py:53-65 | n particles appended and counted, with particle k at the centre of counter cell k |
| ParticleBoxManagers.ParticleBoxManager.ShiftParticles | mm_python/boxManager.py:67-68 | the first `numParticles` positions move by -0.5; an index past the list raises |
| ParticleBoxManagers.ParticleBoxManager.ReadOne | mm_python/boxManager.py:97-110 | one pass of the loop: count and positions change as `ReadLine` says; older particles keep their `parms`, and appended ones are fresh |
| ParticleBoxManagers.ParticleBoxManager.GetConfigFromFile | mm_python/boxManager.py:95-110 | count and positions end as the line-by-line reading says, up to the first exception |
| ParticleEngine.ParamEnergySymmetric | mm_python/forceFieldManager.py:66-73 | the masked pair energy is symmetric |
| ParticleEngine.ParamEnergyReducedUnits | mm_python/forceFieldManager.py:66-73 | with `sigma = eps = 1` each pair term is the reduced-unit term |
| ParticleEngine.PairEnergyReducedUnits | mm_python/forceFieldManager.py:100-105 | with `sigma = eps = 1` the per-particle and halved totals equal the reduced-unit ones |
| ParticleEngine.ParticleForceFieldManager.constructor | mm_python/forceFieldManager.py:5-6 | keeps the force field |
| ParticleEngine.ParticleForceFieldManager.AssignSystemForceField | mm_python/forceFieldManager.py:32-33 | particles `0..N-1` get the force field's `parms`; the others and all positions are unchanged; an index past the list raises |
| ParticleEngine.ParticleForceFieldManager.GetMolEnergy | mm_python/forceFieldManager.py:64-74 | an IndexError exactly when the count runs past the particle list, or when `parms` has fewer than two entries and some partner is inside the cutoff; otherwise the sum over `j != i` of the `(sigma, epsilon)` energy of pairs strictly inside the cutoff (0 when no pair is evaluated) |
| ParticleEngine.ParticleForceFieldManager.GetPairEnergy | mm_python/forceFieldManager.py:100-105 | an IndexError exactly when the count runs past the particle list, or when `parms` has fewer than two entries and some pair is inside the cutoff; otherwise half the sum of the per-particle energies, equal to the sum over unordered pairs (0 for a negative count) |
| Simulations.NpMod | mm_python/Simulation.py:130 | `np.mod` takes the sign of the divisor, and is 0 exactly when the divisor is 0 or divides the value |
| Simulations.RescaleScheduledEveryStep | mm_python/Simulation.py:179-180 | as written, with `scaleFreq = 0` the rescaling condition holds at every step |
| Simulations.RescaleDueAgrees | mm_python/Simulation.py:179-180 | the intended condition agrees with the written one for every positive `scaleFreq`, and never fires for 0 |
| Simulations.RescalesCount | mm_python/Simulation.py:179-180 | in the first `count` steps the thermostat fires `count / scaleFreq` times |
| Simulations.AcceptanceRate | mm_python/Simulation.py:131 | `accRate >= 0`; it is at most 100 exactly when `nAccept <= iStep + 1`; it is 0 exactly when nothing was accepted |
| Simulations.AdaptedMaxDisp | mm_python/Simulation.py:141-144 | a positive `maxDisp` stays positive; it shrinks exactly when `accRate < 38`, grows exactly when `accRate > 42`, and is otherwise unchanged |
| Simulations.TrialPosition | mm_python/Simulation.py:98-108 | the displaced, wrapped position lies in the box |
| Simulations.DisplacementBounded | mm_python/Simulation.py:98-99 | each displacement component lies in `[-maxDisp, maxDisp]` |
| Simulations.TrialAtCentre | mm_python/Simulation.py:98-108 | a draw of 0.5 leaves a position in the box where it was |
| Simulations.Pressure | mm_python/Simulation.py:132-135 | the printed pressure is the ideal-gas part `N / (beta V)`, plus the virial part `W / (3 V)`, plus the tail correction |
| Simulations.IdealGas | mm_python/Simulation.py:132-134 | with no virial and no correction, `P L^3 = N / beta` |
| Simulations.Metropolis | mm_python/Simulation.py:113-122 | a downhill move is always accepted; a rejected move had a draw at or above `exp(-beta dE)` |
| Simulations.ZeroDrawAccepts | mm_python/Simulation.py:115-122 | with a positive `exp`, a uniform draw of 0 accepts every move |
| Simulations.Simulation.constructor | mm_python/Simulation.py:69-79 | keeps the settings, with `beta = 1 / temperature` |
| Simulations.Simulation.MonteCarloStep | mm_python/Simulation.py:101-144 | the move is kept exactly when the Metropolis rule says so, and otherwise the old row is restored; only that row can change; on accept the counters grow by 1, dE and dW, on reject they are unchanged; totals that matched the configuration still match it; `maxDisp` adapts on `printProp` multiples |
| Simulations.Simulation.Decide | mm_python/Simulation.py:113-122 | accept when `dE <= 0`, or when the draw is below `exp(-beta dE)` |
| Simulations.Simulation.DisplaceParticle | mm_python/Simulation.py:105-108 | only the chosen row changes, to its trial position |
| Simulations.Simulation.AdaptMaxDisp | mm_python/Simulation.py:130-144 | on a `printProp` multiple, `maxDisp` follows the acceptance rate; otherwise it is unchanged |
| Simulations.Simulation.MolecularDynamicsStep | mm_python/Simulation.py:170-180 | the order is positions, half kick, fresh forces and energies of the new positions, half kick with the new forces; rescaling is reported exactly when `np.mod(iStep + 1, scaleFreq) == 0`, as written (so at every step for `scaleFreq = 0`) |

## Left out

- File and console I/O are not modelled:
  - opening, writing and closing the trajectory;
  - `printXYZ`;
  - printing properties;
  - reading the restart file, `split()` and `int`/`float` parsing.
  `getConfigFromFile` is modelled from the already-split line. A `Line` records how many fields it has, the first field as an integer, and the next three as reals.
- Randomness is not modelled. The trial particle, the displacement draw, the uniform draw and the placement draws are method inputs. Any real uniform draw is allowed, not only values in `[0, 1)`; `RandomRowsInBox` states the bound under that assumption.
- `exp`, `sqrt` and `pi` are parameters. `exp` is any function `real -> real`; `sqrt(rij2)` is a given `r >= 0` with `r * r == rij2`; `pi` is any real.
- Floating-point rounding, overflow, `inf` and `nan` are not modelled; all arithmetic is exact.
- A pair at zero wrapped distance divides by zero in the source, producing numpy `inf`/`nan`. The engine methods instead require a `Separated` configuration (`Engine.Ready`), and the Monte Carlo and molecular dynamics steps require their trial configurations to be separated.
- `scaleVelocities` and `assignVelocities` are not part of this model. `Simulation.py` calls `boxManager.scaleVelocities`, which `BoxManager.py` does not define. Only the rescaling condition is modelled: `MolecularDynamicsStep` reports `rescale`, as written.
- The `run` loops themselves are not modelled, only one pass of each loop body (`MonteCarloStep`, `MolecularDynamicsStep`). The per-step energy printout, `totalEnergy / numParticles`, is printed only and so is left out.
- `mm_python/simulation.py` is a superseded driver that cannot run. It reads `forceField`, which neither manager defines, and `particle.energy`, which `Particle` lacks. It is not part of this model.
- The whole-array assignments are modelled as row-by-row loops with the same result:
  - `box.coordinates = ...` and `box.velocities = ...` in `Integrators.py`;
  - `coordinates -= 0.5` in `BoxManager.py`.
  In `UpdatePositions` and `UpdateVelocities` the array object is updated in place rather than replaced by a new one.
- `Simulations.Simulation.constructor`: requires `temperature != 0`, where the source raises `ZeroDivisionError` instead.
- `Engine.ForceFieldManager.GetMolPairEnergyAndVirial` and `GetMolVirial`: model the corrected force update, `wij * rij / rij2` per pair. The as-written running-total update is modelled separately by `Interactions.RunningTotalForce` (see Findings).
- `Engine.ForceFieldManager.AddRow`: its force row is the corrected total force on the particle, not the as-written running-total row.
- `Engine.ForceFieldManager.SumRows`: the forces it leaves are the corrected pair forces, not the as-written running-total rows.
- `Engine.ForceFieldManager.GetTotalPairEnergyAndVirial`: its energy and virial are as written, but the forces it leaves are the corrected pair forces, not the as-written rows.
- `Simulations.Simulation.MolecularDynamicsStep`: its new forces, and the velocities kicked with them, use the corrected pair forces, not the as-written rows.
- `Engine.Ready` requires `0 <= numParticles <= ` the number of coordinate rows. So `Engine.ForceFieldManager.GetMolEnergy`, `GetMolPairEnergyAndVirial`, `GetMolVirial`, `AddRow`, `SumRows` and `GetTotalPairEnergyAndVirial` do not model two cases:
  - a count above the rows, where numpy raises an IndexError at the first missing row;
  - a negative count, where `range(0, numParticles)` is empty and `getTotalPairEnergyAndVirial` returns `(0.0, 0.0)`.

  The array box managers size the rows to the count whenever random or lattice placement, or a count line of the file, succeeds. A failed placement (another method name, or a negative `n`) or a negative count line sets the count and leaves the rows as they were.
- `ParamForceField.Evaluate` and `ParamForceField.TailCorrection` require `parms` to have at least two entries. With fewer, the source raises an IndexError. `ParticleEngine.ParticleForceFieldManager.GetMolEnergy` and `GetPairEnergy` model that IndexError where the engine calls `evaluate`.
- `ReducedForceField.TailCorrection`, `ReducedForceField.PressureCorrection` and `ParamForceField.TailCorrection` require a non-zero cutoff. With a zero cutoff the source divides by zero: a `ZeroDivisionError` for a Python float, `inf` for a numpy scalar.
- `Simulation.py` lines 166-168 are indented with a tab plus spaces, between lines indented with spaces only. Python 3 rejects that mix with a `TabError`, so the modelled `Simulation` class loads only under Python 2, although `setup.py` declares Python 3 support. The model follows the evident block structure.
- `Engine.ForceFieldManager.GetMolEnergy`, `GetMolPairEnergyAndVirial`, `GetMolVirial`, `AddRow` and `Simulations.Simulation.MonteCarloStep` require particle indices in `[0, numParticles)`. Python would accept `iParticle = -1` as the last row.
- `Particle.parms` starts as `np.empty(2)`, whose values are arbitrary; the model leaves them unconstrained.
- The array-based `Box` class (with `coordinates`, `velocities`, `forces`) is not in the repository's `Box.py`, which holds the particle-list box. Its fields are taken from how `BoxManager.py`, `ForceFieldManager.py` and `Integrators.py` use them.
- Particle mass is absent from the source (`#/ self.box.mass` is commented out), and so from the model.

## Findings

| source | as written | input that shows it | evidently intended | confidence | as-written member | corrected member |
|---|---|---|---|---|---|---|
| mm_python/ForceFieldManager.py:63-67 | after each counted pair, `forces[i] += wPair * rij / rij2`, where `wPair` is the running virial sum over all pairs so far | three particles at x = 0, 1, 2 in a box of 10 with cutoff 3: the x force on particle 0 is off by `w_01 * x_02 / r_02^2 = -12` | add the pair's own virial, `w_ij * rij / rij2`, so the forces are the pair forces and sum to zero | not executed | Interactions.RunningTotalForceCounterexample | Interactions.ForcesSumToZero |
| mm_python/Simulation.py:179-180 | `np.mod(iStep + 1, self.scaleFreq) == 0` with the default `scaleFreq = 0`; numpy's integer `mod` by zero returns 0 | `scaleFreq = 0`, any step: the condition holds, so the velocities are rescaled after every step | a frequency of 0 means never rescale; rescale every `scaleFreq`-th step otherwise | not executed | Simulations.RescaleScheduledEveryStep | Simulations.RescaleDueAgrees |
