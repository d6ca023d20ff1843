# Fast-simulation track smearing and event selection, in Dafny

This project models two parts of the LG fast Monte Carlo processor, a Marlin
processor that turns truth-level `MCParticle`s into `ReconstructedParticle`s
with detector-like resolution:

* **The charged-track smearer (`LGTrackSmearer`).**
  * The constructor turns a flat list of numbers into a table of
    `(DPP, ThMin, ThMax)` bins: consecutive triples, in order. A tail shorter
    than three numbers is dropped without an error.
  * `smearedFourVector` first brings a polar angle θ in (π, 2π) back by π.
  * It then scans the table for the first bin with `ThMin < θ ≤ ThMax`. With
    no match the resolution stays −1.
  * When the resolution is not above −1e-10, the result is the zero
    four-vector.
  * Otherwise it draws δP with standard deviation `P·P·DPP`. This is a
    Δ(1/P) resolution, not a ΔP/P one.
  * It rescales the 3-momentum to `P + δP` and sets the energy on shell. The
    mass is the electron mass for |PDG| = 11, the muon mass for |PDG| = 13,
    and the pion mass for every other code.
* **The selection loop of `LGFastMCProcessor::processEvent`.**
  * Truth particles are visited in input order.
  * Only generator status 1 particles go on.
  * Next comes the cone test, `fabs(cos(theta) > 0.9995)`. `fabs` is applied
    to the boolean result of the comparison, so only the forward cone
    (cos θ > 0.9995) is skipped. The backward cone is kept.
  * Each remaining particle is handed to the particle factory, if the
    processor has one.
  * Every particle the factory returns is appended to the output list, with
    one reco→truth relation.
  * The processor's default parameters are modelled as constants: momentum
    cut 0.001 GeV, charged table `(5e-5, 0, 3.1415927)`, and the photon and
    neutral-hadron tables.

Modules:

* `Wrappers` holds `Option`.
* `Kinematics` holds 3-vectors, `setMag` and `setVectM` over the reals.
* `TrackSmearer` holds the table, the lookup, the mass rule and the class
  `LGTrackSmearer`. The class keeps its table in an `array`, which the
  constructor fills with an index counter.
* `FastMCProcessor` holds the selection loop `ProcessEvent`, its reference
  definition `Reconstruct`, and the defaults.

Modelling choices:

* The Gaussian generator is an input. `unitGauss` is a standard-normal
  variate, and the draw of width σ is `σ · unitGauss`.
  `SmearedFourVector` returns the width it asks for (`sigma`), or `None` when
  it makes no draw.
* The polar angle θ and the momentum magnitude P are inputs. P is tied to the
  vector by `P ≥ 0 ∧ P² = |p|²`.
* A four-vector stores the square of its energy, because Dafny's reals have
  no square root. The energy is never negative, so nothing is lost.
* The factory is an uninterpreted function `MCParticle -> Option<R>`. A
  missing factory (`_factory == 0`) is `None`.

Behaviour of the code worth knowing:

* A resolution list whose length is not a multiple of three is truncated
  without an error: the table gets `size / 3` bins (src/LGTrackSmearer.cc:27).
* The momentum spread is `P·P·DPP`, so DPP is a Δ(1/P) resolution, as the
  parameter description says (src/LGTrackSmearer.cc:67,
  src/LGFastMCProcessor.cc:74).
* The status and cone filters are applied in the processor loop, before the
  factory is called (src/LGFastMCProcessor.cc:223-231).
* A matched bin whose DPP is ≤ −1e-10 is treated like no match: the result is
  the zero four-vector (src/LGTrackSmearer.cc:61).

## Model

| member | source | states |
|---|---|---|
| `TrackSmearer.BinsShape` | src/LGTrackSmearer.cc:27-38 | a flat list of length n gives floor(n/3) bins, and bin i is (resVec[3i], resVec[3i+1], resVec[3i+2]) as (DPP, ThMin, ThMax), in input order |
| `TrackSmearer.LGTrackSmearer.constructor` | src/LGTrackSmearer.cc:23-39 | the table the index-counter loop fills is exactly the bins of the flat list; trailing numbers that do not fill a triple are dropped |
| `TrackSmearer.FirstMatch` | src/LGTrackSmearer.cc:52-57 | the scan stops at a bin with ThMin < θ ≤ ThMax and no earlier bin matches; with no result, no bin matches |
| `TrackSmearer.ResolutionOfFirstMatch` | src/LGTrackSmearer.cc:50-57 | the resolution is the DPP of the lowest-index bin containing θ, so on overlapping bins the earlier one wins |
| `TrackSmearer.ResolutionWithoutMatch` | src/LGTrackSmearer.cc:50-61 | when no bin contains θ the resolution stays −1, which fails the `> −1e-10` test |
| `TrackSmearer.BinEdges` | src/LGTrackSmearer.cc:54 | θ equal to a bin's ThMin is outside it, θ equal to its ThMax inside |
| `TrackSmearer.NormalizeTheta` | src/LGTrackSmearer.cc:48 | θ changes (by −π) exactly when π < θ < 2π; every θ in [0, 2π) ends in [0, π] |
| `TrackSmearer.HypothesisFor` | src/LGTrackSmearer.cc:82-90 | electron exactly when abs(pdg) = 11, muon exactly when abs(pdg) = 13, pion exactly otherwise |
| `TrackSmearer.MassOf` | src/LGTrackSmearer.cc:82-90 | every assigned mass is positive |
| `TrackSmearer.ChargedMassRule` | src/LGTrackSmearer.cc:79-90 | the assigned mass is ELECTRON_MASS, MUON_MASS or PION_MASS under the same abs(pdg) conditions, in both directions, and a particle and its antiparticle get the same mass |
| `TrackSmearer.SmearedVectorProperties` | src/LGTrackSmearer.cc:65-92 | the smeared momentum has squared magnitude (P+δP)² and dot product (P+δP)·P with the truth momentum, so it is reversed when P+δP < 0 (no clamping); for P > 0 it lies on the truth momentum's line (cross product zero); the four-vector is on shell for the assigned mass and is never the zero sentinel |
| `TrackSmearer.ZeroMomentumIsKept` | src/LGTrackSmearer.cc:65-71 | a particle with P = 0 gets δP = 0 (the width P·P·DPP vanishes) and keeps its zero 3-momentum |
| `TrackSmearer.LGTrackSmearer.SmearedFourVector` | src/LGTrackSmearer.cc:42-98 | with a usable resolution (> −1e-10 after normalising θ and the first-match lookup), one draw of standard deviation P·P·DPP is made and the result is the momentum rescaled to P+δP with the hypothesis mass on shell; otherwise no draw and the zero four-vector; the zero vector comes back exactly when no draw is made |
| `Kinematics.SetMag` | src/LGTrackSmearer.cc:69-71 | a zero-length momentum is left unchanged by the rescaling |
| `Kinematics.SetMagGeometry` | src/LGTrackSmearer.cc:69-71 | rescaling to a new magnitude M gives squared length M² and keeps the vector on its line, along it for M > 0 and reversed for M < 0 |
| `Kinematics.SetVectM` | src/LGTrackSmearer.cc:92 | the four-vector keeps the given 3-momentum |
| `Kinematics.SetVectMOnShell` | src/LGTrackSmearer.cc:92 | the four-vector's invariant mass squared is mass², so E² equals the squared momentum plus mass² |
| `Kinematics.MassiveIsNotZero` | src/LGTrackSmearer.cc:59-61 | a four-vector with non-zero invariant mass differs from the zero sentinel |
| `FastMCProcessor.ForwardCutIsOneSided` | src/LGFastMCProcessor.cc:231 | the skip test as written holds exactly when cos θ > 0.9995; particles with cos θ < −0.9995 are not skipped |
| `FastMCProcessor.CandidatesAreStable` | src/LGFastMCProcessor.cc:223-235 | every particle that reaches the factory has generator status 1 and cos θ ≤ 0.9995, every such particle reaches it, and there are no more of them than stable particles |
| `FastMCProcessor.ProcessEvent` | src/LGFastMCProcessor.cc:192-239 | the loop's relations equal the reference filter-map `Reconstruct`, in input order; the output list has one entry per relation and the k-th relation points from the k-th output; the particles handed to the factory are exactly the candidates in order (none without a factory); output count ≤ number of status-1 inputs; no factory gives no output |
| `FastMCProcessor.ReconstructBound` | src/LGFastMCProcessor.cc:223-239 | an event never yields more reconstructed particles than it has status-1 truth particles |
| `FastMCProcessor.ReconstructAppend` | src/LGFastMCProcessor.cc:192-239 | each truth particle is handled on its own: the output of a concatenated input is the concatenation of the outputs, in order |
| `FastMCProcessor.NoFactoryNoOutput` | src/LGFastMCProcessor.cc:232-235 | with no factory the output is empty |
| `FastMCProcessor.SourceIndicesStep` | src/LGFastMCProcessor.cc:237-239 | the last truth particle appends its outcome, and its position when it has one, at the end |
| `FastMCProcessor.SourceIndicesShape` | src/LGFastMCProcessor.cc:192-239 | there is one source position per output, each a valid input position, strictly increasing, so outputs follow input order |
| `FastMCProcessor.ReconstructSound` | src/LGFastMCProcessor.cc:234-239 | output k's relation points to the truth particle at its source position; that particle is stable and outside the forward cone; the factory maps it to exactly output k |
| `FastMCProcessor.ReconstructComplete` | src/LGFastMCProcessor.cc:223-239 | every stable, non-forward particle for which the factory returns a particle appears among the source positions, so it is in the output |
| `FastMCProcessor.DefaultChargedTable` | src/LGFastMCProcessor.cc:68-77 | the default charged list is the single bin (5e-5, 0.0, 3.1415927); every θ in (0, π] gets resolution 5e-5 and θ = 0 matches no bin |

## Left out

- Histogram booking, filling and plotting are not modelled. This covers the momentum, mass and cos θ histograms, the pair-mass loops and `PlotDataMC` in `end()`. It is diagnostic ROOT output.
- The parent and grandparent look-ups in the loop feed only those histograms, so they are left out too.
- `RandGauss::shoot` is not modelled. The standard-normal variate is an input instead.
- The statistical properties of the draw are outside what a verifier states. The model only fixes the width it is asked for.
- CLHEP/ROOT vector internals are not modelled: `theta()`, `mag()`, `TVector3::Theta`, and `cos` of θ. θ, P and cos θ are inputs.
- `setMag` and `setVectM` are specified over the reals. This includes `setMag` leaving a zero vector unchanged, which is CLHEP's behaviour.
- No square root is taken: the energy is kept as its square.
- Floating point is not modelled. The table holds `float`s that are compared with `double`s. Rounding is ignored; for example, the `float` 3.1415927 is taken as the real 3.1415927.
- The header that defines ELECTRON_MASS, MUON_MASS and PION_MASS (LGTrackSmearer.h) is not part of this model. The constants carry the PDG masses in GeV. The proofs use only that they are positive and distinct.
- LCIO and Marlin plumbing are not modelled: steering-parameter registration, `init()`, collection construction and flags (`setDefault`, `setSubset`, `setTransient`), `LCRelationNavigator`, and `evt->addCollection`. Their result is kept as two sequences, the reconstructed particles and the relations.
- The trash vectors and `FreeDelAll` are not modelled. They are ownership bookkeeping.
- The run and event counters (`_nRun`, `_nEvt`) are not modelled. They are used only in the end-of-job message.
- `LGParticleFactory` is not part of this model. It is a function the model takes as given, so its momentum cut, smear switch and neutrino rejection are not modelled.
- `LGClusterSmearer` is not part of this model. The photon and neutral-hadron default tables are constants only.
