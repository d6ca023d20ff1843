/**
 * The per-event selection loop of the fast-simulation processor: every truth
 * particle of the event is looked at in order; stable particles outside the
 * forward cone are handed to the particle factory, and each particle the
 * factory returns is appended to the output list together with one relation
 * back to its truth particle. Also the processor's default parameters.
 *
 * The factory is a function from a truth particle to an optional reconstructed
 * particle; its own rules (smearing, momentum cut, neutrinos) are not part of
 * this model. `None` as the factory itself stands for a processor without one.
 */
module FastMCProcessor {
  import opened Wrappers
  import opened Kinematics
  import opened TrackSmearer

  /** Default minimum momentum of a reconstructed particle, in GeV. */
  const DEFAULT_MOMENTUM_CUT: real := 0.001

  /** Default charged-track table: one (d(1/P), thMin, thMax) triple. */
  const DEFAULT_CHARGED_RESOLUTION: seq<real> := [0.00005, 0.0, 3.1415927]

  /** Default photon and neutral-hadron tables: (A, B, thMin, thMax) with dE/E = A + B / sqrt(E). */
  const DEFAULT_PHOTON_RESOLUTION: seq<real> := [0.01, 0.10, 0.0, 3.1415927]
  const DEFAULT_NEUTRAL_HADRON_RESOLUTION: seq<real> := [0.04, 0.50, 0.0, 3.1415927]

  /** Generator status of a stable (final-state) particle. */
  const STABLE_STATUS: int := 1

  /** The cosine of the polar angle above which a particle is in the forward cone. */
  const FORWARD_COS_THETA: real := 0.9995

  /** A truth particle: its code, generator status, momentum and cos(theta) of that momentum. */
  datatype MCParticle = MCParticle(pdg: int, generatorStatus: int, momentum: Vec3, cosTheta: real)

  /** One entry of the reco-to-truth relation. */
  datatype Relation<R> = Relation(reco: R, mc: MCParticle)

  function Fabs(x: real): real {
    if x < 0.0 then -x else x
  }

  /** A C++ bool used as a double: 1.0 for true, 0.0 for false. */
  function AsDouble(b: bool): real {
    if b then 1.0 else 0.0
  }

  /** The skip test of the loop as written: fabs is applied to the comparison's result. */
  predicate ForwardCut(cosTheta: real) {
    Fabs(AsDouble(cosTheta > FORWARD_COS_THETA)) != 0.0
  }

  /** Only the forward cone is cut: cos(theta) > 0.9995 is skipped, the backward cone cos(theta) < -0.9995 is kept. */
  lemma ForwardCutIsOneSided(cosTheta: real)
    ensures ForwardCut(cosTheta) <==> cosTheta > FORWARD_COS_THETA
    ensures cosTheta < -FORWARD_COS_THETA ==> !ForwardCut(cosTheta)
  {
  }

  predicate Stable(mcp: MCParticle) {
    mcp.generatorStatus == STABLE_STATUS
  }

  /** A particle that reaches the factory: stable and not in the forward cone. */
  predicate Candidate(mcp: MCParticle) {
    Stable(mcp) && !ForwardCut(mcp.cosTheta)
  }

  /** What one truth particle contributes to the output: at most one relation. */
  function Outcome<R>(mcp: MCParticle, factory: Option<MCParticle -> Option<R>>): seq<Relation<R>> {
    if Candidate(mcp) && factory.Some? && factory.value(mcp).Some?
    then [Relation(factory.value(mcp).value, mcp)]
    else []
  }

  /** The relations an event yields: the outcomes of its truth particles, in input order. */
  function Reconstruct<R>(mcps: seq<MCParticle>, factory: Option<MCParticle -> Option<R>>): seq<Relation<R>>
    decreases |mcps|
  {
    if |mcps| == 0 then []
    else Reconstruct(mcps[..|mcps| - 1], factory) + Outcome(mcps[|mcps| - 1], factory)
  }

  /** The truth particles that reach the factory, in input order. */
  function Candidates(mcps: seq<MCParticle>): seq<MCParticle>
    decreases |mcps|
  {
    if |mcps| == 0 then []
    else Candidates(mcps[..|mcps| - 1]) + (if Candidate(mcps[|mcps| - 1]) then [mcps[|mcps| - 1]] else [])
  }

  /** Only stable particles outside the forward cone reach the factory, and every one of them does. */
  lemma {:induction false} CandidatesAreStable(mcps: seq<MCParticle>)
    ensures forall c :: c in Candidates(mcps) ==> Stable(c) && c.cosTheta <= FORWARD_COS_THETA
    ensures forall i :: 0 <= i < |mcps| && Candidate(mcps[i]) ==> mcps[i] in Candidates(mcps)
    ensures |Candidates(mcps)| <= StableCount(mcps)
    decreases |mcps|
  {
    if |mcps| > 0 {
      var init := mcps[..|mcps| - 1];
      CandidatesAreStable(init);
      forall i | 0 <= i < |mcps| - 1
        ensures mcps[i] == init[i]
      {
      }
    }
  }

  /** The number of stable truth particles. */
  function StableCount(mcps: seq<MCParticle>): nat
    decreases |mcps|
  {
    if |mcps| == 0 then 0
    else StableCount(mcps[..|mcps| - 1]) + (if Stable(mcps[|mcps| - 1]) then 1 else 0)
  }

  /** No truth particle is split: an event never yields more relations than it has stable particles. */
  lemma {:induction false} ReconstructBound<R>(mcps: seq<MCParticle>, factory: Option<MCParticle -> Option<R>>)
    ensures |Reconstruct(mcps, factory)| <= StableCount(mcps)
    decreases |mcps|
  {
    if |mcps| > 0 {
      ReconstructBound(mcps[..|mcps| - 1], factory);
    }
  }

  /** Each truth particle is treated on its own: processing an event in two parts gives the same output in the same order. */
  lemma {:induction false} ReconstructAppend<R>(a: seq<MCParticle>, b: seq<MCParticle>, factory: Option<MCParticle -> Option<R>>)
    ensures Reconstruct(a + b, factory) == Reconstruct(a, factory) + Reconstruct(b, factory)
    decreases |b|
  {
    if |b| == 0 {
      assert a + b == a;
    } else {
      var b' := b[..|b| - 1];
      assert (a + b)[..|a + b| - 1] == a + b';
      assert (a + b)[|a + b| - 1] == b[|b| - 1];
      ReconstructAppend(a, b', factory);
    }
  }

  /** Without a factory nothing is reconstructed. */
  lemma {:induction false} NoFactoryNoOutput<R>(mcps: seq<MCParticle>, factory: Option<MCParticle -> Option<R>>)
    requires factory.None?
    ensures Reconstruct(mcps, factory) == []
    decreases |mcps|
  {
    if |mcps| > 0 {
      NoFactoryNoOutput(mcps[..|mcps| - 1], factory);
    }
  }

  /** The positions of the truth particles that yield an output, in increasing order. */
  function SourceIndices<R>(mcps: seq<MCParticle>, factory: Option<MCParticle -> Option<R>>): seq<nat>
    decreases |mcps|
  {
    if |mcps| == 0 then []
    else
      SourceIndices(mcps[..|mcps| - 1], factory)
      + (if Outcome(mcps[|mcps| - 1], factory) != [] then [|mcps| - 1] else [])
  }

  /** The last truth particle adds its outcome, and its position when it has one, at the end. */
  lemma SourceIndicesStep<R>(mcps: seq<MCParticle>, factory: Option<MCParticle -> Option<R>>)
    requires |mcps| > 0
    ensures var n := |mcps| - 1;
            && Reconstruct(mcps, factory) == Reconstruct(mcps[..n], factory) + Outcome(mcps[n], factory)
            && SourceIndices(mcps, factory)
               == SourceIndices(mcps[..n], factory) + (if Outcome(mcps[n], factory) != [] then [n] else [])
            && (forall i :: 0 <= i < n ==> mcps[..n][i] == mcps[i])
  {
  }

  /** There is one source position per output, each a valid position, and they increase. */
  lemma {:induction false} SourceIndicesShape<R>(mcps: seq<MCParticle>, factory: Option<MCParticle -> Option<R>>)
    ensures |SourceIndices(mcps, factory)| == |Reconstruct(mcps, factory)|
    ensures forall k :: 0 <= k < |SourceIndices(mcps, factory)| ==> SourceIndices(mcps, factory)[k] < |mcps|
    ensures forall j, k :: 0 <= j < k < |SourceIndices(mcps, factory)| ==>
              SourceIndices(mcps, factory)[j] < SourceIndices(mcps, factory)[k]
    decreases |mcps|
  {
    if |mcps| > 0 {
      SourceIndicesStep(mcps, factory);
      SourceIndicesShape(mcps[..|mcps| - 1], factory);
    }
  }

  /**
   * Output k traces back to the truth particle at position idx[k]: that particle
   * is a candidate, the factory maps it to the k-th reconstructed particle, and
   * the k-th relation links the two.
   */
  ghost predicate TracesBack<R>(mcps: seq<MCParticle>, factory: Option<MCParticle -> Option<R>>,
                                rels: seq<Relation<R>>, idx: seq<nat>, k: nat)
    requires k < |rels| && k < |idx|
  {
    var i := idx[k];
    && i < |mcps|
    && rels[k].mc == mcps[i]
    && Candidate(mcps[i])
    && factory.Some? && factory.value(mcps[i]) == Some(rels[k].reco)
  }

  /** Every output of an event traces back, through SourceIndices, to the truth particle it came from. */
  lemma {:induction false} ReconstructSound<R>(mcps: seq<MCParticle>, factory: Option<MCParticle -> Option<R>>)
    ensures |SourceIndices(mcps, factory)| == |Reconstruct(mcps, factory)|
    ensures forall k :: 0 <= k < |Reconstruct(mcps, factory)| ==>
              TracesBack(mcps, factory, Reconstruct(mcps, factory), SourceIndices(mcps, factory), k)
    decreases |mcps|
  {
    SourceIndicesShape(mcps, factory);
    if |mcps| > 0 {
      var n := |mcps| - 1;
      var init := mcps[..n];
      SourceIndicesStep(mcps, factory);
      ReconstructSound(init, factory);
      var rels, idx := Reconstruct(mcps, factory), SourceIndices(mcps, factory);
      var rels0, idx0 := Reconstruct(init, factory), SourceIndices(init, factory);
      forall k | 0 <= k < |rels|
        ensures TracesBack(mcps, factory, rels, idx, k)
      {
        if k < |rels0| {
          assert rels[k] == rels0[k] && idx[k] == idx0[k];
          assert TracesBack(init, factory, rels0, idx0, k);
        } else {
          assert k == |rels0| && Outcome(mcps[n], factory) != [];
          assert rels[k] == Outcome(mcps[n], factory)[0];
          assert idx[k] == n;
        }
      }
    }
  }

  /** Every candidate the factory accepts yields an output: its position is among the source positions. */
  lemma {:induction false} ReconstructComplete<R>(mcps: seq<MCParticle>, factory: Option<MCParticle -> Option<R>>)
    ensures forall i :: 0 <= i < |mcps| && Candidate(mcps[i]) && factory.Some? && factory.value(mcps[i]).Some?
              ==> i in SourceIndices(mcps, factory)
    decreases |mcps|
  {
    if |mcps| > 0 {
      var n := |mcps| - 1;
      SourceIndicesStep(mcps, factory);
      ReconstructComplete(mcps[..n], factory);
    }
  }

  /**
   * The selection loop of one event: returns the reconstructed particles and
   * the reco-to-truth relations, and (ghost) the truth particles handed to the
   * factory. The k-th relation links the k-th reconstructed particle to its
   * truth particle.
   */
  method ProcessEvent<R>(mcpCol: seq<MCParticle>, factory: Option<MCParticle -> Option<R>>)
    returns (recVec: seq<R>, relations: seq<Relation<R>>, ghost passed: seq<MCParticle>)
    ensures relations == Reconstruct(mcpCol, factory)
    ensures |recVec| == |relations|
    ensures forall k :: 0 <= k < |recVec| ==> relations[k].reco == recVec[k]
    ensures passed == if factory.Some? then Candidates(mcpCol) else []
    ensures |recVec| <= StableCount(mcpCol)
    ensures factory.None? ==> recVec == []
  {
    recVec, relations, passed := [], [], [];
    for i := 0 to |mcpCol|
      invariant relations == Reconstruct(mcpCol[..i], factory)
      invariant |recVec| == |relations|
      invariant forall k :: 0 <= k < |recVec| ==> relations[k].reco == recVec[k]
      invariant passed == if factory.Some? then Candidates(mcpCol[..i]) else []
    {
      assert mcpCol[..i + 1][..i] == mcpCol[..i];
      var mcp := mcpCol[i];
      if mcp.generatorStatus == STABLE_STATUS {
        if Fabs(AsDouble(mcp.cosTheta > FORWARD_COS_THETA)) != 0.0 {
          continue;
        }
        var rec: Option<R> := None;
        if factory.Some? {
          rec := factory.value(mcp);
          passed := passed + [mcp];
        }
        if rec.Some? {
          recVec := recVec + [rec.value];
          relations := relations + [Relation(rec.value, mcp)];
        }
      }
    }
    assert mcpCol[..|mcpCol|] == mcpCol;
    ReconstructBound(mcpCol, factory);
    if factory.None? {
      NoFactoryNoOutput(mcpCol, factory);
    }
  }

  /**
   * The default charged table is the single bin (5e-5, 0, 3.1415927): every
   * polar angle in (0, pi] gets resolution 5e-5, while theta = 0 matches no bin.
   */
  lemma DefaultChargedTable()
    ensures Bins(DEFAULT_CHARGED_RESOLUTION) == [TrackResolution(0.00005, 0.0, 3.1415927)]
    ensures forall theta :: 0.0 < theta <= PI ==> Resolution(Bins(DEFAULT_CHARGED_RESOLUTION), theta) == 0.00005
    ensures Resolution(Bins(DEFAULT_CHARGED_RESOLUTION), 0.0) == NO_RESOLUTION
  {
    var flat := DEFAULT_CHARGED_RESOLUTION;
    assert flat[3..] == [];
    var bins := Bins(flat);
    assert bins == [TrackResolution(0.00005, 0.0, 3.1415927)];
    forall theta | 0.0 < theta <= PI
      ensures Resolution(bins, theta) == 0.00005
    {
      ResolutionOfFirstMatch(bins, theta, 0);
    }
    ResolutionWithoutMatch(bins, 0.0);
  }
}
