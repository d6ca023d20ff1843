/**
 * The charged-track smearer: a resolution table of (DPP, ThMin, ThMax) bins
 * built from a flat list of numbers, a first-match lookup by polar angle, and
 * the smearing of a charged particle's momentum magnitude with an on-shell
 * energy for an electron, muon or pion mass hypothesis.
 *
 * The Gaussian variate is an input (`unitGauss`, a standard-normal number):
 * a draw of mean 0 and standard deviation sigma is `sigma * unitGauss`.
 */
module TrackSmearer {
  import opened Wrappers
  import opened Kinematics

  /** M_PI, the double closest to pi. */
  const PI: real := 3.141592653589793

  /** A resolution at or below this value means "no usable resolution". */
  const RESOLUTION_FLOOR: real := -0.0000000001

  /** The resolution left in place when no bin matches. */
  const NO_RESOLUTION: real := -1.0

  /** Masses in GeV of the three charged-particle hypotheses. */
  const ELECTRON_MASS: real := 0.0005109989
  const MUON_MASS: real := 0.10565836
  const PION_MASS: real := 0.13957018

  /** One bin: the momentum resolution DPP, valid for ThMin < theta <= ThMax. */
  datatype TrackResolution = TrackResolution(dpp: real, thMin: real, thMax: real)

  /** The table a flat list describes: consecutive triples, in order; a tail shorter than three is dropped. */
  function Bins(flat: seq<real>): seq<TrackResolution>
    decreases |flat|
  {
    if |flat| < 3 then []
    else [TrackResolution(flat[0], flat[1], flat[2])] + Bins(flat[3..])
  }

  /** The bin that the triple starting at position 3 * i describes. */
  function TripleAt(flat: seq<real>, i: nat): TrackResolution
    requires 3 * i + 2 < |flat|
  {
    TrackResolution(flat[3 * i], flat[3 * i + 1], flat[3 * i + 2])
  }

  /** The table has floor(n / 3) bins, and bin i is the i-th triple of the list. */
  lemma {:induction false} BinsShape(flat: seq<real>)
    ensures |Bins(flat)| == |flat| / 3
    ensures forall i :: 0 <= i < |flat| / 3 ==> Bins(flat)[i] == TripleAt(flat, i)
  {
    if |flat| >= 3 {
      var rest := flat[3..];
      BinsShape(rest);
      forall i | 1 <= i < |flat| / 3
        ensures Bins(flat)[i] == TripleAt(flat, i)
      {
        assert Bins(flat)[i] == Bins(rest)[i - 1];
        assert TripleAt(rest, i - 1) == TripleAt(flat, i);
      }
    }
  }

  /** The half-open angular test of the lookup. */
  predicate InBin(b: TrackResolution, theta: real) {
    b.thMin < theta <= b.thMax
  }

  /** The index of the first bin whose range contains theta, if any. */
  function FirstMatch(bins: seq<TrackResolution>, theta: real): (r: Option<nat>)
    ensures r.Some? ==> r.value < |bins| && InBin(bins[r.value], theta)
    ensures r.Some? ==> forall j :: 0 <= j < r.value ==> !InBin(bins[j], theta)
    ensures r.None? ==> forall j :: 0 <= j < |bins| ==> !InBin(bins[j], theta)
    decreases |bins|
  {
    if |bins| == 0 then None
    else if InBin(bins[0], theta) then Some(0)
    else
      match FirstMatch(bins[1..], theta)
      case None => None
      case Some(k) => Some(k + 1)
  }

  /** The resolution the scan leaves behind: the first matching bin's DPP, or -1. */
  function Resolution(bins: seq<TrackResolution>, theta: real): real {
    match FirstMatch(bins, theta)
    case None => NO_RESOLUTION
    case Some(i) => bins[i].dpp
  }

  /** The lookup returns the DPP of the lowest-index bin that contains theta: earlier bins win overlaps. */
  lemma ResolutionOfFirstMatch(bins: seq<TrackResolution>, theta: real, i: nat)
    requires i < |bins| && InBin(bins[i], theta)
    requires forall j :: 0 <= j < i ==> !InBin(bins[j], theta)
    ensures FirstMatch(bins, theta) == Some(i)
    ensures Resolution(bins, theta) == bins[i].dpp
  {
  }

  /** With no bin containing theta the resolution stays -1, which is not usable. */
  lemma ResolutionWithoutMatch(bins: seq<TrackResolution>, theta: real)
    requires forall j :: 0 <= j < |bins| ==> !InBin(bins[j], theta)
    ensures FirstMatch(bins, theta) == None
    ensures Resolution(bins, theta) == NO_RESOLUTION <= RESOLUTION_FLOOR
  {
  }

  /** The lower edge of a bin is outside it, the upper edge inside. */
  lemma BinEdges(b: TrackResolution)
    requires b.thMin < b.thMax
    ensures !InBin(b, b.thMin) && InBin(b, b.thMax)
  {
  }

  /**
   * theta strictly between pi and 2 pi is brought back by pi; any other value is
   * used as it is. Every theta in [0, 2 pi) ends up in [0, pi].
   */
  function NormalizeTheta(theta: real): (r: real)
    ensures r == theta || r == theta - PI
    ensures r != theta <==> PI < theta < 2.0 * PI
    ensures 0.0 <= theta < 2.0 * PI ==> 0.0 <= r <= PI
  {
    if theta > PI && theta < PI * 2.0 then theta - PI else theta
  }

  /** The three mass hypotheses a charged track can be given. */
  datatype MassHypothesis = Electron | Muon | Pion

  function Abs(n: int): nat {
    if n < 0 then -n else n
  }

  /** Perfect electron and muon identification; every other charged particle is a pion. */
  function HypothesisFor(pdgCode: int): (h: MassHypothesis)
    ensures h == Electron <==> Abs(pdgCode) == 11
    ensures h == Muon <==> Abs(pdgCode) == 13
    ensures h == Pion <==> Abs(pdgCode) != 11 && Abs(pdgCode) != 13
  {
    if Abs(pdgCode) == 11 then Electron
    else if Abs(pdgCode) == 13 then Muon
    else Pion
  }

  function MassOf(h: MassHypothesis): (m: real)
    ensures m > 0.0 && m * m != 0.0
  {
    match h
    case Electron => ELECTRON_MASS
    case Muon => MUON_MASS
    case Pion => PION_MASS
  }

  /** The mass assigned to a charged particle; a particle and its antiparticle get the same one. */
  lemma ChargedMassRule(pdgCode: int)
    ensures MassOf(HypothesisFor(pdgCode)) == ELECTRON_MASS <==> Abs(pdgCode) == 11
    ensures MassOf(HypothesisFor(pdgCode)) == MUON_MASS <==> Abs(pdgCode) == 13
    ensures MassOf(HypothesisFor(pdgCode)) == PION_MASS <==> Abs(pdgCode) != 11 && Abs(pdgCode) != 13
    ensures HypothesisFor(-pdgCode) == HypothesisFor(pdgCode)
  {
  }

  /** The smeared magnitude P + deltaP, where deltaP = sigma * unitGauss and sigma = P * P * DPP. */
  function SmearedMagnitude(pMag: real, dpp: real, unitGauss: real): real {
    pMag + (pMag * pMag * dpp) * unitGauss
  }

  /** The smeared 3-momentum: the truth momentum rescaled to P + deltaP. */
  function SmearedMomentum(p: Vec3, pMag: real, dpp: real, unitGauss: real): Vec3
    requires IsMagnitude(p, pMag)
  {
    SetMag(p, pMag, SmearedMagnitude(pMag, dpp, unitGauss))
  }

  /**
   * When the particle is smeared, its 3-momentum has magnitude |P + deltaP| and
   * lies along the truth momentum (reversed when P + deltaP < 0), and its energy
   * is on shell for the assigned mass, so the result is never the zero sentinel.
   */
  lemma SmearedVectorProperties(p: Vec3, pMag: real, dpp: real, unitGauss: real, pdgCode: int)
    requires IsMagnitude(p, pMag)
    ensures var m := MassOf(HypothesisFor(pdgCode));
            InvariantMass2(SetVectM(SmearedMomentum(p, pMag, dpp, unitGauss), m)) == m * m
    ensures SetVectM(SmearedMomentum(p, pMag, dpp, unitGauss), MassOf(HypothesisFor(pdgCode))) != ZeroFourVector
    ensures var newMag := SmearedMagnitude(pMag, dpp, unitGauss);
            Mag2(SmearedMomentum(p, pMag, dpp, unitGauss)) == newMag * newMag
    ensures var newMag := SmearedMagnitude(pMag, dpp, unitGauss);
            Dot(SmearedMomentum(p, pMag, dpp, unitGauss), p) == newMag * pMag
    ensures pMag > 0.0 ==> Cross(SmearedMomentum(p, pMag, dpp, unitGauss), p) == ZeroVec3
  {
    var m := MassOf(HypothesisFor(pdgCode));
    SetVectMOnShell(SmearedMomentum(p, pMag, dpp, unitGauss), m);
    MassiveIsNotZero(SetVectM(SmearedMomentum(p, pMag, dpp, unitGauss), m));
    if pMag > 0.0 {
      SetMagGeometry(p, pMag, SmearedMagnitude(pMag, dpp, unitGauss));
    } else {
      ZeroMomentumIsKept(p, pMag, dpp, unitGauss);
    }
  }

  /** A particle at rest is not smeared: P = 0 gives deltaP = 0 and the vector is kept. */
  lemma ZeroMomentumIsKept(p: Vec3, pMag: real, dpp: real, unitGauss: real)
    requires IsMagnitude(p, pMag) && pMag == 0.0
    ensures SmearedMagnitude(pMag, dpp, unitGauss) == 0.0
    ensures SmearedMomentum(p, pMag, dpp, unitGauss) == p
    ensures Mag2(p) == 0.0 && Dot(p, p) == 0.0
  {
    assert pMag * pMag * dpp == 0.0;
    assert Dot(p, p) == Mag2(p);
  }

  /** The resolution table and smearing rule for charged tracks. */
  class LGTrackSmearer {
    const resVec: array<TrackResolution>

    /** Copies the flat resolution list, three numbers per bin, into the table. */
    constructor (flatRes: seq<real>)
      ensures resVec[..] == Bins(flatRes)
      ensures fresh(resVec)
    {
      var n := |flatRes| / 3;
      var table := new TrackResolution[n];
      var index := 0;
      for i := 0 to n
        invariant index == 3 * i
        invariant forall k :: 0 <= k < i ==> table[k] == TripleAt(flatRes, k)
      {
        var dPP := flatRes[index];
        index := index + 1;
        var thMin := flatRes[index];
        index := index + 1;
        var thMax := flatRes[index];
        index := index + 1;
        table[i] := TrackResolution(dPP, thMin, thMax);
      }
      resVec := table;
      BinsShape(flatRes);
    }

    /**
     * Smears the truth momentum `p` (magnitude `pMag`, polar angle `theta`) of a
     * particle with code `pdgCode`. `sigma` is the standard deviation asked of the
     * Gaussian generator, None when no draw is made; the zero four-vector is
     * returned exactly when the table has no usable resolution for theta.
     */
    method SmearedFourVector(p: Vec3, pMag: real, theta: real, pdgCode: int, unitGauss: real)
      returns (sv: FourVector, sigma: Option<real>)
      requires IsMagnitude(p, pMag)
      ensures var res := Resolution(resVec[..], NormalizeTheta(theta));
              res > RESOLUTION_FLOOR ==> sigma.Some? && sigma.value == pMag * pMag * res
      ensures var res := Resolution(resVec[..], NormalizeTheta(theta));
              res > RESOLUTION_FLOOR ==>
                sv == SetVectM(SmearedMomentum(p, pMag, res, unitGauss), MassOf(HypothesisFor(pdgCode)))
      ensures Resolution(resVec[..], NormalizeTheta(theta)) <= RESOLUTION_FLOOR ==>
                sigma == None && sv == ZeroFourVector
      ensures sigma.None? <==> sv == ZeroFourVector
    {
      var th := theta;
      if th > PI && th < PI * 2.0 {
        th := th - PI;
      }

      var resolution := NO_RESOLUTION;
      ghost var matched := false;
      var i := 0;
      while i < resVec.Length
        invariant 0 <= i <= resVec.Length
        invariant forall j :: 0 <= j < i ==> !InBin(resVec[j], th)
        invariant resolution == NO_RESOLUTION && !matched
      {
        if th <= resVec[i].thMax && th > resVec[i].thMin {
          resolution := resVec[i].dpp;
          matched := true;
          break;
        }
        i := i + 1;
      }
      if matched {
        ResolutionOfFirstMatch(resVec[..], th, i);
      } else {
        ResolutionWithoutMatch(resVec[..], th);
      }
      assert resolution == Resolution(resVec[..], NormalizeTheta(theta));

      sv := ZeroFourVector;
      sigma := None;
      if resolution > RESOLUTION_FLOOR {
        var P := pMag;
        var width := P * P * resolution;
        var deltaP := width * unitGauss;
        var n3v := SetMag(p, P, P + deltaP);
        var mass := PION_MASS;
        if Abs(pdgCode) == 11 {
          mass := ELECTRON_MASS;
        } else if Abs(pdgCode) == 13 {
          mass := MUON_MASS;
        }
        sv := SetVectM(n3v, mass);
        sigma := Some(width);
        assert P + deltaP == SmearedMagnitude(pMag, resolution, unitGauss);
        assert mass == MassOf(HypothesisFor(pdgCode));
        SetVectMOnShell(n3v, mass);
        MassiveIsNotZero(sv);
      }
    }
  }
}
