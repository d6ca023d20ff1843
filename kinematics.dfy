/**
 * The vector arithmetic the smearer relies on, specified over the reals:
 * 3-vectors, rescaling to a new magnitude (setMag) and building an on-shell
 * four-vector from a 3-momentum and a mass (setVectM).
 *
 * Dafny's reals have no square root, so a four-vector carries its energy
 * squared; the energy itself is the non-negative root of `energySq`.
 */
module Kinematics {

  datatype Vec3 = Vec3(x: real, y: real, z: real)

  /** Squared Euclidean magnitude. */
  function Mag2(v: Vec3): real {
    v.x * v.x + v.y * v.y + v.z * v.z
  }

  function Dot(u: Vec3, v: Vec3): real {
    u.x * v.x + u.y * v.y + u.z * v.z
  }

  function Cross(u: Vec3, v: Vec3): Vec3 {
    Vec3(u.y * v.z - u.z * v.y, u.z * v.x - u.x * v.z, u.x * v.y - u.y * v.x)
  }

  function Scale(v: Vec3, k: real): Vec3 {
    Vec3(k * v.x, k * v.y, k * v.z)
  }

  const ZeroVec3: Vec3 := Vec3(0.0, 0.0, 0.0)

  /** A magnitude is what it says only when it is the non-negative root of Mag2. */
  predicate IsMagnitude(v: Vec3, mag: real) {
    mag >= 0.0 && mag * mag == Mag2(v)
  }

  lemma ScaleMag2(v: Vec3, k: real)
    ensures Mag2(Scale(v, k)) == k * k * Mag2(v)
  {
    calc {
      Mag2(Scale(v, k));
      (k * v.x) * (k * v.x) + (k * v.y) * (k * v.y) + (k * v.z) * (k * v.z);
      (k * k) * (v.x * v.x) + (k * k) * (v.y * v.y) + (k * k) * (v.z * v.z);
      k * k * Mag2(v);
    }
  }

  /**
   * setMag: the vector rescaled to magnitude `newMag`. A zero vector cannot be
   * stretched and is returned unchanged.
   */
  function SetMag(v: Vec3, mag: real, newMag: real): (r: Vec3)
    requires IsMagnitude(v, mag)
    ensures mag == 0.0 ==> r == v
  {
    if mag == 0.0 then v else Scale(v, newMag / mag)
  }

  /**
   * A stretched vector has magnitude |newMag| and stays on the line of the
   * original: along it when newMag > 0, reversed when newMag < 0 (nothing
   * clamps a negative magnitude).
   */
  lemma SetMagGeometry(v: Vec3, mag: real, newMag: real)
    requires IsMagnitude(v, mag) && mag != 0.0
    ensures Mag2(SetMag(v, mag, newMag)) == newMag * newMag
    ensures Cross(SetMag(v, mag, newMag), v) == ZeroVec3
    ensures Dot(SetMag(v, mag, newMag), v) == newMag * mag
  {
    var k := newMag / mag;
    ScaleMag2(v, k);
    assert k * mag == newMag;
    assert k * k * Mag2(v) == (k * mag) * (k * mag);
    assert Dot(Scale(v, k), v) == k * Mag2(v);
  }

  /**
   * A four-vector: 3-momentum `p` and the square of the energy. The energy is
   * the non-negative square root of `energySq`.
   */
  datatype FourVector = FourVector(p: Vec3, energySq: real)

  const ZeroFourVector: FourVector := FourVector(ZeroVec3, 0.0)

  /** Squared invariant mass E^2 - |p|^2. */
  function InvariantMass2(v: FourVector): real {
    v.energySq - Mag2(v.p)
  }

  /** setVectM: the four-vector with 3-momentum `p` that is on shell for `mass`. */
  function SetVectM(p: Vec3, mass: real): (r: FourVector)
    ensures r.p == p
  {
    FourVector(p, Mag2(p) + mass * mass)
  }

  /** The four-vector setVectM builds has invariant mass `mass`. */
  lemma SetVectMOnShell(p: Vec3, mass: real)
    ensures InvariantMass2(SetVectM(p, mass)) == mass * mass
  {
  }

  /** A four-vector with a non-zero invariant mass is not the zero four-vector. */
  lemma MassiveIsNotZero(v: FourVector)
    requires InvariantMass2(v) != 0.0
    ensures v != ZeroFourVector
  {
  }
}
