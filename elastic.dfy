/**
 * The elastic-constant stage of cal/emto-cpa.py: the grid of distortions
 * run at the accepted radius, the volume-conserving distortion matrices and the
 * k-point meshes per distortion kind. Floats are idealised as reals.
 */
module ElasticStage {

  /** The two cubic distortions; the third elastic constant comes from the bulk modulus. */
  datatype Distortion = Cprime | C44

  const Distortions: seq<Distortion> := [Cprime, C44]

  /** numpy.linspace(start, stop, num) with the endpoint, in exact arithmetic. */
  function Linspace(start: real, stop: real, num: nat): (r: seq<real>)
    requires num >= 2
    ensures |r| == num && r[0] == start
    ensures forall i :: 0 <= i < num - 1 ==> r[i + 1] - r[i] == (stop - start) / (num - 1) as real
  {
    seq(num, i requires 0 <= i < num => start + i as real * ((stop - start) / (num - 1) as real))
  }

  /**
   * The distortion amplitudes: six evenly spaced values on [0, 0.05], the
   * first replaced by 0.001 so that no distortion is the identity.
   */
  function Deltas(): (ds: seq<real>)
    ensures |ds| == 6 && ds[0] == 0.001
    ensures forall k :: 1 <= k < 6 ==> ds[k] == k as real * 0.01
  {
    Linspace(0.0, 0.05, 6)[0 := 0.001]
  }

  /** The amplitudes are 0.001, 0.01 .. 0.05: positive, increasing and at most 0.05. */
  lemma DeltasShape()
    ensures Deltas() == [0.001, 0.01, 0.02, 0.03, 0.04, 0.05]
    ensures forall i, j :: 0 <= i < j < 6 ==> 0.0 < Deltas()[i] < Deltas()[j] <= 0.05
  {
    var ds := Deltas();
    assert ds[1] == 0.01 && ds[2] == 0.02 && ds[3] == 0.03 && ds[4] == 0.04 && ds[5] == 0.05;
  }

  /**
   * The jobs of the stage, in the order the nested loops create them: every
   * amplitude of the first distortion, then every amplitude of the second.
   */
  function Grid(): (g: seq<(Distortion, real)>)
    ensures |g| == |Distortions| * |Deltas()| == 12
    ensures forall j :: 0 <= j < |Deltas()| ==> g[j] == (Cprime, Deltas()[j]) && g[|Deltas()| + j] == (C44, Deltas()[j])
  {
    var ds := Deltas();
    seq(|ds|, j requires 0 <= j < |ds| => (Cprime, ds[j])) + seq(|ds|, j requires 0 <= j < |ds| => (C44, ds[j]))
  }

  /** Job `p` of the grid: the C' jobs first, then the C44 jobs, each over the amplitudes in order. */
  lemma GridAt(p: nat)
    requires p < 12
    ensures |Grid()| == 12
    ensures p < 6 ==> Grid()[p] == (Cprime, Deltas()[p])
    ensures 6 <= p ==> Grid()[p] == (C44, Deltas()[p - 6])
  {
    if 6 <= p {
      assert Grid()[6 + (p - 6)] == (C44, Deltas()[p - 6]);
    }
  }

  lemma DeltaInRange(j: nat)
    requires j < 6
    ensures 0.0 < Deltas()[j] <= 0.05
  {
    DeltasShape();
  }

  /** Amplitudes in (0, 0.05] keep 1 - delta^2 away from zero and the matrix away from the identity. */
  lemma SmallAmplitude(d: real)
    requires 0.0 < d <= 0.05
    ensures Admissible(d) && d != 0.0
  {
    assert d * d <= 0.05 * d;
  }

  /** The twelve jobs are pairwise distinct. */
  lemma GridDistinct()
    ensures |Grid()| == 12
    ensures forall p, q :: 0 <= p < q < |Grid()| ==> Grid()[p] != Grid()[q]
  {
    var g := Grid();
    GridAt(0);
    DeltasShape();
    forall p, q | 0 <= p < q < |g|
      ensures g[p] != g[q]
    {
      GridAt(p);
      GridAt(q);
      if q < 6 || 6 <= p {
        var i, j := if q < 6 then p else p - 6, if q < 6 then q else q - 6;
        assert Deltas()[i] < Deltas()[j];
      }
    }
  }

  /** A 3x3 matrix, row by row. */
  datatype Mat3 = Mat3(m11: real, m12: real, m13: real,
                       m21: real, m22: real, m23: real,
                       m31: real, m32: real, m33: real)

  const Identity: Mat3 := Mat3(1.0, 0.0, 0.0, 0.0, 1.0, 0.0, 0.0, 0.0, 1.0)

  function Det(m: Mat3): real {
    m.m11 * (m.m22 * m.m33 - m.m23 * m.m32)
    - m.m12 * (m.m21 * m.m33 - m.m23 * m.m31)
    + m.m13 * (m.m21 * m.m32 - m.m22 * m.m31)
  }

  predicate IsSymmetric(m: Mat3) {
    m.m12 == m.m21 && m.m13 == m.m31 && m.m23 == m.m32
  }

  predicate IsDiagonal(m: Mat3) {
    m.m12 == 0.0 && m.m13 == 0.0 && m.m21 == 0.0 && m.m23 == 0.0 && m.m31 == 0.0 && m.m32 == 0.0
  }

  /**
   * The distortion matrix for an amplitude. Both kinds keep the volume (the
   * determinant is one), are symmetric and leave the third axis free of
   * shear; C' stretches x and compresses y, C44 shears the x-y plane by the
   * amplitude. The source divides by 1 - delta^2, so delta = +-1 is outside
   * the domain.
   */
  /** 1 - delta^2 is not zero, so the matrix is defined. */
  predicate Admissible(delta: real) {
    delta * delta != 1.0
  }

  function DistortionMatrix(kind: Distortion, delta: real): (m: Mat3)
    requires Admissible(delta)
    ensures Det(m) == 1.0
    ensures IsSymmetric(m) && m.m13 == 0.0 && m.m23 == 0.0
    ensures m.m33 * (1.0 - delta * delta) == 1.0
    ensures kind == Cprime ==> IsDiagonal(m) && m.m11 == 1.0 + delta && m.m22 == 1.0 - delta
    ensures kind == C44 ==> m.m11 == 1.0 && m.m22 == 1.0 && m.m12 == delta
    ensures m == Identity <==> delta == 0.0
  {
    var z := 1.0 / (1.0 - delta * delta);
    match kind
    case Cprime => Mat3(1.0 + delta, 0.0, 0.0, 0.0, 1.0 - delta, 0.0, 0.0, 0.0, z)
    case C44 => Mat3(1.0, delta, 0.0, delta, 1.0, 0.0, 0.0, 0.0, z)
  }

  lemma NotIdentity(kind: Distortion, d: real)
    requires Admissible(d) && d != 0.0
    ensures DistortionMatrix(kind, d) != Identity
  {
  }

  /** No job of the grid runs on the undistorted cell. */
  lemma GridNeverIdentity()
    ensures forall p :: 0 <= p < |Grid()| ==>
      Admissible(Grid()[p].1) && DistortionMatrix(Grid()[p].0, Grid()[p].1) != Identity
  {
    GridAt(0);
    forall p | 0 <= p < |Grid()|
      ensures Admissible(Grid()[p].1)
      ensures DistortionMatrix(Grid()[p].0, Grid()[p].1) != Identity
    {
      GridAt(p);
      DeltaInRange(if p < 6 then p else p - 6);
      var job := Grid()[p];
      SmallAmplitude(job.1);
      NotIdentity(job.0, job.1);
    }
  }

  /** The k-point mesh of a distortion kind: 41x41x41 for C', 40x40x45 for C44. */
  datatype KMesh = KMesh(nkx: nat, nky: nat, nkz: nat)

  function MeshFor(kind: Distortion): (k: KMesh)
    ensures kind == Cprime ==> k.nkx == k.nky == k.nkz
    ensures kind == C44 ==> k.nkx == k.nky && k.nkz > k.nkx
    ensures kind == Cprime ==> k == KMesh(41, 41, 41)
    ensures kind == C44 ==> k == KMesh(40, 40, 45)
  {
    match kind
    case Cprime => KMesh(41, 41, 41)
    case C44 => KMesh(40, 40, 45)
  }
}
