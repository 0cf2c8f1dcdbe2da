/** Three-dimensional interfaces: each component works in its own frame, waves travel in
    the global one. */
module Frames {
  import opened WaveEnergy

  datatype Vector = Vector(x: real, y: real, z: real)

  /** A matrix by its rows. */
  datatype Matrix = Matrix(r0: Vector, r1: Vector, r2: Vector)

  function Dot(u: Vector, v: Vector): real {
    u.x * v.x + u.y * v.y + u.z * v.z
  }

  function Transpose(a: Matrix): Matrix {
    Matrix(Vector(a.r0.x, a.r1.x, a.r2.x), Vector(a.r0.y, a.r1.y, a.r2.y), Vector(a.r0.z, a.r1.z, a.r2.z))
  }

  function MatrixVector(a: Matrix, v: Vector): Vector {
    Vector(Dot(a.r0, v), Dot(a.r1, v), Dot(a.r2, v))
  }

  function VectorMatrix(v: Vector, a: Matrix): Vector {
    MatrixVector(Transpose(a), v)
  }

  function Row(a: Matrix, i: nat): Vector
    requires i < 3
  {
    if i == 0 then a.r0 else if i == 1 then a.r1 else a.r2
  }

  /** The rows have length one and are at right angles. */
  ghost predicate Orthonormal(a: Matrix) {
    forall i, j :: 0 <= i < 3 && 0 <= j < 3 ==> Dot(Row(a, i), Row(a, j)) == if i == j then 1.0 else 0.0
  }

  /** A rotation of the frame, possibly with a reflection: rows and columns are orthonormal. */
  ghost predicate Orthogonal(a: Matrix) {
    Orthonormal(a) && Orthonormal(Transpose(a))
  }

  /** The conditions on rows one by one. */
  lemma RowProducts(a: Matrix)
    ensures Orthonormal(a) <==>
      && Dot(a.r0, a.r0) == 1.0 && Dot(a.r1, a.r1) == 1.0 && Dot(a.r2, a.r2) == 1.0
      && Dot(a.r0, a.r1) == 0.0 && Dot(a.r0, a.r2) == 0.0 && Dot(a.r1, a.r2) == 0.0
  {
    Symmetric(a.r0, a.r1);
    Symmetric(a.r0, a.r2);
    Symmetric(a.r1, a.r2);
    assert Row(a, 0) == a.r0 && Row(a, 1) == a.r1 && Row(a, 2) == a.r2;
  }

  /** Moving a matrix from one side of a product to the other. */
  lemma Adjoint(a: Matrix, u: Vector, v: Vector)
    ensures Dot(u, MatrixVector(a, v)) == Dot(MatrixVector(Transpose(a), u), v)
  {
    Swap(u.x, a.r0, u.y, a.r1, u.z, a.r2, v);
  }

  lemma Swap(p: real, a: Vector, q: real, b: Vector, r: real, c: Vector, v: Vector)
    ensures p * Dot(a, v) + q * Dot(b, v) + r * Dot(c, v)
         == (a.x * p + b.x * q + c.x * r) * v.x + (a.y * p + b.y * q + c.y * r) * v.y
          + (a.z * p + b.z * q + c.z * r) * v.z
  {
  }

  lemma Symmetric(u: Vector, v: Vector)
    ensures Dot(u, v) == Dot(v, u)
  {
  }

  /** A combination of three products of which one is one and the others are zero. */
  lemma PickOne(p: real, d: real, q: real, e: real, r: real, f: real)
    ensures d == 1.0 && e == 0.0 && f == 0.0 ==> d * p + e * q + f * r == p
    ensures d == 0.0 && e == 1.0 && f == 0.0 ==> d * p + e * q + f * r == q
    ensures d == 0.0 && e == 0.0 && f == 1.0 ==> d * p + e * q + f * r == r
  {
  }

  /** The product of row `u` of a matrix with the transposed image of `v`. */
  lemma RowOfImage(a: Matrix, u: Vector, v: Vector)
    ensures Dot(u, MatrixVector(Transpose(a), v)) == Dot(a.r0, u) * v.x + Dot(a.r1, u) * v.y + Dot(a.r2, u) * v.z
  {
    Adjoint(Transpose(a), u, v);
    assert Transpose(Transpose(a)) == a;
  }

  /** An orthonormal matrix is undone by its transpose. */
  lemma Undo(a: Matrix, v: Vector)
    requires Orthonormal(a)
    ensures MatrixVector(a, MatrixVector(Transpose(a), v)) == v
  {
    RowProducts(a);
    RowOfImage(a, a.r0, v);
    RowOfImage(a, a.r1, v);
    RowOfImage(a, a.r2, v);
    Symmetric(a.r0, a.r1);
    Symmetric(a.r0, a.r2);
    Symmetric(a.r1, a.r2);
    PickOne(v.x, Dot(a.r0, a.r0), v.y, Dot(a.r1, a.r0), v.z, Dot(a.r2, a.r0));
    PickOne(v.x, Dot(a.r0, a.r1), v.y, Dot(a.r1, a.r1), v.z, Dot(a.r2, a.r1));
    PickOne(v.x, Dot(a.r0, a.r2), v.y, Dot(a.r1, a.r2), v.z, Dot(a.r2, a.r2));
  }

  /** Going to the local frame and back, or to the global one and back, changes nothing. */
  lemma TransformRoundTrip(a: Matrix, v: Vector)
    requires Orthogonal(a)
    ensures MatrixVector(a, VectorMatrix(v, a)) == v
    ensures VectorMatrix(MatrixVector(a, v), a) == v
  {
    Undo(a, v);
    Undo(Transpose(a), v);
    assert Transpose(Transpose(a)) == a;
  }

  /** Lengths do not depend on the frame. */
  lemma LengthKept(a: Matrix, v: Vector)
    requires Orthogonal(a)
    ensures Dot(MatrixVector(a, v), MatrixVector(a, v)) == Dot(v, v)
    ensures Dot(VectorMatrix(v, a), VectorMatrix(v, a)) == Dot(v, v)
  {
    TransformRoundTrip(a, v);
    Adjoint(a, MatrixVector(a, v), v);
    Adjoint(Transpose(a), VectorMatrix(v, a), v);
    assert Transpose(Transpose(a)) == a;
  }

  /** A matrix times a unit vector is a column, a unit vector times a matrix is a row. */
  lemma UnitVectors(a: Matrix)
    ensures MatrixVector(a, Vector(1.0, 0.0, 0.0)) == Vector(a.r0.x, a.r1.x, a.r2.x)
    ensures MatrixVector(a, Vector(0.0, 1.0, 0.0)) == Vector(a.r0.y, a.r1.y, a.r2.y)
    ensures MatrixVector(a, Vector(0.0, 0.0, 1.0)) == Vector(a.r0.z, a.r1.z, a.r2.z)
    ensures VectorMatrix(Vector(1.0, 0.0, 0.0), a) == a.r0
    ensures VectorMatrix(Vector(0.0, 1.0, 0.0), a) == a.r1
    ensures VectorMatrix(Vector(0.0, 0.0, 1.0), a) == a.r2
  {
  }

  // ---- scattering at a three-dimensional interface ----

  function Scale(k: real, v: Vector): Vector {
    Vector(k * v.x, k * v.y, k * v.z)
  }

  function Minus(u: Vector, v: Vector): Vector {
    Vector(u.x - v.x, u.y - v.y, u.z - v.z)
  }

  function Plus(u: Vector, v: Vector): Vector {
    Vector(u.x + v.x, u.y + v.y, u.z + v.z)
  }

  /** A linear and an angular part: force and moment, or velocity and angular velocity. */
  datatype Pair = Pair(linear: Vector, angular: Vector)

  /** Impedances for translation and rotation, and the component's place in the global frame.
      The code takes any nine numbers for the frame. */
  datatype Params3D = Params3D(zf: real, zfr: real, origin: Vector, frame: Matrix)

  /** The reaction at an interface: the wave in the local frame minus impedance times motion. */
  function Reaction(p: Params3D, globalWave: Pair, motion: Pair): Pair {
    Pair(Minus(MatrixVector(p.frame, globalWave.linear), Scale(p.zf, motion.linear)),
         Minus(MatrixVector(p.frame, globalWave.angular), Scale(p.zfr, motion.angular)))
  }

  /** The wave to send, still in the local frame. */
  function LocalWave(p: Params3D, reaction: Pair, motion: Pair): Pair {
    Pair(Minus(Scale(p.zf, motion.linear), reaction.linear),
         Minus(Scale(p.zfr, motion.angular), reaction.angular))
  }

  /** The same wave in the global frame. */
  function GlobalWave(p: Params3D, local: Pair): Pair {
    Pair(VectorMatrix(local.linear, p.frame), VectorMatrix(local.angular, p.frame))
  }

  /** What an interface sends in answer to a wave. */
  function Reflected(p: Params3D, wave: Pair, motion: Pair): Pair {
    GlobalWave(p, LocalWave(p, Reaction(p, wave, motion), motion))
  }

  /** Force times velocity plus moment times angular velocity. */
  function Power(p: Params3D, wave: Pair, motion: Pair): real {
    Dot(Reaction(p, wave, motion).linear, motion.linear) + Dot(Reaction(p, wave, motion).angular, motion.angular)
  }

  /** Squared wave lengths over four times their impedances. */
  function Energy(p: Params3D, wave: Pair): real
    requires p.zf > 0.0 && p.zfr > 0.0
  {
    Dot(wave.linear, wave.linear) / (4.0 * p.zf) + Dot(wave.angular, wave.angular) / (4.0 * p.zfr)
  }

  lemma ComponentLoss(c: real, z: real, v: real)
    ensures c * c - (z * v - (c - z * v)) * (z * v - (c - z * v)) == 4.0 * z * ((c - z * v) * v)
  {
    ScatteringAlgebra(-c, z * v);
  }

  lemma LocalLoss(c: Vector, z: real, v: Vector)
    ensures
      var f := Minus(c, Scale(z, v));
      var w := Minus(Scale(z, v), f);
      Dot(c, c) - Dot(w, w) == 4.0 * z * Dot(f, v)
  {
    ComponentLoss(c.x, z, v.x);
    ComponentLoss(c.y, z, v.y);
    ComponentLoss(c.z, z, v.z);
    var f := Minus(c, Scale(z, v));
    assert 4.0 * z * (f.x * v.x) + 4.0 * z * (f.y * v.y) + 4.0 * z * (f.z * v.z) == 4.0 * z * Dot(f, v);
  }

  lemma LossInFrame(a: Matrix, c: Vector, z: real, v: Vector)
    requires z > 0.0 && Orthogonal(a)
    ensures
      var f := Minus(MatrixVector(a, c), Scale(z, v));
      var w := VectorMatrix(Minus(Scale(z, v), f), a);
      Dot(f, v) == Dot(c, c) / (4.0 * z) - Dot(w, w) / (4.0 * z)
  {
    var f := Minus(MatrixVector(a, c), Scale(z, v));
    var l := Minus(Scale(z, v), f);
    LocalLoss(MatrixVector(a, c), z, v);
    LengthKept(a, c);
    LengthKept(a, l);
    Divide(Dot(f, v), Dot(c, c), Dot(VectorMatrix(l, a), VectorMatrix(l, a)), 4.0 * z, false);
  }

  /** The work done at an interface is the drop of the energy of the global waves, for
      every orthogonal frame the component may work in. */
  lemma Scattering3D(p: Params3D, wave: Pair, motion: Pair)
    requires p.zf > 0.0 && p.zfr > 0.0 && Orthogonal(p.frame)
    ensures Power(p, wave, motion) == Energy(p, wave) - Energy(p, Reflected(p, wave, motion))
  {
    LossInFrame(p.frame, wave.linear, p.zf, motion.linear);
    LossInFrame(p.frame, wave.angular, p.zfr, motion.angular);
  }

  /** The reaction is what the wave, seen in the component's frame, leaves when the impedances
      have taken their share of the motion. */
  lemma ReactionActs(p: Params3D, wave: Pair, motion: Pair)
    ensures Plus(Reaction(p, wave, motion).linear, Scale(p.zf, motion.linear)) == MatrixVector(p.frame, wave.linear)
    ensures Plus(Reaction(p, wave, motion).angular, Scale(p.zfr, motion.angular))
         == MatrixVector(p.frame, wave.angular)
  {
    TakenAndAdded(MatrixVector(p.frame, wave.linear), Scale(p.zf, motion.linear));
    TakenAndAdded(MatrixVector(p.frame, wave.angular), Scale(p.zfr, motion.angular));
  }

  lemma TakenAndAdded(u: Vector, v: Vector)
    ensures Plus(Minus(u, v), v) == u
  {
  }

  /** What a component sends, seen in its own frame, and its reaction together are the impedances
      times the motion: the wave sent has the sign of that balance. */
  lemma SentAndReaction(p: Params3D, wave: Pair, motion: Pair)
    requires Orthogonal(p.frame)
    ensures
      var sent, reaction := Reflected(p, wave, motion), Reaction(p, wave, motion);
      && Plus(MatrixVector(p.frame, sent.linear), reaction.linear) == Scale(p.zf, motion.linear)
      && Plus(MatrixVector(p.frame, sent.angular), reaction.angular) == Scale(p.zfr, motion.angular)
  {
    var reaction := Reaction(p, wave, motion);
    var local := LocalWave(p, reaction, motion);
    TransformRoundTrip(p.frame, local.linear);
    TransformRoundTrip(p.frame, local.angular);
    TakenAndAdded(Scale(p.zf, motion.linear), reaction.linear);
    TakenAndAdded(Scale(p.zfr, motion.angular), reaction.angular);
  }

  /** An end reflects the wave its peer sent `n` steps before. */
  ghost predicate Hears(p: Params3D, n: nat, sent: seq<Pair>, peer: seq<Pair>, motion: seq<Pair>) {
    |sent| == |motion| && forall k :: n <= k < |sent| ==> HearsAt(p, n, sent, peer, motion, k)
  }

  ghost predicate HearsAt(p: Params3D, n: nat, sent: seq<Pair>, peer: seq<Pair>, motion: seq<Pair>, k: nat)
    requires n <= k < |sent| == |motion|
  {
    k - n < |peer| && sent[k] == Reflected(p, peer[k - n], motion[k])
  }

  /** Two components with frames of their own exchange waves over `n` steps of delay. */
  ghost predicate Exchange(pa: Params3D, pb: Params3D, n: nat, sentA: seq<Pair>, sentB: seq<Pair>,
                           motionA: seq<Pair>, motionB: seq<Pair>)
  {
    Hears(pa, n, sentA, sentB, motionA) && Hears(pb, n, sentB, sentA, motionB)
  }

  /** The power at each step from the wave that arrives then; none in the first `n` steps. */
  function PowersOf(p: Params3D, n: nat, received: seq<Pair>, motion: seq<Pair>): seq<real> {
    seq(|motion|, k requires 0 <= k < |motion| =>
      if n <= k && k - n < |received| then Power(p, received[k - n], motion[k]) else 0.0)
  }

  function EnergiesOf(p: Params3D, sent: seq<Pair>): seq<real>
    requires p.zf > 0.0 && p.zfr > 0.0
  {
    seq(|sent|, k requires 0 <= k < |sent| => Energy(p, sent[k]))
  }

  /** Over any window of steps the work of both components is the change of the energy in
      flight, although each of them measures force and motion in its own frame. */
  lemma EnergyConservation3D(pa: Params3D, pb: Params3D, n: nat, sentA: seq<Pair>, sentB: seq<Pair>,
                             motionA: seq<Pair>, motionB: seq<Pair>, lo: nat, hi: nat)
    requires pa.zf > 0.0 && pa.zfr > 0.0 && Orthogonal(pa.frame)
    requires pb.zf == pa.zf && pb.zfr == pa.zfr && Orthogonal(pb.frame)
    requires Exchange(pa, pb, n, sentA, sentB, motionA, motionB)
    requires 0 < n <= lo <= hi <= |sentA| && hi <= |sentB|
    ensures Sum(PowersOf(pa, n, sentB, motionA), lo, hi) + Sum(PowersOf(pb, n, sentA, motionB), lo, hi)
         == InFlight(EnergiesOf(pa, sentA), EnergiesOf(pb, sentB), n, lo)
          - InFlight(EnergiesOf(pa, sentA), EnergiesOf(pb, sentB), n, hi)
  {
    var wa, wb := PowersOf(pa, n, sentB, motionA), PowersOf(pb, n, sentA, motionB);
    var ea, eb := EnergiesOf(pa, sentA), EnergiesOf(pb, sentB);
    forall k | lo <= k < hi
      ensures wa[k] + wb[k] == ea[k - n] + eb[k - n] - ea[k] - eb[k]
    {
      assert HearsAt(pa, n, sentA, sentB, motionA, k) && HearsAt(pb, n, sentB, sentA, motionB, k);
      Scattering3D(pa, sentB[k - n], motionA[k]);
      Scattering3D(pb, sentA[k - n], motionB[k]);
    }
    Ledger(wa, wb, ea, eb, n, lo, hi);
  }

  // ---- the transformations in place ----

  function AsVector(s: seq<real>): Vector
    requires |s| == 3
  {
    Vector(s[0], s[1], s[2])
  }

  /** Nine numbers, row by row. */
  function AsMatrix(s: seq<real>): Matrix
    requires |s| == 9
  {
    Matrix(AsVector(s[0..3]), AsVector(s[3..6]), AsVector(s[6..9]))
  }

  lemma RowsOfNine(s: seq<real>)
    requires |s| == 9
    ensures AsMatrix(s).r0 == Vector(s[0], s[1], s[2]) && AsMatrix(s).r1 == Vector(s[3], s[4], s[5])
    ensures AsMatrix(s).r2 == Vector(s[6], s[7], s[8])
  {
  }

  method TransformMV(a: array<real>, v: array<real>)
    requires a.Length == 9 && v.Length == 3
    modifies v
    ensures AsVector(v[..]) == MatrixVector(AsMatrix(a[..]), AsVector(old(v[..])))
  {
    var xx := a[0] * v[0];
    xx := xx + a[1] * v[1];
    xx := xx + a[2] * v[2];
    var yy := a[3] * v[0];
    yy := yy + a[4] * v[1];
    yy := yy + a[5] * v[2];
    var zz := a[6] * v[0];
    zz := zz + a[7] * v[1];
    zz := zz + a[8] * v[2];
    v[0] := xx;
    v[1] := yy;
    v[2] := zz;
  }

  method TransformVM(v: array<real>, a: array<real>)
    requires a.Length == 9 && v.Length == 3
    modifies v
    ensures AsVector(v[..]) == VectorMatrix(AsVector(old(v[..])), AsMatrix(a[..]))
  {
    Turned(AsVector(v[..]), AsMatrix(a[..]));
    var xx := v[0] * a[0];
    xx := xx + v[1] * a[3];
    xx := xx + v[2] * a[6];
    var yy := v[0] * a[1];
    yy := yy + v[1] * a[4];
    yy := yy + v[2] * a[7];
    var zz := v[0] * a[2];
    zz := zz + v[1] * a[5];
    zz := zz + v[2] * a[8];
    v[0] := xx;
    v[1] := yy;
    v[2] := zz;
  }

  /** The wave that acts, or none when nothing has been received yet. */
  datatype Acting = NoWave | Wave(wave: Pair)

  function AsPair(s: seq<real>): Pair
    requires |s| == 6
  {
    Pair(AsVector(s[0..3]), AsVector(s[3..6]))
  }

  /** Fills in six numbers of force and moment, or leaves the start values in place. */
  method GetForce3D(p: Params3D, frame: array<real>, speed: seq<real>, angSpeed: seq<real>, data: Acting,
                    force: array<real>)
    requires frame.Length == 9 && AsMatrix(frame[..]) == p.frame
    requires |speed| == 3 && |angSpeed| == 3 && force.Length == 6 && force != frame
    modifies force
    ensures data.NoWave? ==> force[..] == old(force[..])
    ensures data.Wave? ==> AsPair(force[..]) == Reaction(p, data.wave, Pair(AsVector(speed), AsVector(angSpeed)))
  {
    match data
    case NoWave =>
    case Wave(w) =>
      var f := LocalPart(p, frame, w.linear);
      var m := LocalPart(p, frame, w.angular);
      SubtractImpedance(p, f[..], m[..], speed, angSpeed, force);
  }

  /** One part of the wave, copied and transformed in place to the local frame. */
  method LocalPart(p: Params3D, frame: array<real>, part: Vector) returns (v: array<real>)
    requires frame.Length == 9 && AsMatrix(frame[..]) == p.frame
    ensures fresh(v) && v.Length == 3 && AsVector(v[..]) == MatrixVector(p.frame, part)
  {
    v := new real[3] [part.x, part.y, part.z];
    assert AsVector(v[..]) == part;
    TransformMV(frame, v);
  }

  /** One number of the reaction: wave minus impedance times speed. */
  function Reduced(c: real, z: real, v: real): real {
    c - z * v
  }

  lemma ReducedPart(z: real, f: seq<real>, v: seq<real>, r: seq<real>)
    requires |f| == |v| == 3 && r == [Reduced(f[0], z, v[0]), Reduced(f[1], z, v[1]), Reduced(f[2], z, v[2])]
    ensures AsVector(r) == Minus(AsVector(f), Scale(z, AsVector(v)))
  {
  }

  lemma AssembleReaction(p: Params3D, f: seq<real>, m: seq<real>, speed: seq<real>, angSpeed: seq<real>,
                         force: seq<real>)
    requires |f| == |m| == |speed| == |angSpeed| == 3 && |force| == 6
    requires force == [Reduced(f[0], p.zf, speed[0]), Reduced(f[1], p.zf, speed[1]), Reduced(f[2], p.zf, speed[2]),
                       Reduced(m[0], p.zfr, angSpeed[0]), Reduced(m[1], p.zfr, angSpeed[1]),
                       Reduced(m[2], p.zfr, angSpeed[2])]
    ensures AsPair(force) == Pair(Minus(AsVector(f), Scale(p.zf, AsVector(speed))),
                                  Minus(AsVector(m), Scale(p.zfr, AsVector(angSpeed))))
  {
    assert force[0..3] == [force[0], force[1], force[2]] && force[3..6] == [force[3], force[4], force[5]];
    ReducedPart(p.zf, f, speed, force[0..3]);
    ReducedPart(p.zfr, m, angSpeed, force[3..6]);
  }

  method SubtractImpedance(p: Params3D, f: seq<real>, m: seq<real>, speed: seq<real>, angSpeed: seq<real>,
                           force: array<real>)
    requires |f| == |m| == |speed| == |angSpeed| == 3 && force.Length == 6
    modifies force
    ensures AsPair(force[..]) == Pair(Minus(AsVector(f), Scale(p.zf, AsVector(speed))),
                                      Minus(AsVector(m), Scale(p.zfr, AsVector(angSpeed))))
  {
    ghost var want := [Reduced(f[0], p.zf, speed[0]), Reduced(f[1], p.zf, speed[1]), Reduced(f[2], p.zf, speed[2]),
                       Reduced(m[0], p.zfr, angSpeed[0]), Reduced(m[1], p.zfr, angSpeed[1]),
                       Reduced(m[2], p.zfr, angSpeed[2])];
    var i := 0;
    while i < 3
      invariant i <= 3
      invariant i > 0 ==> force[0] == want[0] && force[3] == want[3]
      invariant i > 1 ==> force[1] == want[1] && force[4] == want[4]
      invariant i > 2 ==> force[2] == want[2] && force[5] == want[5]
    {
      force[i] := Reduced(f[i], p.zf, speed[i]);
      force[i + 3] := Reduced(m[i], p.zfr, angSpeed[i]);
      i := i + 1;
    }
    assert force[..] == want;
    AssembleReaction(p, f, m, speed, angSpeed, force[..]);
  }

  /** A sample as stored by a component (in its own frame) or as sent (in the global one). */
  datatype Sample3D = Sample3D(time: real, position: Vector, rotation: Matrix, velocity: Pair, wave: Pair)

  function Product(a: Matrix, b: Matrix): Matrix {
    Matrix(VectorMatrix(a.r0, b), VectorMatrix(a.r1, b), VectorMatrix(a.r2, b))
  }

  function ToGlobal(p: Params3D, d: Sample3D): Sample3D {
    d.(position := Plus(p.origin, VectorMatrix(d.position, p.frame)),
       rotation := Product(d.rotation, p.frame),
       velocity := GlobalWave(p, d.velocity),
       wave := GlobalWave(p, d.wave))
  }

  /** Seen from the component again, the sample `g` is the sample `d`: the same wave and velocity,
      and the place counted from the component's origin. */
  ghost predicate LooksLike(p: Params3D, g: Sample3D, d: Sample3D) {
    && g.time == d.time
    && MatrixVector(p.frame, g.wave.linear) == d.wave.linear
    && MatrixVector(p.frame, g.wave.angular) == d.wave.angular
    && MatrixVector(p.frame, g.velocity.linear) == d.velocity.linear
    && MatrixVector(p.frame, g.velocity.angular) == d.velocity.angular
    && MatrixVector(p.frame, Minus(g.position, p.origin)) == d.position
  }

  lemma GlobalLooksLike(p: Params3D, d: Sample3D)
    requires Orthogonal(p.frame)
    ensures LooksLike(p, ToGlobal(p, d), d)
  {
    TransformRoundTrip(p.frame, d.wave.linear);
    TransformRoundTrip(p.frame, d.wave.angular);
    TransformRoundTrip(p.frame, d.velocity.linear);
    TransformRoundTrip(p.frame, d.velocity.angular);
    TransformRoundTrip(p.frame, d.position);
    AddedAndTaken(p.origin, VectorMatrix(d.position, p.frame));
  }

  lemma AddedAndTaken(u: Vector, v: Vector)
    ensures Minus(Plus(u, v), u) == v
  {
  }

  /** A buffered sample that carries the wave sent back in the component's frame. */
  ghost predicate SendsBack(p: Params3D, d: Sample3D, wave: Pair, motion: Pair) {
    d.wave == LocalWave(p, Reaction(p, wave, motion), motion)
  }

  /** Rewrites every buffered sample to the global frame before it is sent. In an orthogonal frame
      nothing is lost, and a sample that answers a wave leaves as the reflection of that wave. */
  method TransformTimeDataToCG(p: Params3D, data: array<Sample3D>)
    modifies data
    ensures forall k :: 0 <= k < data.Length ==> data[k] == ToGlobal(p, old(data[k]))
    ensures Orthogonal(p.frame) ==> forall k :: 0 <= k < data.Length ==> LooksLike(p, data[k], old(data[k]))
    ensures forall k, wave, motion :: 0 <= k < data.Length && SendsBack(p, old(data[k]), wave, motion) ==>
      data[k].wave == Reflected(p, wave, motion)
  {
    if Orthogonal(p.frame) {
      forall k | 0 <= k < data.Length ensures LooksLike(p, ToGlobal(p, data[k]), data[k]) {
        GlobalLooksLike(p, data[k]);
      }
    }
    var i := 0;
    while i < data.Length
      invariant i <= data.Length
      invariant forall k :: 0 <= k < i ==> data[k] == ToGlobal(p, old(data[k]))
      invariant forall k :: i <= k < data.Length ==> data[k] == old(data[k])
    {
      var d := data[i];
      var position := Plus(p.origin, VectorMatrix(d.position, p.frame));
      var rotation := Product(d.rotation, p.frame);
      var force, moment := VectorMatrix(d.wave.linear, p.frame), VectorMatrix(d.wave.angular, p.frame);
      var speed, omega := VectorMatrix(d.velocity.linear, p.frame), VectorMatrix(d.velocity.angular, p.frame);
      data[i] := Sample3D(d.time, position, rotation, Pair(speed, omega), Pair(force, moment));
      i := i + 1;
    }
  }

  /** Power is measured alike in the two frames: sending global samples loses nothing. */
  lemma ProductKept(a: Matrix, u: Vector, v: Vector)
    requires Orthogonal(a)
    ensures Dot(VectorMatrix(u, a), VectorMatrix(v, a)) == Dot(u, v)
  {
    TransformRoundTrip(a, v);
    Adjoint(Transpose(a), VectorMatrix(u, a), v);
    Adjoint(a, u, VectorMatrix(v, a));
    assert Transpose(Transpose(a)) == a;
  }

  /** The place of a point that moves with an interface, given in its own coordinates. */
  function Place(d: Sample3D, point: Vector): Vector {
    Plus(d.position, VectorMatrix(point, d.rotation))
  }

  lemma Associates(p: real, q: real, r: real, a: Vector, b: Vector, c: Vector, v: Vector)
    ensures Dot(Vector(p * a.x + q * b.x + r * c.x, p * a.y + q * b.y + r * c.y, p * a.z + q * b.z + r * c.z), v)
         == p * Dot(a, v) + q * Dot(b, v) + r * Dot(c, v)
  {
    Swap(p, a, q, b, r, c, v);
  }

  lemma TransformTwice(u: Vector, a: Matrix, b: Matrix)
    ensures VectorMatrix(VectorMatrix(u, a), b) == VectorMatrix(u, Product(a, b))
  {
    var t := Transpose(b);
    Turned(u, a);
    Associates(u.x, u.y, u.z, a.r0, a.r1, a.r2, t.r0);
    Associates(u.x, u.y, u.z, a.r0, a.r1, a.r2, t.r1);
    Associates(u.x, u.y, u.z, a.r0, a.r1, a.r2, t.r2);
    Turned(u, Product(a, b));
    ProductRow(a.r0, b);
    ProductRow(a.r1, b);
    ProductRow(a.r2, b);
  }

  /** A row vector times a matrix, as a combination of rows. */
  lemma Turned(u: Vector, a: Matrix)
    ensures VectorMatrix(u, a) == Vector(u.x * a.r0.x + u.y * a.r1.x + u.z * a.r2.x,
                                         u.x * a.r0.y + u.y * a.r1.y + u.z * a.r2.y,
                                         u.x * a.r0.z + u.y * a.r1.z + u.z * a.r2.z)
  {
  }

  lemma ProductRow(v: Vector, b: Matrix)
    ensures VectorMatrix(v, b) == Vector(Dot(v, Transpose(b).r0), Dot(v, Transpose(b).r1), Dot(v, Transpose(b).r2))
  {
    Symmetric(v, Transpose(b).r0);
    Symmetric(v, Transpose(b).r1);
    Symmetric(v, Transpose(b).r2);
  }

  lemma AddsUp(u: Vector, v: Vector, a: Matrix)
    ensures VectorMatrix(Plus(u, v), a) == Plus(VectorMatrix(u, a), VectorMatrix(v, a))
  {
    Turned(u, a);
    Turned(v, a);
    Turned(Plus(u, v), a);
    Distributes(u, v, a.r0.x, a.r1.x, a.r2.x);
    Distributes(u, v, a.r0.y, a.r1.y, a.r2.y);
    Distributes(u, v, a.r0.z, a.r1.z, a.r2.z);
  }

  lemma Distributes(u: Vector, v: Vector, p: real, q: real, r: real)
    ensures (u.x + v.x) * p + (u.y + v.y) * q + (u.z + v.z) * r
         == (u.x * p + u.y * q + u.z * r) + (v.x * p + v.y * q + v.z * r)
  {
  }

  /** A point fixed to an interface is at the same global place whether it is located from
      the local sample and then transformed, or located from the global sample. */
  lemma PlaceKept(p: Params3D, d: Sample3D, point: Vector)
    ensures Place(ToGlobal(p, d), point) == Plus(p.origin, VectorMatrix(Place(d, point), p.frame))
  {
    TransformTwice(point, d.rotation, p.frame);
    AddsUp(d.position, VectorMatrix(point, d.rotation), p.frame);
  }

  lemma TransposeOfProduct(a: Matrix, b: Matrix)
    ensures Transpose(Product(a, b)) == Product(Transpose(b), Transpose(a))
  {
    var t := Transpose(b);
    ProductRow(a.r0, b);
    ProductRow(a.r1, b);
    ProductRow(a.r2, b);
    assert Transpose(Transpose(a)) == a;
    ProductRow(t.r0, Transpose(a));
    ProductRow(t.r1, Transpose(a));
    ProductRow(t.r2, Transpose(a));
    SymmetricRows(t, a);
  }

  lemma SymmetricRows(t: Matrix, a: Matrix)
    ensures Dot(t.r0, a.r0) == Dot(a.r0, t.r0) && Dot(t.r0, a.r1) == Dot(a.r1, t.r0)
    ensures Dot(t.r0, a.r2) == Dot(a.r2, t.r0)
    ensures Dot(t.r1, a.r0) == Dot(a.r0, t.r1) && Dot(t.r1, a.r1) == Dot(a.r1, t.r1)
    ensures Dot(t.r1, a.r2) == Dot(a.r2, t.r1)
    ensures Dot(t.r2, a.r0) == Dot(a.r0, t.r2) && Dot(t.r2, a.r1) == Dot(a.r1, t.r2)
    ensures Dot(t.r2, a.r2) == Dot(a.r2, t.r2)
  {
  }

  lemma RowsKept(a: Matrix, b: Matrix)
    requires Orthonormal(a) && Orthogonal(b)
    ensures Orthonormal(Product(a, b))
  {
    RowProducts(a);
    ProductKept(b, a.r0, a.r0);
    ProductKept(b, a.r1, a.r1);
    ProductKept(b, a.r2, a.r2);
    ProductKept(b, a.r0, a.r1);
    ProductKept(b, a.r0, a.r2);
    ProductKept(b, a.r1, a.r2);
    RowProducts(Product(a, b));
  }

  lemma TransposeRotates(a: Matrix)
    requires Orthogonal(a)
    ensures Orthogonal(Transpose(a))
  {
    assert Transpose(Transpose(a)) == a;
  }

  /** Composing two orientations gives an orientation. */
  lemma OrientationKept(a: Matrix, b: Matrix)
    requires Orthogonal(a) && Orthogonal(b)
    ensures Orthogonal(Product(a, b))
  {
    TransposeRotates(a);
    TransposeRotates(b);
    RowsKept(a, b);
    RowsKept(Transpose(b), Transpose(a));
    TransposeOfProduct(a, b);
  }
}
