/** Dense matrices, as far as the filter needs them. */
module Matrices {

  type Matrix = seq<seq<real>>

  /** Entry access; outside the matrix there are zeros. */
  function At(a: Matrix, i: nat, j: nat): real {
    if i < |a| && j < |a[i]| then a[i][j] else 0.0
  }

  function Build(rows: nat, cols: nat, f: (nat, nat) -> real): (r: Matrix)
    ensures |r| == rows && forall i | 0 <= i < rows :: |r[i]| == cols
    ensures forall i: nat, j: nat | i < rows && j < cols :: At(r, i, j) == f(i, j)
  {
    seq(rows, i requires 0 <= i < rows => seq(cols, j requires 0 <= j < cols => f(i, j)))
  }

  ghost predicate Shaped(a: Matrix, rows: nat, cols: nat) {
    |a| == rows && forall i | 0 <= i < rows :: |a[i]| == cols
  }

  lemma SameEntries(a: Matrix, b: Matrix, rows: nat, cols: nat)
    requires Shaped(a, rows, cols) && Shaped(b, rows, cols)
    requires forall i: nat, j: nat | i < rows && j < cols :: At(a, i, j) == At(b, i, j)
    ensures a == b
  {
    forall i | 0 <= i < rows
      ensures a[i] == b[i]
    {
      assert forall j | 0 <= j < cols :: a[i][j] == At(a, i, j) == At(b, i, j);
    }
  }

  function Put(a: Matrix, i: nat, j: nat, x: real): (r: Matrix)
    requires i < |a| && j < |a[i]|
    ensures |r| == |a| && forall k | 0 <= k < |a| :: |r[k]| == |a[k]|
    ensures forall k: nat, l: nat :: At(r, k, l) == if k == i && l == j then x else At(a, k, l)
  {
    a[i := a[i][j := x]]
  }

  function Identity(n: nat): Matrix {
    Build(n, n, (i: nat, j: nat) => if i == j then 1.0 else 0.0)
  }

  function Add(a: Matrix, b: Matrix, rows: nat, cols: nat): Matrix {
    Build(rows, cols, (i: nat, j: nat) => At(a, i, j) + At(b, i, j))
  }

  function Subtract(a: Matrix, b: Matrix, rows: nat, cols: nat): Matrix {
    Build(rows, cols, (i: nat, j: nat) => At(a, i, j) - At(b, i, j))
  }

  function Transpose(a: Matrix, rows: nat, cols: nat): Matrix {
    Build(cols, rows, (i: nat, j: nat) => At(a, j, i))
  }

  /** Row i of a times column j of b, over the first n terms. */
  function Dot(a: Matrix, b: Matrix, i: nat, j: nat, n: nat): real {
    if n == 0 then 0.0 else Dot(a, b, i, j, n - 1) + At(a, i, n - 1) * At(b, n - 1, j)
  }

  function Multiply(a: Matrix, b: Matrix, rows: nat, inner: nat, cols: nat): Matrix {
    Build(rows, cols, (i: nat, j: nat) => Dot(a, b, i, j, inner))
  }

  /** A product whose terms vanish except at p and q. */
  lemma {:induction false} DotOfTwo(a: Matrix, b: Matrix, i: nat, j: nat, n: nat, p: nat, q: nat)
    requires p < q
    requires forall k: nat | k < n && k != p && k != q :: At(a, i, k) * At(b, k, j) == 0.0
    ensures Dot(a, b, i, j, n) == (if p < n then At(a, i, p) * At(b, p, j) else 0.0)
                                + (if q < n then At(a, i, q) * At(b, q, j) else 0.0)
  {
    if n > 0 { DotOfTwo(a, b, i, j, n - 1, p, q); }
  }

  /** Row i of a has a single non-zero entry. */
  lemma DotSparseRow(a: Matrix, b: Matrix, i: nat, j: nat, n: nat, p: nat)
    requires p < n && forall k: nat | k < n && k != p :: At(a, i, k) == 0.0
    ensures Dot(a, b, i, j, n) == At(a, i, p) * At(b, p, j)
  {
    DotOfTwo(a, b, i, j, n, p, n);
  }

  /** Column j of b has a single non-zero entry. */
  lemma DotSparseColumn(a: Matrix, b: Matrix, i: nat, j: nat, n: nat, p: nat)
    requires p < n && forall k: nat | k < n && k != p :: At(b, k, j) == 0.0
    ensures Dot(a, b, i, j, n) == At(a, i, p) * At(b, p, j)
  {
    DotOfTwo(a, b, i, j, n, p, n);
  }
}

/** The bounding-box filter: centre, width and height with their velocities, as one
    eight-dimensional Kalman filter, and its refinement to four independent two-dimensional
    ones. */
module KalmanFilter {
  import opened Matrices
  import Boxes

  /** Rows 0 to 3 of the state are centre x, centre y, width and height; rows 4 to 7 are their
      velocities. */
  datatype Estimate = Estimate(state: Matrix, covariance: Matrix) {
    ghost predicate Valid() { Shaped(state, 8, 1) && Shaped(covariance, 8, 8) }

    function Box(): Boxes.Box {
      var width := Boxes.Max(At(state, 2, 0), 1.0);
      var height := Boxes.Max(At(state, 3, 0), 1.0);
      Boxes.Box(At(state, 0, 0) - width / 2.0, At(state, 1, 0) - height / 2.0,
                At(state, 0, 0) + width / 2.0, At(state, 1, 0) + height / 2.0)
    }
  }

  /** The pseudo-inverse the program calls.  All that is used of it: on a diagonal matrix with
      positive diagonal it is a right inverse. */
  type Inverse = Matrix -> Matrix

  ghost predicate PositiveDiagonal(s: Matrix) {
    && Shaped(s, 4, 4)
    && (forall i: nat, j: nat | i < 4 && j < 4 :: i != j ==> At(s, i, j) == 0.0)
    && (forall i: nat | i < 4 :: At(s, i, i) > 0.0)
  }

  ghost predicate InvertsDiagonal(inverse: Inverse) {
    forall s | PositiveDiagonal(s) ::
      Shaped(inverse(s), 4, 4) && Multiply(s, inverse(s), 4, 4, 4) == Identity(4)
  }

  /** The inverse of a diagonal matrix, entry by entry. */
  function DiagonalInverse(s: Matrix): Matrix {
    Build(4, 4, (i: nat, j: nat) => if i == j && At(s, i, i) != 0.0 then 1.0 / At(s, i, i) else 0.0)
  }

  /** What is asked of the inverse can be met. */
  lemma InverseExists()
    ensures InvertsDiagonal(DiagonalInverse)
  {
    forall s | PositiveDiagonal(s)
      ensures Multiply(s, DiagonalInverse(s), 4, 4, 4) == Identity(4)
    {
      forall i: nat, j: nat | i < 4 && j < 4
        ensures At(Multiply(s, DiagonalInverse(s), 4, 4, 4), i, j) == At(Identity(4), i, j)
      {
        DotSparseRow(s, DiagonalInverse(s), i, j, 4, i);
        Reciprocal(At(s, i, i));
      }
      SameEntries(Multiply(s, DiagonalInverse(s), 4, 4, 4), Identity(4), 4, 4);
    }
  }

  lemma Reciprocal(x: real)
    requires x > 0.0
    ensures x * (1.0 / x) == 1.0
  {
  }

  const SHORTEST_STEP := 0.001

  function Transition(dt: real): Matrix {
    Build(8, 8, (i: nat, j: nat) => if i == j then 1.0 else if j == i + 4 then dt else 0.0)
  }

  function ProcessNoise(q: real, dt: real): Matrix {
    Build(8, 8, (i: nat, j: nat) => if i != j then 0.0 else if i < 4 then q * dt * dt else q * dt)
  }

  /** The first four rows of an eight-row identity. */
  function Observation(): Matrix {
    Build(4, 8, (i: nat, j: nat) => if i == j then 1.0 else 0.0)
  }

  function MeasurementNoise(r: real): Matrix {
    Build(4, 4, (i: nat, j: nat) => if i == j then r else 0.0)
  }

  function Measurement(box: Boxes.Box): Matrix {
    Build(4, 1, (i: nat, j: nat) => Measured(box, i))
  }

  function Measured(box: Boxes.Box, i: nat): real {
    if i == 0 then box.CenterX() else if i == 1 then box.CenterY() else if i == 2 then box.Width() else box.Height()
  }

  function ClampSize(x: Matrix): Matrix {
    Build(8, 1, (i: nat, j: nat) => if i == 2 || i == 3 then Boxes.Max(At(x, i, 0), 1.0) else At(x, i, 0))
  }

  function Initial(box: Boxes.Box): Estimate {
    Estimate(Build(8, 1, (i: nat, j: nat) => if i < 4 then Measured(box, i) else 0.0),
             Build(8, 8, (i: nat, j: nat) => if i != j then 0.0 else if i < 4 then 10.0 else 100.0))
  }

  function PredictEstimate(e: Estimate, q: real, elapsed: real): Estimate {
    var dt := Boxes.Max(elapsed, SHORTEST_STEP);
    var f := Transition(dt);
    Estimate(ClampSize(Multiply(f, e.state, 8, 8, 1)), MoveCovariance(f, e.covariance, q, dt))
  }

  function MoveCovariance(f: Matrix, covariance: Matrix, q: real, dt: real): Matrix {
    Add(Multiply(Multiply(f, covariance, 8, 8, 8), Transpose(f, 8, 8), 8, 8, 8), ProcessNoise(q, dt), 8, 8)
  }

  function InnovationCovariance(covariance: Matrix, r: real): Matrix {
    var h := Observation();
    Add(Multiply(h, Multiply(covariance, Transpose(h, 4, 8), 8, 8, 4), 4, 8, 4), MeasurementNoise(r), 4, 4)
  }

  function Gain(covariance: Matrix, r: real, inverse: Inverse): Matrix {
    var h := Observation();
    Multiply(Multiply(covariance, Transpose(h, 4, 8), 8, 8, 4), inverse(InnovationCovariance(covariance, r)), 8, 4, 4)
  }

  function Innovation(state: Matrix, box: Boxes.Box): Matrix {
    Subtract(Measurement(box), Multiply(Observation(), state, 4, 8, 1), 4, 1)
  }

  function CorrectState(state: Matrix, gain: Matrix, innovation: Matrix): Matrix {
    Add(state, Multiply(gain, innovation, 8, 4, 1), 8, 1)
  }

  function CorrectCovariance(covariance: Matrix, gain: Matrix): Matrix {
    Multiply(Subtract(Identity(8), Multiply(gain, Observation(), 8, 4, 8), 8, 8), covariance, 8, 8, 8)
  }

  function UpdateEstimate(e: Estimate, r: real, inverse: Inverse, box: Boxes.Box): Estimate {
    var k := Gain(e.covariance, r, inverse);
    Estimate(ClampSize(CorrectState(e.state, k, Innovation(e.state, box))), CorrectCovariance(e.covariance, k))
  }

  /** The filter as seen by a tracker: how it starts, how it predicts, how it takes a box in. */
  datatype Motion = Motion(
    start: Boxes.Box -> Estimate,
    predict: (Estimate, real) -> Estimate,
    update: (Estimate, Boxes.Box) -> Estimate)

  function KalmanMotion(q: real, r: real, inverse: Inverse): Motion {
    Motion(box => Initial(box),
           (e, elapsed) => PredictEstimate(e, q, elapsed),
           (e, box) => UpdateEstimate(e, r, inverse, box))
  }

  /** The filter object.  Every method replaces the state and the covariance as the functions
      above say. */
  class BoundingBoxKalmanFilter {
    var state: Matrix
    var covariance: Matrix
    const processNoise: real
    const measurementNoise: real
    const inverse: Inverse

    ghost function Value(): Estimate
      reads this
    {
      Estimate(state, covariance)
    }

    constructor (box: Boxes.Box, processNoise: real, measurementNoise: real, inverse: Inverse)
      requires processNoise > 0.0 && measurementNoise > 0.0
      ensures Value() == Initial(box)
      ensures this.processNoise == processNoise && this.measurementNoise == measurementNoise && this.inverse == inverse
    {
      this.processNoise, this.measurementNoise, this.inverse := processNoise, measurementNoise, inverse;
      state, covariance := Initial(box).state, Initial(box).covariance;
    }

    method Predict(elapsed: real) returns (box: Boxes.Box)
      modifies this
      ensures Value() == PredictEstimate(old(Value()), processNoise, elapsed)
      ensures box == Value().Box()
    {
      var dt := Boxes.Max(elapsed, SHORTEST_STEP);
      var transition := BuildTransition(dt);
      covariance := MoveCovariance(transition, covariance, processNoise, dt);
      state := Multiply(transition, state, 8, 8, 1);
      EnforceValidSize();
      box := Estimate(state, covariance).Box();
    }

    static method BuildTransition(dt: real) returns (transition: Matrix)
      ensures transition == Transition(dt)
    {
      transition := Identity(8);
      for i := 0 to 4
        invariant Shaped(transition, 8, 8)
        invariant forall r: nat, c: nat | r < 8 && c < 8 ::
          At(transition, r, c) == if r == c then 1.0 else if c == r + 4 && r < i then dt else 0.0
      {
        transition := Put(transition, i, i + 4, dt);
      }
      SameEntries(transition, Transition(dt), 8, 8);
    }

    method Update(measured: Boxes.Box) returns (box: Boxes.Box)
      modifies this
      ensures Value() == UpdateEstimate(old(Value()), measurementNoise, inverse, measured)
      ensures box == Value().Box()
    {
      var innovation := Innovation(state, measured);
      var gain := Gain(covariance, measurementNoise, inverse);
      state := CorrectState(state, gain, innovation);
      covariance := CorrectCovariance(covariance, gain);
      EnforceValidSize();
      box := Estimate(state, covariance).Box();
    }

    method EnforceValidSize()
      requires Shaped(state, 8, 1)
      modifies this`state
      ensures state == ClampSize(old(state))
    {
      if state[2][0] < 1.0 {
        state := state[2 := [1.0]];
      }
      if state[3][0] < 1.0 {
        state := state[3 := [1.0]];
      }
      SameEntries(state, ClampSize(old(state)), 8, 1);
    }
  }

  // ---------------------------------------------------------------- four small filters

  /** One coordinate: position, velocity, and their variances and covariance. */
  datatype Axis = Axis(pos: real, vel: real, pp: real, pv: real, vv: real) {
    /** The 2x2 covariance is symmetric by construction; this is positive definiteness. */
    ghost predicate PositiveDefinite() { pp > 0.0 && vv > 0.0 && pp * vv - pv * pv > 0.0 }

    function Moved(dt: real): Axis {
      Axis(pos + dt * vel, vel, pp + dt * pv + (pv + dt * vv) * dt, pv + dt * vv, vv)
    }

    function Predicted(q: real, dt: real): Axis {
      var moved := Moved(dt);
      moved.(pp := moved.pp + q * dt * dt, vv := moved.vv + q * dt)
    }

    /** g is one over the variance of the innovation. */
    function Corrected(g: real, z: real): Axis {
      Axis(pos + pp * g * (z - pos), vel + pv * g * (z - pos),
           (1.0 - pp * g) * pp, (1.0 - pp * g) * pv, vv - pv * g * pv)
    }

    function AtLeastOne(): Axis { this.(pos := Boxes.Max(pos, 1.0)) }
  }

  /** Centre x, centre y, width and height. */
  type Axes = a: seq<Axis> | |a| == 4 witness seq(4, i => Axis(0.0, 0.0, 1.0, 0.0, 1.0))

  type Factors = g: seq<real> | |g| == 4 witness [0.0, 0.0, 0.0, 0.0]

  /** Width and height are kept at 1 or above. */
  function Sized(a: Axes): Axes {
    [a[0], a[1], a[2].AtLeastOne(), a[3].AtLeastOne()]
  }

  function Moved(a: Axes, q: real, dt: real): Axes {
    seq(4, i requires 0 <= i < 4 => a[i].Predicted(q, dt))
  }

  function Predicted(a: Axes, q: real, elapsed: real): Axes {
    Sized(Moved(a, q, Boxes.Max(elapsed, SHORTEST_STEP)))
  }

  ghost predicate Measurable(a: Axes, r: real) {
    forall i | 0 <= i < 4 :: a[i].pp + r > 0.0
  }

  function Shrink(a: Axes, r: real): Factors
    requires Measurable(a, r)
  {
    seq(4, i requires 0 <= i < 4 => 1.0 / (a[i].pp + r))
  }

  function Corrected(a: Axes, g: Factors, box: Boxes.Box): Axes {
    seq(4, i requires 0 <= i < 4 => a[i].Corrected(g[i], Measured(box, i)))
  }

  function Updated(a: Axes, r: real, box: Boxes.Box): Axes
    requires Measurable(a, r)
  {
    Sized(Corrected(a, Shrink(a, r), box))
  }

  /** Row i and row i + 4 belong to the same coordinate. */
  function Coordinate(i: nat): nat {
    if i < 4 then i else i - 4
  }

  function StateEntry(a: Axes, i: nat): real {
    if i < 4 then a[i].pos else if i < 8 then a[i - 4].vel else 0.0
  }

  function CovarianceEntry(a: Axes, i: nat, j: nat): real {
    if i >= 8 || Coordinate(i) != Coordinate(j) then 0.0
    else if i < 4 && j < 4 then a[i].pp
    else if i >= 4 && j >= 4 then a[i - 4].vv
    else a[Coordinate(i)].pv
  }

  /** The eight-dimensional filter that four small ones make up: nothing off the blocks. */
  function Assemble(a: Axes): Estimate {
    Estimate(Build(8, 1, (i: nat, j: nat) => StateEntry(a, i)),
             Build(8, 8, (i: nat, j: nat) => CovarianceEntry(a, i, j)))
  }

  lemma TransitionTimes(dt: real, m: Matrix, i: nat, j: nat)
    requires i < 8
    ensures Dot(Transition(dt), m, i, j, 8) == if i < 4 then At(m, i, j) + dt * At(m, i + 4, j) else At(m, i, j)
  {
    DotOfTwo(Transition(dt), m, i, j, 8, i, i + 4);
  }

  lemma TimesTransition(dt: real, m: Matrix, i: nat, j: nat)
    requires j < 8
    ensures Dot(m, Transpose(Transition(dt), 8, 8), i, j, 8)
         == if j < 4 then At(m, i, j) + At(m, i, j + 4) * dt else At(m, i, j)
  {
    DotOfTwo(m, Transpose(Transition(dt), 8, 8), i, j, 8, j, j + 4);
  }

  ghost predicate Blocks(m: Matrix, a: Axes) {
    forall r: nat, c: nat | r < 8 && c < 8 :: At(m, r, c) == CovarianceEntry(a, r, c)
  }

  /** Rows of transition * covariance. */
  lemma MovedEntry(a: Axes, m: Matrix, dt: real, i: nat, j: nat)
    requires i < 8 && j < 8 && Blocks(m, a)
    ensures Dot(Transition(dt), m, i, j, 8)
         == if Coordinate(i) != Coordinate(j) then 0.0
            else if i >= 4 then CovarianceEntry(a, i, j)
            else if j < 4 then a[i].pp + dt * a[i].pv
            else a[i].pv + dt * a[i].vv
  {
    TransitionTimes(dt, m, i, j);
  }

  /** Entry of the covariance after the move, before noise is added. */
  ghost function MovedCovariance(a: Axes, dt: real, i: nat, j: nat): real
    requires i < 8
  {
    if Coordinate(i) != Coordinate(j) then 0.0
    else
      var b := a[Coordinate(i)].Moved(dt);
      if i < 4 && j < 4 then b.pp else if i >= 4 && j >= 4 then b.vv else b.pv
  }

  /** fm is transition * m, entry by entry. */
  ghost predicate HalfMoved(fm: Matrix, m: Matrix, dt: real) {
    forall r: nat, c: nat | r < 8 && c < 8 :: At(fm, r, c) == Dot(Transition(dt), m, r, c, 8)
  }

  lemma OffBlockEntry(a: Axes, m: Matrix, fm: Matrix, dt: real, i: nat, j: nat)
    requires i < 8 && j < 8 && Blocks(m, a) && HalfMoved(fm, m, dt)
    requires Coordinate(i) != Coordinate(j)
    ensures Dot(fm, Transpose(Transition(dt), 8, 8), i, j, 8) == 0.0
  {
    TimesTransition(dt, fm, i, j);
    MovedEntry(a, m, dt, i, j);
    if j < 4 {
      MovedEntry(a, m, dt, i, j + 4);
      assert At(fm, i, j) == At(fm, i, j + 4) == 0.0;
    }
  }

  lemma PositionEntry(a: Axes, m: Matrix, fm: Matrix, dt: real, i: nat)
    requires i < 4 && Blocks(m, a) && HalfMoved(fm, m, dt)
    ensures Dot(fm, Transpose(Transition(dt), 8, 8), i, i, 8) == a[i].Moved(dt).pp
  {
    TimesTransition(dt, fm, i, i);
    MovedEntry(a, m, dt, i, i);
    MovedEntry(a, m, dt, i, i + 4);
    assert At(fm, i, i + 4) == a[i].pv + dt * a[i].vv;
  }

  lemma MixedEntry(a: Axes, m: Matrix, fm: Matrix, dt: real, i: nat)
    requires i < 4 && Blocks(m, a) && HalfMoved(fm, m, dt)
    ensures Dot(fm, Transpose(Transition(dt), 8, 8), i + 4, i, 8) == a[i].Moved(dt).pv
    ensures Dot(fm, Transpose(Transition(dt), 8, 8), i, i + 4, 8) == a[i].Moved(dt).pv
    ensures Dot(fm, Transpose(Transition(dt), 8, 8), i + 4, i + 4, 8) == a[i].vv
  {
    TimesTransition(dt, fm, i, i + 4);
    TimesTransition(dt, fm, i + 4, i);
    TimesTransition(dt, fm, i + 4, i + 4);
    MovedEntry(a, m, dt, i, i + 4);
    MovedEntry(a, m, dt, i + 4, i);
    MovedEntry(a, m, dt, i + 4, i + 4);
    assert At(fm, i + 4, i + 4) == a[i].vv;
  }

  lemma PredictedEntry(a: Axes, m: Matrix, fm: Matrix, dt: real, i: nat, j: nat)
    requires i < 8 && j < 8 && Blocks(m, a) && HalfMoved(fm, m, dt)
    ensures Dot(fm, Transpose(Transition(dt), 8, 8), i, j, 8) == MovedCovariance(a, dt, i, j)
  {
    if Coordinate(i) != Coordinate(j) {
      OffBlockEntry(a, m, fm, dt, i, j);
    } else if i < 4 && j < 4 {
      PositionEntry(a, m, fm, dt, i);
    } else {
      MixedEntry(a, m, fm, dt, Coordinate(i));
    }
  }

  lemma NoisyEntry(a: Axes, q: real, elapsed: real, i: nat, j: nat)
    requires i < 8 && j < 8
    ensures CovarianceEntry(Predicted(a, q, elapsed), i, j)
         == MovedCovariance(a, Boxes.Max(elapsed, SHORTEST_STEP), i, j)
          + At(ProcessNoise(q, Boxes.Max(elapsed, SHORTEST_STEP)), i, j)
  {
    var dt := Boxes.Max(elapsed, SHORTEST_STEP);
    assert At(ProcessNoise(q, dt), i, j) == if i != j then 0.0 else if i < 4 then q * dt * dt else q * dt;
  }

  lemma PredictedCovariance(a: Axes, q: real, elapsed: real)
    ensures PredictEstimate(Assemble(a), q, elapsed).covariance == Assemble(Predicted(a, q, elapsed)).covariance
  {
    var dt := Boxes.Max(elapsed, SHORTEST_STEP);
    var m := Assemble(a).covariance;
    var fm := Multiply(Transition(dt), m, 8, 8, 8);
    var p, t := PredictEstimate(Assemble(a), q, elapsed).covariance, Assemble(Predicted(a, q, elapsed)).covariance;
    forall i: nat, j: nat | i < 8 && j < 8
      ensures At(p, i, j) == At(t, i, j)
    {
      PredictedEntry(a, m, fm, dt, i, j);
      NoisyEntry(a, q, elapsed, i, j);
    }
    SameEntries(p, t, 8, 8);
  }

  lemma MovedState(a: Axes, x: Matrix, dt: real, i: nat)
    requires i < 8 && forall k: nat | k < 8 :: At(x, k, 0) == StateEntry(a, k)
    ensures Dot(Transition(dt), x, i, 0, 8) == if i < 4 then a[i].pos + dt * a[i].vel else a[i - 4].vel
  {
    TransitionTimes(dt, x, i, 0);
  }

  lemma MovedPart(a: Axes, q: real, dt: real, i: nat)
    requires i < 8
    ensures StateEntry(Moved(a, q, dt), i) == if i < 4 then a[i].pos + dt * a[i].vel else a[i - 4].vel
  {
  }

  lemma ClampedState(x: Matrix, a: Axes)
    requires forall i: nat | i < 8 :: At(x, i, 0) == StateEntry(a, i)
    ensures ClampSize(x) == Assemble(Sized(a)).state
  {
    SameEntries(ClampSize(x), Assemble(Sized(a)).state, 8, 1);
  }

  lemma PredictedState(a: Axes, q: real, elapsed: real)
    ensures PredictEstimate(Assemble(a), q, elapsed).state == Assemble(Predicted(a, q, elapsed)).state
  {
    var dt := Boxes.Max(elapsed, SHORTEST_STEP);
    var x := Assemble(a).state;
    var fx := Multiply(Transition(dt), x, 8, 8, 1);
    forall i: nat | i < 8
      ensures At(fx, i, 0) == StateEntry(Moved(a, q, dt), i)
    {
      MovedState(a, x, dt, i);
      assert At(fx, i, 0) == Dot(Transition(dt), x, i, 0, 8);
      MovedPart(a, q, dt, i);
    }
    ClampedState(fx, Moved(a, q, dt));
  }

  /** Prediction acts on the four coordinates separately. */
  lemma PredictDecouples(a: Axes, q: real, elapsed: real)
    ensures PredictEstimate(Assemble(a), q, elapsed) == Assemble(Predicted(a, q, elapsed))
  {
    PredictedState(a, q, elapsed);
    PredictedCovariance(a, q, elapsed);
  }

  // ---------------------------------------------------------------- updating

  lemma ObservedColumns(m: Matrix, i: nat, j: nat)
    requires j < 4
    ensures Dot(m, Transpose(Observation(), 4, 8), i, j, 8) == At(m, i, j)
  {
    DotOfTwo(m, Transpose(Observation(), 4, 8), i, j, 8, j, 8);
  }

  lemma ObservedRows(m: Matrix, i: nat, j: nat)
    requires i < 4
    ensures Dot(Observation(), m, i, j, 8) == At(m, i, j)
  {
    DotOfTwo(Observation(), m, i, j, 8, i, 8);
  }

  lemma TimesObservation(m: Matrix, i: nat, j: nat)
    ensures Dot(m, Observation(), i, j, 4) == if j < 4 then At(m, i, j) else 0.0
  {
    DotOfTwo(m, Observation(), i, j, 4, j, j + 4);
  }

  lemma InnovationEntry(a: Axes, m: Matrix, r: real, i: nat, j: nat)
    requires i < 4 && j < 4 && Blocks(m, a)
    ensures At(InnovationCovariance(m, r), i, j) == if i == j then a[i].pp + r else 0.0
  {
    var ph := Multiply(m, Transpose(Observation(), 4, 8), 8, 8, 4);
    ObservedRows(ph, i, j);
    ObservedColumns(m, i, j);
    assert At(ph, i, j) == Dot(m, Transpose(Observation(), 4, 8), i, j, 8);
    assert At(Multiply(Observation(), ph, 4, 8, 4), i, j) == Dot(Observation(), ph, i, j, 8);
  }

  /** A right inverse of a positive diagonal matrix is the obvious one. */
  lemma InverseEntry(s: Matrix, inverse: Inverse, i: nat, j: nat)
    requires InvertsDiagonal(inverse) && PositiveDiagonal(s)
    requires i < 4 && j < 4
    ensures At(inverse(s), i, j) == if i == j then 1.0 / At(s, i, i) else 0.0
  {
    var v := inverse(s);
    DotOfTwo(s, v, i, j, 4, i, i + 4);
    assert At(Identity(4), i, j) == Dot(s, v, i, j, 4);
    UniqueQuotient(At(s, i, i), At(v, i, j), if i == j then 1.0 else 0.0);
  }

  lemma UniqueQuotient(s: real, v: real, d: real)
    requires s > 0.0 && s * v == d
    ensures v == d / s
  {
  }

  lemma InverseOfInnovation(a: Axes, m: Matrix, r: real, inverse: Inverse, i: nat, j: nat)
    requires InvertsDiagonal(inverse) && Blocks(m, a) && Measurable(a, r)
    requires i < 4 && j < 4
    ensures At(inverse(InnovationCovariance(m, r)), i, j) == if i == j then Shrink(a, r)[i] else 0.0
  {
    var s := InnovationCovariance(m, r);
    forall p: nat, q: nat | p < 4 && q < 4
      ensures At(s, p, q) == if p == q then a[p].pp + r else 0.0
    {
      InnovationEntry(a, m, r, p, q);
    }
    InverseEntry(s, inverse, i, j);
  }

  ghost predicate Diagonal(v: Matrix, g: Factors) {
    forall i: nat, j: nat | i < 4 && j < 4 :: At(v, i, j) == if i == j then g[i] else 0.0
  }

  lemma InverseIsDiagonal(a: Axes, m: Matrix, r: real, inverse: Inverse)
    requires InvertsDiagonal(inverse) && Blocks(m, a) && Measurable(a, r)
    ensures Diagonal(inverse(InnovationCovariance(m, r)), Shrink(a, r))
  {
    forall i: nat, j: nat | i < 4 && j < 4
      ensures At(inverse(InnovationCovariance(m, r)), i, j) == if i == j then Shrink(a, r)[i] else 0.0
    {
      InverseOfInnovation(a, m, r, inverse, i, j);
    }
  }

  /** Gain of coordinate i on row i. */
  ghost function GainOf(a: Axes, g: Factors, i: nat): real
    requires i < 8
  {
    if i < 4 then a[i].pp * g[i] else a[i - 4].pv * g[i - 4]
  }

  ghost predicate Gains(k: Matrix, a: Axes, g: Factors) {
    forall i: nat, j: nat | i < 8 && j < 4 :: At(k, i, j) == if Coordinate(i) == j then GainOf(a, g, i) else 0.0
  }

  lemma ObservedEntry(m: Matrix, i: nat, j: nat)
    requires i < 8 && j < 4
    ensures At(Multiply(m, Transpose(Observation(), 4, 8), 8, 8, 4), i, j) == At(m, i, j)
  {
    ObservedColumns(m, i, j);
  }

  lemma DiagonalGain(a: Axes, m: Matrix, g: Factors, ph: Matrix, v: Matrix, i: nat, j: nat)
    requires Blocks(m, a) && Diagonal(v, g) && i < 8 && j < 4
    requires At(ph, i, j) == At(m, i, j)
    ensures Dot(ph, v, i, j, 4) == if Coordinate(i) == j then GainOf(a, g, i) else 0.0
  {
    DotSparseColumn(ph, v, i, j, 4, j);
    assert At(m, i, j) == CovarianceEntry(a, i, j);
  }

  lemma GainsOf(a: Axes, m: Matrix, r: real, inverse: Inverse)
    requires InvertsDiagonal(inverse) && Blocks(m, a) && Measurable(a, r)
    ensures Gains(Gain(m, r, inverse), a, Shrink(a, r))
  {
    var ph := Multiply(m, Transpose(Observation(), 4, 8), 8, 8, 4);
    var v := inverse(InnovationCovariance(m, r));
    InverseIsDiagonal(a, m, r, inverse);
    GainsOfParts(a, m, Shrink(a, r), ph, v);
  }

  lemma GainsOfParts(a: Axes, m: Matrix, g: Factors, ph: Matrix, v: Matrix)
    requires Blocks(m, a) && Diagonal(v, g)
    requires ph == Multiply(m, Transpose(Observation(), 4, 8), 8, 8, 4)
    ensures Gains(Multiply(ph, v, 8, 4, 4), a, g)
  {
    forall i: nat, j: nat | i < 8 && j < 4
      ensures Dot(ph, v, i, j, 4) == if Coordinate(i) == j then GainOf(a, g, i) else 0.0
    {
      ObservedEntry(m, i, j);
      DiagonalGain(a, m, g, ph, v, i, j);
    }
  }

  lemma InnovationAt(a: Axes, box: Boxes.Box, i: nat)
    requires i < 4
    ensures At(Innovation(Assemble(a).state, box), i, 0) == Measured(box, i) - a[i].pos
  {
    var x := Assemble(a).state;
    ObservedRows(x, i, 0);
    assert At(Multiply(Observation(), x, 4, 8, 1), i, 0) == Dot(Observation(), x, i, 0, 8);
  }

  lemma CorrectedStateEntry(a: Axes, x: Matrix, k: Matrix, v: Matrix, g: Factors, box: Boxes.Box, i: nat)
    requires Gains(k, a, g) && i < 8
    requires At(x, i, 0) == StateEntry(a, i)
    requires At(v, Coordinate(i), 0) == Measured(box, Coordinate(i)) - a[Coordinate(i)].pos
    ensures At(CorrectState(x, k, v), i, 0) == CorrectedPart(a, g, box, i)
  {
    DotSparseRow(k, v, i, 0, 4, Coordinate(i));
    assert At(Multiply(k, v, 8, 4, 1), i, 0) == Dot(k, v, i, 0, 4);
  }

  ghost function CorrectedPart(a: Axes, g: Factors, box: Boxes.Box, i: nat): real
    requires i < 8
  {
    StateEntry(a, i) + GainOf(a, g, i) * (Measured(box, Coordinate(i)) - a[Coordinate(i)].pos)
  }

  ghost function ResidualOf(a: Axes, g: Factors, i: nat, j: nat): real
    requires i < 8
  {
    (if i == j then 1.0 else 0.0) - (if j < 4 && Coordinate(i) == j then GainOf(a, g, i) else 0.0)
  }

  ghost predicate Residuals(residual: Matrix, a: Axes, g: Factors) {
    forall i: nat, j: nat | i < 8 && j < 8 :: At(residual, i, j) == ResidualOf(a, g, i, j)
  }

  lemma ResidualsOf(a: Axes, k: Matrix, g: Factors)
    requires Gains(k, a, g)
    ensures Residuals(Subtract(Identity(8), Multiply(k, Observation(), 8, 4, 8), 8, 8), a, g)
  {
    var kh := Multiply(k, Observation(), 8, 4, 8);
    forall i: nat, j: nat | i < 8 && j < 8
      ensures At(Identity(8), i, j) - At(kh, i, j) == ResidualOf(a, g, i, j)
    {
      TimesObservation(k, i, j);
      assert At(kh, i, j) == Dot(k, Observation(), i, j, 4);
      assert At(Identity(8), i, j) == if i == j then 1.0 else 0.0;
    }
  }

  lemma CorrectedPositionRow(a: Axes, m: Matrix, residual: Matrix, g: Factors, i: nat, j: nat)
    requires Residuals(residual, a, g) && i < 4
    ensures Dot(residual, m, i, j, 8) == (1.0 - GainOf(a, g, i)) * At(m, i, j)
  {
    assert forall l: nat | l < 8 && l != i :: At(residual, i, l) == ResidualOf(a, g, i, l) == 0.0;
    DotSparseRow(residual, m, i, j, 8, i);
    assert At(residual, i, i) == ResidualOf(a, g, i, i) == 1.0 - GainOf(a, g, i);
  }

  lemma CorrectedVelocityRow(a: Axes, m: Matrix, residual: Matrix, g: Factors, i: nat, j: nat)
    requires Residuals(residual, a, g) && 4 <= i < 8
    ensures Dot(residual, m, i, j, 8) == At(m, i, j) - GainOf(a, g, i) * At(m, i - 4, j)
  {
    assert forall l: nat | l < 8 && l != i && l != i - 4 :: At(residual, i, l) == ResidualOf(a, g, i, l) == 0.0;
    DotOfTwo(residual, m, i, j, 8, i - 4, i);
  }

  lemma CorrectedEntry(a: Axes, m: Matrix, residual: Matrix, g: Factors, box: Boxes.Box, i: nat, j: nat)
    requires Residuals(residual, a, g) && Blocks(m, a) && i < 8 && j < 8
    ensures Dot(residual, m, i, j, 8) == CovarianceEntry(Corrected(a, g, box), i, j)
  {
    if i < 4 {
      CorrectedPositionEntry(a, m, residual, g, box, i, j);
    } else {
      CorrectedVelocityEntry(a, m, residual, g, box, i, j);
    }
  }

  lemma CorrectedPositionEntry(a: Axes, m: Matrix, residual: Matrix, g: Factors, box: Boxes.Box, i: nat, j: nat)
    requires Residuals(residual, a, g) && Blocks(m, a) && i < 4 && j < 8
    ensures Dot(residual, m, i, j, 8) == CovarianceEntry(Corrected(a, g, box), i, j)
  {
    CorrectedPositionRow(a, m, residual, g, i, j);
    var entry := At(m, i, j);
    assert entry == CovarianceEntry(a, i, j);
    PositionRow(a, g, box, i, j, entry);
  }

  lemma CorrectedVelocityEntry(a: Axes, m: Matrix, residual: Matrix, g: Factors, box: Boxes.Box, i: nat, j: nat)
    requires Residuals(residual, a, g) && Blocks(m, a) && 4 <= i < 8 && j < 8
    ensures Dot(residual, m, i, j, 8) == CovarianceEntry(Corrected(a, g, box), i, j)
  {
    CorrectedVelocityRow(a, m, residual, g, i, j);
    var entry, above := At(m, i, j), At(m, i - 4, j);
    assert entry == CovarianceEntry(a, i, j) && above == CovarianceEntry(a, i - 4, j);
    VelocityRow(a, g, box, i, j, entry, above);
  }

  lemma PositionRow(a: Axes, g: Factors, box: Boxes.Box, i: nat, j: nat, entry: real)
    requires i < 4 && j < 8 && entry == CovarianceEntry(a, i, j)
    ensures CovarianceEntry(Corrected(a, g, box), i, j) == (1.0 - GainOf(a, g, i)) * entry
  {
    if Coordinate(j) != i {
      assert entry == 0.0;
    }
  }

  lemma VelocityRow(a: Axes, g: Factors, box: Boxes.Box, i: nat, j: nat, entry: real, above: real)
    requires 4 <= i < 8 && j < 8 && entry == CovarianceEntry(a, i, j) && above == CovarianceEntry(a, i - 4, j)
    ensures CovarianceEntry(Corrected(a, g, box), i, j) == entry - GainOf(a, g, i) * above
  {
    if Coordinate(j) != i - 4 {
      assert entry == above == 0.0;
    } else if j < 4 {
      Commute(a[j].pp, a[j].pv, g[j]);
    }
  }

  lemma Commute(pp: real, pv: real, g: real)
    ensures (1.0 - pp * g) * pv == pv - pv * g * pp
  {
  }

  lemma UpdatedCovariance(a: Axes, r: real, inverse: Inverse, box: Boxes.Box)
    requires InvertsDiagonal(inverse) && Measurable(a, r)
    ensures UpdateEstimate(Assemble(a), r, inverse, box).covariance == Assemble(Updated(a, r, box)).covariance
  {
    var m := Assemble(a).covariance;
    GainsOf(a, m, r, inverse);
    CorrectedAs(a, m, Gain(m, r, inverse), Shrink(a, r), box);
  }

  lemma CorrectedAs(a: Axes, m: Matrix, k: Matrix, g: Factors, box: Boxes.Box)
    requires Gains(k, a, g) && Blocks(m, a)
    ensures CorrectCovariance(m, k) == Assemble(Sized(Corrected(a, g, box))).covariance
  {
    var residual := Subtract(Identity(8), Multiply(k, Observation(), 8, 4, 8), 8, 8);
    ResidualsOf(a, k, g);
    var u, t := CorrectCovariance(m, k), Assemble(Sized(Corrected(a, g, box))).covariance;
    forall i: nat, j: nat | i < 8 && j < 8
      ensures At(u, i, j) == At(t, i, j)
    {
      CorrectedEntry(a, m, residual, g, box, i, j);
      SizedKeepsCovariance(Corrected(a, g, box), i, j);
    }
    SameEntries(u, t, 8, 8);
  }

  lemma SizedKeepsCovariance(a: Axes, i: nat, j: nat)
    ensures CovarianceEntry(Sized(a), i, j) == CovarianceEntry(a, i, j)
  {
  }

  lemma UpdatedState(a: Axes, r: real, inverse: Inverse, box: Boxes.Box)
    requires InvertsDiagonal(inverse) && Measurable(a, r)
    ensures UpdateEstimate(Assemble(a), r, inverse, box).state == Assemble(Updated(a, r, box)).state
  {
    var e := Assemble(a);
    GainsOf(a, e.covariance, r, inverse);
    StateAs(a, e.state, Gain(e.covariance, r, inverse), Shrink(a, r), box);
  }

  lemma StateAs(a: Axes, x: Matrix, k: Matrix, g: Factors, box: Boxes.Box)
    requires Gains(k, a, g) && x == Assemble(a).state
    ensures ClampSize(CorrectState(x, k, Innovation(x, box))) == Assemble(Sized(Corrected(a, g, box))).state
  {
    var v := Innovation(x, box);
    forall i: nat | i < 8
      ensures At(CorrectState(x, k, v), i, 0) == StateEntry(Corrected(a, g, box), i)
    {
      InnovationAt(a, box, Coordinate(i));
      CorrectedStateEntry(a, x, k, v, g, box, i);
      CorrectedPartIs(a, g, box, i);
    }
    ClampedState(CorrectState(x, k, v), Corrected(a, g, box));
  }

  lemma CorrectedPartIs(a: Axes, g: Factors, box: Boxes.Box, i: nat)
    requires i < 8
    ensures CorrectedPart(a, g, box, i) == StateEntry(Corrected(a, g, box), i)
  {
    if i < 4 {
      assert Corrected(a, g, box)[i] == a[i].Corrected(g[i], Measured(box, i));
      CorrectedFields(a[i], g[i], Measured(box, i));
    } else {
      assert Corrected(a, g, box)[i - 4] == a[i - 4].Corrected(g[i - 4], Measured(box, i - 4));
      CorrectedFields(a[i - 4], g[i - 4], Measured(box, i - 4));
    }
  }

  lemma CorrectedFields(b: Axis, g: real, z: real)
    ensures b.Corrected(g, z).pos == b.pos + b.pp * g * (z - b.pos)
    ensures b.Corrected(g, z).vel == b.vel + b.pv * g * (z - b.pos)
  {
  }

  /** A measurement acts on the four coordinates separately. */
  lemma {:induction false} UpdateDecouples(a: Axes, r: real, inverse: Inverse, box: Boxes.Box)
    requires InvertsDiagonal(inverse) && Measurable(a, r)
    ensures UpdateEstimate(Assemble(a), r, inverse, box) == Assemble(Updated(a, r, box))
  {
    UpdatedState(a, r, inverse, box);
    UpdatedCovariance(a, r, inverse, box);
  }

  // ---------------------------------------------------------------- one coordinate

  lemma {:induction false} PredictionKeepsDefinite(b: Axis, q: real, dt: real)
    requires b.PositiveDefinite() && q > 0.0 && dt > 0.0
    ensures b.Predicted(q, dt).PositiveDefinite()
  {
    MoveKeepsDefinite(b, dt);
    PositiveProduct(q, dt);
    PositiveProduct(q * dt, dt);
    NoiseKeepsDefinite(b.Moved(dt), q * dt * dt, q * dt);
  }

  lemma PositiveProduct(x: real, y: real)
    requires x > 0.0 && y > 0.0
    ensures x * y > 0.0
  {
  }

  /** The move has determinant one, so the determinant of the covariance survives it. */
  lemma MoveKeepsDefinite(b: Axis, dt: real)
    requires b.PositiveDefinite()
    ensures b.Moved(dt).PositiveDefinite()
  {
    MoveDeterminant(b.pp, b.pv, b.vv, dt);
    PositiveFactor(b.Moved(dt).pp, b.vv, b.Moved(dt).pv);
  }

  lemma NoiseKeepsDefinite(b: Axis, m: real, n: real)
    requires b.PositiveDefinite() && m > 0.0 && n > 0.0
    ensures b.(pp := b.pp + m, vv := b.vv + n).PositiveDefinite()
  {
    NoiseDeterminant(b.pp, b.pv, b.vv, m, n);
  }

  lemma MoveDeterminant(pp: real, pv: real, vv: real, dt: real)
    ensures (pp + dt * pv + (pv + dt * vv) * dt) * vv - (pv + dt * vv) * (pv + dt * vv) == pp * vv - pv * pv
  {
    var w := dt * vv;
    assert (pp + dt * pv + (pv + w) * dt) * vv == pp * vv + dt * pv * vv + (pv + w) * w;
    assert (pv + w) * (pv + w) == pv * pv + pv * w + (pv + w) * w;
  }

  lemma PositiveFactor(x: real, y: real, z: real)
    requires x * y - z * z > 0.0 && y > 0.0
    ensures x > 0.0
  {
    assert z * z >= 0.0;
    assert x * y > 0.0;
  }

  lemma NoiseDeterminant(pp: real, pv: real, vv: real, m: real, n: real)
    requires pp > 0.0 && vv > 0.0 && m > 0.0 && n > 0.0
    requires pp * vv - pv * pv > 0.0
    ensures (pp + m) * (vv + n) - pv * pv > 0.0
  {
    assert (pp + m) * (vv + n) == pp * vv + pp * n + m * vv + m * n;
  }

  /** A measurement keeps the covariance definite, brings the position variance below the
      measurement noise (and below what it was), and never raises the velocity variance. */
  lemma CorrectionKeepsDefinite(b: Axis, r: real, g: real, z: real)
    requires b.PositiveDefinite() && r > 0.0 && g * (b.pp + r) == 1.0
    ensures var c := b.Corrected(g, z);
            && c.PositiveDefinite()
            && c.pp < r && c.pp < b.pp && c.vv <= b.vv
  {
    GainBetween(b.pp, r, g);
    var c := b.Corrected(g, z);
    CorrectionAlgebra(b.pp, b.pv, b.vv, r, g, c.pp, c.pv, c.vv);
  }

  lemma GainBetween(pp: real, r: real, g: real)
    requires pp > 0.0 && r > 0.0 && g * (pp + r) == 1.0
    ensures g > 0.0 && pp * g + r * g == 1.0 && 0.0 < pp * g < 1.0
  {
    assert g > 0.0;
    assert pp * g > 0.0 && r * g > 0.0;
  }

  lemma CorrectionAlgebra(pp: real, pv: real, vv: real, r: real, g: real, pp': real, pv': real, vv': real)
    requires pp > 0.0 && vv > 0.0 && r > 0.0 && g > 0.0 && pp * g + r * g == 1.0
    requires pp * vv - pv * pv > 0.0
    requires pp' == (1.0 - pp * g) * pp && pv' == (1.0 - pp * g) * pv && vv' == vv - pv * g * pv
    ensures 0.0 < pp' < r && pp' < pp && 0.0 < vv' <= vv
    ensures pp' * vv' - pv' * pv' > 0.0
  {
    var k, l, square := pp * g, r * g, pv * pv;
    assert k > 0.0 && l > 0.0 && pp' == l * pp && pv' == l * pv;
    assert vv' == vv - g * square && square >= 0.0;
    Shrinking(pp, r, g, k, l);
    Determinant(pp, pv, vv, g, k, l, square, vv');
  }

  lemma Shrinking(pp: real, r: real, g: real, k: real, l: real)
    requires pp > 0.0 && r > 0.0 && k == pp * g && l == r * g && k + l == 1.0 && k > 0.0 && l > 0.0
    ensures 0.0 < l * pp < r && l * pp < pp
  {
    assert l * pp == k * r;
    assert r - k * r == l * r > 0.0;
    assert pp - l * pp == k * pp > 0.0;
  }

  /** The determinant shrinks by the same factor as the position variance. */
  lemma Determinant(pp: real, pv: real, vv: real, g: real, k: real, l: real, square: real, vv': real)
    requires pp > 0.0 && vv > 0.0 && g > 0.0 && k == pp * g && k + l == 1.0 && k > 0.0 && l > 0.0
    requires square == pv * pv && pp * vv - square > 0.0 && vv' == vv - g * square
    ensures 0.0 < vv' <= vv
    ensures (l * pp) * vv' - (l * pv) * (l * pv) > 0.0
  {
    var d := pp * vv - square;
    assert g * square == k * vv - g * d;
    assert vv' == l * vv + g * d;
    assert pp * vv' == pp * vv - k * square;
    assert (l * pp) * vv' == l * (pp * vv');
    assert (l * pv) * (l * pv) == l * (l * square);
    assert l * (pp * vv') - l * (l * square) == l * d;
  }

  /** When prediction and measurement differ, the position moves strictly between them. */
  lemma CorrectionMovesInside(b: Axis, r: real, g: real, z: real)
    requires b.PositiveDefinite() && r > 0.0 && g * (b.pp + r) == 1.0 && z != b.pos
    ensures var c := b.Corrected(g, z);
            if z > b.pos then b.pos < c.pos < z else z < c.pos < b.pos
  {
    GainBetween(b.pp, r, g);
    StrictlyInside(b.pp * g, z - b.pos);
    assert b.Corrected(g, z).pos == b.pos + b.pp * g * (z - b.pos);
  }

  lemma StrictlyInside(k: real, d: real)
    requires 0.0 < k < 1.0 && d != 0.0
    ensures if d > 0.0 then 0.0 < k * d < d else d < k * d < 0.0
  {
    assert d - k * d == (1.0 - k) * d;
  }

  // ---------------------------------------------------------------- whole runs

  datatype Operation = Predict(elapsed: real) | Measure(box: Boxes.Box)

  function Run(start: Estimate, ops: seq<Operation>, q: real, r: real, inverse: Inverse): Estimate {
    if ops == [] then start
    else
      var before := Run(start, ops[..|ops| - 1], q, r, inverse);
      match ops[|ops| - 1]
      case Predict(elapsed) => PredictEstimate(before, q, elapsed)
      case Measure(box) => UpdateEstimate(before, r, inverse, box)
  }

  ghost predicate Definite(a: Axes) {
    forall i | 0 <= i < 4 :: a[i].PositiveDefinite()
  }

  ghost predicate BigEnough(a: Axes) {
    a[2].pos >= 1.0 && a[3].pos >= 1.0
  }

  lemma PredictedDefinite(a: Axes, q: real, elapsed: real)
    requires Definite(a) && q > 0.0
    ensures Definite(Predicted(a, q, elapsed)) && BigEnough(Predicted(a, q, elapsed))
  {
    var dt := Boxes.Max(elapsed, SHORTEST_STEP);
    var moved := Moved(a, q, dt);
    forall i | 0 <= i < 4
      ensures moved[i].PositiveDefinite()
    {
      PredictionKeepsDefinite(a[i], q, dt);
    }
    SizedDefinite(moved);
  }

  lemma SizedDefinite(a: Axes)
    requires Definite(a)
    ensures Definite(Sized(a)) && BigEnough(Sized(a))
  {
    assert Sized(a)[0] == a[0] && Sized(a)[1] == a[1] && Sized(a)[2] == a[2].AtLeastOne()
      && Sized(a)[3] == a[3].AtLeastOne();
  }

  lemma CorrectedDefinite(a: Axes, r: real, g: Factors, box: Boxes.Box)
    requires Definite(a) && r > 0.0
    requires forall i | 0 <= i < 4 :: g[i] * (a[i].pp + r) == 1.0
    ensures Definite(Corrected(a, g, box))
    ensures forall i | 0 <= i < 4 :: Corrected(a, g, box)[i].pp < r
  {
    forall i | 0 <= i < 4
      ensures Corrected(a, g, box)[i].PositiveDefinite() && Corrected(a, g, box)[i].pp < r
    {
      CorrectionKeepsDefinite(a[i], r, g[i], Measured(box, i));
    }
  }

  lemma UpdatedDefinite(a: Axes, r: real, box: Boxes.Box)
    requires Definite(a) && r > 0.0
    ensures Measurable(a, r)
    ensures Definite(Updated(a, r, box)) && BigEnough(Updated(a, r, box))
    ensures forall i | 0 <= i < 4 :: Updated(a, r, box)[i].pp < r
  {
    ShrinkInverts(a, r);
    CorrectedDefinite(a, r, Shrink(a, r), box);
    SizedDefinite(Corrected(a, Shrink(a, r), box));
  }

  lemma ShrinkInverts(a: Axes, r: real)
    requires Measurable(a, r)
    ensures forall i | 0 <= i < 4 :: Shrink(a, r)[i] * (a[i].pp + r) == 1.0
  {
    forall i | 0 <= i < 4
      ensures Shrink(a, r)[i] * (a[i].pp + r) == 1.0
    {
      assert Shrink(a, r)[i] == 1.0 / (a[i].pp + r);
    }
  }

  /** In an update the centre lands strictly between prediction and measurement. */
  lemma {:induction false} CentreMovesInside(a: Axes, r: real, box: Boxes.Box, i: nat)
    requires Definite(a) && r > 0.0 && Measurable(a, r)
    requires i < 2 && Measured(box, i) != a[i].pos
    ensures var after := Updated(a, r, box)[i].pos;
            if Measured(box, i) > a[i].pos then a[i].pos < after < Measured(box, i)
            else Measured(box, i) < after < a[i].pos
  {
    ShrinkInverts(a, r);
    var g := Shrink(a, r);
    CorrectionMovesInside(a[i], r, g[i], Measured(box, i));
    assert Updated(a, r, box)[i] == a[i].Corrected(g[i], Measured(box, i));
  }

  /** Every reachable state of the eight-dimensional filter is four small filters side by side:
      nothing couples the coordinates, every block is positive definite, and after the first
      operation width and height are at least one. */
  lemma {:induction false} ReachableStates(box: Boxes.Box, ops: seq<Operation>, q: real, r: real, inverse: Inverse)
    returns (a: Axes)
    requires q > 0.0 && r > 0.0 && InvertsDiagonal(inverse)
    ensures Run(Initial(box), ops, q, r, inverse) == Assemble(a)
    ensures Definite(a)
    ensures ops != [] ==> BigEnough(a)
    ensures ops != [] && ops[|ops| - 1].Measure? ==> forall i | 0 <= i < 4 :: a[i].pp < r
  {
    if ops == [] {
      a := InitialAxes(box);
      InitialDecouples(box);
    } else {
      var before := ReachableStates(box, ops[..|ops| - 1], q, r, inverse);
      match ops[|ops| - 1]
      case Predict(elapsed) =>
        PredictedDefinite(before, q, elapsed);
        PredictDecouples(before, q, elapsed);
        a := Predicted(before, q, elapsed);
      case Measure(measured) =>
        UpdatedDefinite(before, r, measured);
        UpdateDecouples(before, r, inverse, measured);
        a := Updated(before, r, measured);
    }
  }

  function InitialAxes(box: Boxes.Box): Axes {
    seq(4, i requires 0 <= i < 4 => Axis(Measured(box, i), 0.0, 10.0, 0.0, 100.0))
  }

  lemma InitialDecouples(box: Boxes.Box)
    ensures Initial(box) == Assemble(InitialAxes(box)) && Definite(InitialAxes(box))
  {
    SameEntries(Initial(box).state, Assemble(InitialAxes(box)).state, 8, 1);
    SameEntries(Initial(box).covariance, Assemble(InitialAxes(box)).covariance, 8, 8);
  }

  ghost predicate Symmetric(p: Matrix) {
    forall i: nat, j: nat | i < 8 && j < 8 :: At(p, i, j) == At(p, j, i)
  }

  /** No coordinate is correlated with another one. */
  ghost predicate Decoupled(p: Matrix) {
    forall i: nat, j: nat | i < 8 && j < 8 :: Coordinate(i) != Coordinate(j) ==> At(p, i, j) == 0.0
  }

  ghost predicate PositiveBlock(p: Matrix, i: nat) {
    && At(p, i, i) > 0.0 && At(p, i + 4, i + 4) > 0.0
    && At(p, i, i) * At(p, i + 4, i + 4) - At(p, i, i + 4) * At(p, i + 4, i) > 0.0
  }

  /** The same in terms of the matrix itself. */
  lemma {:induction false} ReachableCovariance(box: Boxes.Box, ops: seq<Operation>, q: real, r: real, inverse: Inverse)
    requires q > 0.0 && r > 0.0 && InvertsDiagonal(inverse)
    ensures var p := Run(Initial(box), ops, q, r, inverse).covariance;
            && Symmetric(p)
            && Decoupled(p)
            && forall i: nat | i < 4 :: PositiveBlock(p, i)
  {
    var a := ReachableStates(box, ops, q, r, inverse);
    AssembledShape(a);
    forall i: nat | i < 4
      ensures PositiveBlock(Assemble(a).covariance, i)
    {
      AssembledBlock(a, i);
    }
  }

  lemma AssembledShape(a: Axes)
    ensures Symmetric(Assemble(a).covariance) && Decoupled(Assemble(a).covariance)
  {
    var p := Assemble(a).covariance;
    forall i: nat, j: nat | i < 8 && j < 8
      ensures At(p, i, j) == CovarianceEntry(a, i, j) == CovarianceEntry(a, j, i)
    {
    }
  }

  lemma AssembledBlock(a: Axes, i: nat)
    requires Definite(a) && i < 4
    ensures PositiveBlock(Assemble(a).covariance, i)
  {
    assert a[i].PositiveDefinite();
    var p := Assemble(a).covariance;
    assert At(p, i, i) == a[i].pp && At(p, i + 4, i + 4) == a[i].vv;
    assert At(p, i, i + 4) == a[i].pv && At(p, i + 4, i) == a[i].pv;
  }
}
