/** Where the association of the tracker stops being the best one: a row of vehicles so long that
    giving up one of them costs less than keeping all. */
module AssociationLimit {
  import opened Assignment
  import Boxes
  import Kalman = KalmanFilter
  import Matrices
  import T = Tracking

  // ---------------------------------------------------------------- a row of boxes

  /** Boxes in a row, of which neighbours overlap by the ratio t. */
  function BoxAt(t: real, p: nat): Boxes.Box {
    Boxes.Box(p as real * (1.0 - t), 0.0, p as real * (1.0 - t) + 1.0 + t, 1.0)
  }

  /** What is left of the overlap after a shift by k places. */
  function Left(t: real, k: nat): real {
    Boxes.Max(1.0 + t - k as real * (1.0 - t), 0.0)
  }

  lemma OverlapInRow(t: real, p: nat, k: nat)
    requires 0.0 < t < 1.0
    ensures Boxes.OverlapArea(BoxAt(t, p), BoxAt(t, p + k)) == Left(t, k)
    ensures BoxAt(t, p).Area() == 1.0 + t
  {
    var a, b := BoxAt(t, p), BoxAt(t, p + k);
    assert b.x1 == a.x1 + k as real * (1.0 - t);
    ShiftNotNegative(t, k);
    assert Boxes.OverlapWidth(a, b) == Left(t, k) && Boxes.OverlapHeight(a, b) == 1.0;
  }

  lemma ProductNotNegative(a: real, b: real)
    requires a >= 0.0 && b >= 0.0
    ensures a * b >= 0.0
  {
  }

  lemma ShiftNotNegative(t: real, k: nat)
    requires 0.0 < t < 1.0
    ensures k as real * (1.0 - t) >= 0.0
    ensures k >= 2 ==> k as real * (1.0 - t) >= 2.0 - 2.0 * t
  {
    ProductNotNegative(k as real, 1.0 - t);
    if k >= 2 {
      var more := (k - 2) as real;
      ProductNotNegative(more, 1.0 - t);
      assert k as real == more + 2.0;
      assert (more + 2.0) * (1.0 - t) == more * (1.0 - t) + (2.0 - 2.0 * t);
    }
  }

  lemma RatioBelow(t: real, x: real)
    requires 0.0 < t < 1.0 && 0.0 <= x < 2.0 * t
    ensures x / (2.0 + 2.0 * t - x) < t
  {
    var u := 2.0 + 2.0 * t - x;
    assert x * (1.0 + t) < 2.0 * t * (1.0 + t);
    assert t * u == 2.0 * t * (1.0 + t) - t * x;
    assert x < t * u;
    QuotientLess(x, u, t);
  }

  lemma QuotientLess(x: real, u: real, t: real)
    requires u > 0.0 && x < t * u
    ensures x / u < t
  {
    var y := x / u;
    assert y * u == x && (y - t) * u == y * u - t * u;
    SignOfFactor(y - t, u);
  }

  lemma SignOfFactor(a: real, u: real)
    requires u > 0.0
    ensures a >= 0.0 ==> a * u >= 0.0
  {
  }

  lemma IouOfAreas(a: Boxes.Box, b: Boxes.Box, overlap: real, t: real)
    requires Boxes.OverlapArea(a, b) == overlap && a.Area() == b.Area() == 1.0 + t
    requires 0.0 <= overlap <= 1.0 + t && t > 0.0
    ensures Boxes.IntersectionOverUnion(a, b) == overlap / (2.0 + 2.0 * t - overlap)
  {
  }

  /** Equal boxes overlap fully, neighbours by t, all others by less. */
  lemma IouInRow(t: real, p: nat, k: nat)
    requires 0.0 < t < 1.0
    ensures var iou := Boxes.IntersectionOverUnion(BoxAt(t, p), BoxAt(t, p + k));
      && (k == 0 ==> iou == 1.0) && (k == 1 ==> iou == t) && (k >= 2 ==> iou < t)
  {
    OverlapInRow(t, p, k);
    OverlapInRow(t, p + k, 0);
    ShiftNotNegative(t, k);
    IouOfAreas(BoxAt(t, p), BoxAt(t, p + k), Left(t, k), t);
    RatioInRow(t, k, Left(t, k));
  }

  lemma RatioInRow(t: real, k: nat, left: real)
    requires 0.0 < t < 1.0 && left == Left(t, k)
    ensures k == 0 ==> left / (2.0 + 2.0 * t - left) == 1.0
    ensures k == 1 ==> left / (2.0 + 2.0 * t - left) == t
    ensures k >= 2 ==> left / (2.0 + 2.0 * t - left) < t
  {
    ShiftNotNegative(t, k);
    if k == 0 {
      assert left == 1.0 + t;
    } else if k == 1 {
      assert left == 2.0 * t;
    } else {
      RatioBelow(t, left);
    }
  }

  // ---------------------------------------------------------------- two frames

  function DetectionAt(t: real, p: nat): T.Detection {
    T.Detection(0, "car", 1.0, BoxAt(t, p))
  }

  /** Vehicles at the places from, from + 1, and so on. */
  function Row(t: real, from: nat, n: nat): seq<T.Detection> {
    seq(n, i requires 0 <= i < n => DetectionAt(t, from + i))
  }

  /** A new track stands where it was detected, also after a prediction. */
  lemma StandsStill(box: Boxes.Box, q: real, elapsed: real)
    requires box.Width() >= 1.0 && box.Height() >= 1.0
    ensures Kalman.PredictEstimate(Kalman.Initial(box), q, elapsed).Box() == box
  {
    var a := Kalman.InitialAxes(box);
    Kalman.InitialDecouples(box);
    Kalman.PredictDecouples(a, q, elapsed);
    var after := Kalman.Predicted(a, q, elapsed);
    assert after[0].pos == box.CenterX() && after[1].pos == box.CenterY();
    assert after[2].pos == box.Width() && after[3].pos == box.Height();
    StateOf(after, 0);
    StateOf(after, 1);
    StateOf(after, 2);
    StateOf(after, 3);
  }

  lemma StateOf(a: Kalman.Axes, i: nat)
    requires i < 4
    ensures Matrices.At(Kalman.Assemble(a).state, i, 0) == a[i].pos
  {
  }

  lemma {:induction false} AllHigh(ds: seq<T.Detection>, high: real)
    requires forall i | 0 <= i < |ds| :: ds[i].confidence >= high
    ensures T.AtLeast(ds, high) == ds
  {
    if ds != [] { AllHigh(ds[..|ds| - 1], high); }
  }

  lemma {:induction false} NoneTaken(n: nat)
    ensures T.Others({}, n) == T.Everyone(n)
  {
    if n > 0 { NoneTaken(n - 1); }
  }

  lemma {:induction false} PickEveryone<X>(xs: seq<X>)
    ensures T.Pick(xs, T.Everyone(|xs|)) == xs
  {
    T.PickAt(xs, T.Everyone(|xs|));
  }

  lemma {:induction false} AllSurvive(ts: seq<T.TrackValue>, s: T.Settings)
    requires forall i | 0 <= i < |ts| :: ts[i].missed == 0
    ensures T.Surviving(ts, s) == ts
  {
    if ts != [] { AllSurvive(ts[..|ts| - 1], s); }
  }

  /** In the first frame every detection of high confidence becomes a track. */
  lemma FirstFrame(ds: seq<T.Detection>, timestamp: real, s: T.Settings)
    requires s.Valid() && forall i | 0 <= i < |ds| :: ds[i].confidence >= s.highConfidence
    ensures T.Step(T.NoTracks, ds, timestamp, s) == T.State(T.Births(ds, 1, s, timestamp), 1 + |ds|)
  {
    var f := T.Associations(T.NoTracks, ds, timestamp, s);
    AllHigh(ds, s.highConfidence);
    assert f.predicted == [] && f.high == ds && f.primary == [];
    assert T.ColSet([]) == {} && T.RowSet([]) == {};
    NoneTaken(|ds|);
    PickEveryone(ds);
    assert f.stepped == [];
    assert f.all == T.Births(ds, 1, s, timestamp);
    AllSurvive(f.all, s);
  }

  ghost predicate StandAt(ts: seq<T.TrackValue>, t: real, from: nat) {
    forall i | 0 <= i < |ts| :: ts[i].classId == 0 && ts[i].filter.Box() == BoxAt(t, from + i)
  }

  /** A prediction leaves a new track where it is. */
  ghost predicate Stands(motion: Kalman.Motion, t: real) {
    forall p: nat, elapsed: real :: motion.predict(motion.start(BoxAt(t, p)), elapsed).Box() == BoxAt(t, p)
  }

  lemma KalmanStands(t: real, q: real, r: real, inverse: Kalman.Inverse)
    requires 0.0 < t < 1.0
    ensures Stands(Kalman.KalmanMotion(q, r, inverse), t)
  {
    var motion := Kalman.KalmanMotion(q, r, inverse);
    forall p: nat, elapsed: real
      ensures motion.predict(motion.start(BoxAt(t, p)), elapsed).Box() == BoxAt(t, p)
    {
      StandsStill(BoxAt(t, p), q, elapsed);
    }
  }

  /** So before the second frame is matched, the tracks stand where the vehicles were. */
  lemma TracksStand(t: real, n: nat, first: real, second: real, s: T.Settings)
    requires 0.0 < t < 1.0 && Stands(s.motion, t)
    ensures StandAt(T.PredictedAll(T.Births(Row(t, 1, n), 1, s, first), s, second), t, 1)
  {
    var born := T.Births(Row(t, 1, n), 1, s, first);
    forall i | 0 <= i < n
      ensures born[i].Predicted(s, second).classId == 0 && born[i].Predicted(s, second).filter.Box() == BoxAt(t, 1 + i)
    {
      assert born[i] == T.Born(s, 1 + i, DetectionAt(t, 1 + i), first);
    }
  }

  lemma SecondFrame(t: real, n: nat, first: real, second: real, s: T.Settings)
    requires s.Valid()
    ensures var f := T.Associations(T.Step(T.NoTracks, Row(t, 1, n), first, s), Row(t, 0, n), second, s);
      && f.predicted == T.PredictedAll(T.Births(Row(t, 1, n), 1, s, first), s, second) && f.high == Row(t, 0, n)
      && f.primary == T.Matches(f.predicted, f.high, s.primaryIou, s.solve)
  {
    FirstFrame(Row(t, 1, n), first, s);
    AllHigh(Row(t, 0, n), s.highConfidence);
  }

  // ---------------------------------------------------------------- the costs of the second frame

  lemma CostInRow(ts: seq<T.TrackValue>, t: real, n: nat, i: nat, j: nat)
    requires 0.0 < t < 1.0 && |ts| == n && StandAt(ts, t, 1) && i < n && j < n
    ensures var cost := T.PairCost(ts[i], DetectionAt(t, j), t);
      && (i == j ==> cost == 1.0 - t) && (j == i + 1 ==> cost == 0.0) && (j < i ==> cost == T.INVALID_ASSOCIATION_COST)
  {
    if j <= i + 1 {
      IouInRow(t, j, i + 1 - j);
      Boxes.IouRange(BoxAt(t, j), BoxAt(t, i + 1));
      assert j + (i + 1 - j) == 1 + i;
    }
  }

  lemma CostsAreStaircase(ts: seq<T.TrackValue>, t: real, n: nat)
    requires 0.0 < t < 1.0 && n > 0 && |ts| == n && StandAt(ts, t, 1)
    ensures Staircase(T.Costs(ts, Row(t, 0, n), t), T.INVALID_ASSOCIATION_COST, 1.0 - t)
  {
    var ds := Row(t, 0, n);
    var c := T.Costs(ts, ds, t);
    T.CostsPadded(ts, ds, t);
    forall i, j | 0 <= i < n && 0 <= j < n
      ensures (i == j ==> c[i][j] == 1.0 - t) && (j == i + 1 ==> c[i][j] == 0.0)
      ensures j < i ==> c[i][j] == T.INVALID_ASSOCIATION_COST
    {
      CostInRow(ts, t, n, i, j);
      assert ds[j] == DetectionAt(t, 0 + j);
    }
  }

  // ---------------------------------------------------------------- an optimal solver that gives up a pair

  lemma OptimalIsPossible(c: Matrix)
    requires Rectangular(c)
    ensures exists best :: Optimal(best, c)
  {
    var best := OptimalExists(c);
  }

  ghost function BestOf(c: Matrix): (a: seq<Pair>)
    ensures Rectangular(c) ==> Optimal(a, c)
  {
    if Rectangular(c) then
      OptimalIsPossible(c);
      var best :| Optimal(best, c);
      best
    else []
  }

  /** A solver with a given choice on one matrix. */
  ghost function SolverWith(c: Matrix, a: seq<Pair>): (solve: Solver)
    requires Optimal(a, c)
    ensures Solves(solve) && solve(c) == a
  {
    (x: Matrix) => if x == c then a else BestOf(x)
  }

  /** Beyond the bound, a solver may choose the assignment that gives up a pair. */
  lemma LosesPair(ts: seq<T.TrackValue>, t: real, n: nat) returns (solve: Solver)
    requires 0.0 < t < 1.0 && |ts| == n && StandAt(ts, t, 1)
    requires n as real * (1.0 - t) >= T.INVALID_ASSOCIATION_COST
    ensures Solves(solve) && !T.BestMatching(T.Matches(ts, Row(t, 0, n), t, solve), ts, Row(t, 0, n), t)
  {
    var ds := Row(t, 0, n);
    var c := T.Costs(ts, ds, t);
    CostsAreStaircase(ts, t, n);
    var a, b := StaircaseLosesPair(c, T.INVALID_ASSOCIATION_COST, 1.0 - t);
    solve := SolverWith(c, a);
    T.GenuineIsEligible(b, ts, ds, t);
  }

  /** Two frames that the tracker can receive: a row of vehicles, and the same row one place
      further back.  Once the number of vehicles times the largest eligible cost reaches the invalid
      cost, the matches of the second frame need not be a best matching. */
  lemma SecondFrameLosesPair(s: T.Settings, n: nat, first: real, second: real, q: real, r: real,
                             inverse: Kalman.Inverse)
    returns (solve: Solver)
    requires s.Valid() && s.motion == Kalman.KalmanMotion(q, r, inverse) && 0.0 < s.primaryIou < 1.0
    requires n as real * (1.0 - s.primaryIou) >= T.INVALID_ASSOCIATION_COST
    ensures s.(solve := solve).Valid() && SecondFrameFails(s.(solve := solve), n, first, second)
  {
    KalmanStands(s.primaryIou, q, r, inverse);
    solve := RowLosesPair(s, n, first, second);
  }

  ghost predicate SecondFrameFails(s: T.Settings, n: nat, first: real, second: real) {
    var before := T.Step(T.NoTracks, Row(s.primaryIou, 1, n), first, s);
    var f := T.Associations(before, Row(s.primaryIou, 0, n), second, s);
    |f.predicted| == |f.high| == n && !T.BestMatching(f.primary, f.predicted, f.high, s.primaryIou)
  }

  lemma RowLosesPair(s: T.Settings, n: nat, first: real, second: real) returns (solve: Solver)
    requires s.Valid() && 0.0 < s.primaryIou < 1.0 && Stands(s.motion, s.primaryIou)
    requires n as real * (1.0 - s.primaryIou) >= T.INVALID_ASSOCIATION_COST
    ensures s.(solve := solve).Valid() && SecondFrameFails(s.(solve := solve), n, first, second)
  {
    var t := s.primaryIou;
    var ts := T.PredictedAll(T.Births(Row(t, 1, n), 1, s, first), s, second);
    TracksStand(t, n, first, second, s);
    solve := LosesPair(ts, t, n);
    BirthsIgnoreSolver(Row(t, 1, n), 1, s, solve, first, second);
    SecondFrame(t, n, first, second, s.(solve := solve));
  }

  lemma BirthsIgnoreSolver(ds: seq<T.Detection>, next: nat, s: T.Settings, solve: Solver, first: real, second: real)
    ensures var k := s.(solve := solve);
      T.PredictedAll(T.Births(ds, next, k, first), k, second) == T.PredictedAll(T.Births(ds, next, s, first), s, second)
  {
  }

  /** Every matching of every frame of this size is a best one. */
  ghost predicate AlwaysBest(n: nat, minimumIou: real) {
    forall ts: seq<T.TrackValue>, ds: seq<T.Detection>, solve: Solver |
      Solves(solve) && Smaller(|ts|, |ds|) == n ::
        T.BestMatching(T.Matches(ts, ds, minimumIou, solve), ts, ds, minimumIou)
  }

  function StandingTrack(t: real, p: nat): T.TrackValue {
    T.TrackValue(p, 0, "car", 1.0, Kalman.Initial(BoxAt(t, p)), 0.0, 1, 1, 0, false)
  }

  lemma StandingBox(t: real, p: nat)
    requires 0.0 < t < 1.0
    ensures StandingTrack(t, p).filter.Box() == BoxAt(t, p)
  {
    var a := Kalman.InitialAxes(BoxAt(t, p));
    Kalman.InitialDecouples(BoxAt(t, p));
    StateOf(a, 0);
    StateOf(a, 1);
    StateOf(a, 2);
    StateOf(a, 3);
  }

  function StandingRow(t: real, n: nat): seq<T.TrackValue> {
    seq(n, i requires 0 <= i < n => StandingTrack(t, 1 + i))
  }

  lemma RowStands(t: real, n: nat)
    requires 0.0 < t < 1.0
    ensures StandAt(StandingRow(t, n), t, 1)
  {
    forall i | 0 <= i < n
      ensures StandingRow(t, n)[i].filter.Box() == BoxAt(t, 1 + i)
    {
      StandingBox(t, 1 + i);
    }
  }

  lemma BestWithin(n: nat, minimumIou: real)
    requires 0.0 <= minimumIou <= 1.0 && T.WithinBound(n, minimumIou)
    ensures AlwaysBest(n, minimumIou)
  {
    forall ts: seq<T.TrackValue>, ds: seq<T.Detection>, solve: Solver | Solves(solve) && Smaller(|ts|, |ds|) == n
      ensures T.BestMatching(T.Matches(ts, ds, minimumIou, solve), ts, ds, minimumIou)
    {
      T.AssociationIsBest(ts, ds, minimumIou, solve);
    }
  }

  lemma NotBestBeyond(n: nat, minimumIou: real)
    requires 0.0 < minimumIou < 1.0 && n as real * (1.0 - minimumIou) >= T.INVALID_ASSOCIATION_COST
    ensures !AlwaysBest(n, minimumIou)
  {
    var ts := StandingRow(minimumIou, n);
    RowStands(minimumIou, n);
    var solve := LosesPair(ts, minimumIou, n);
    assert Smaller(|ts|, |Row(minimumIou, 0, n)|) == n;
  }

  /** The bound is exact: matches of n tracks or detections are always best if and only if there is
      no threshold on the overlap, or n times the largest eligible cost stays below the invalid cost. */
  lemma {:induction false} BoundIsExact(n: nat, minimumIou: real)
    requires 0.0 <= minimumIou <= 1.0
    ensures AlwaysBest(n, minimumIou) <==> T.WithinBound(n, minimumIou)
  {
    if T.WithinBound(n, minimumIou) {
      BestWithin(n, minimumIou);
    } else {
      NotBestBeyond(n, minimumIou);
    }
  }
}
