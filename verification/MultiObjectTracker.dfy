/** Two-stage association of detections with tracks, and the life of a track. */
module Tracking {
  import opened Assignment
  import Boxes
  import Kalman = KalmanFilter

  const INVALID_ASSOCIATION_COST := 1000000.0

  datatype Detection = Detection(classId: int, className: string, confidence: real, box: Boxes.Box)

  datatype Settings = Settings(
    highConfidence: real, lowConfidence: real,
    primaryIou: real, secondaryIou: real,
    minimumHits: nat, maximumMissed: nat,
    motion: Kalman.Motion, solve: Solver)
  {
    ghost predicate Valid() {
      && 0.0 <= lowConfidence <= highConfidence <= 1.0
      && 0.0 <= primaryIou <= 1.0 && 0.0 <= secondaryIou <= 1.0
      && minimumHits > 0
      && Solves(solve)
    }
  }

  /** What there is to know about one track. */
  datatype TrackValue = TrackValue(
    trackId: nat, classId: int, className: string, confidence: real,
    filter: Kalman.Estimate, lastTimestamp: real,
    age: nat, hits: nat, missed: nat, confirmed: bool)
  {
    function Predicted(s: Settings, timestamp: real): TrackValue {
      this.(filter := s.motion.predict(filter, Boxes.Max(timestamp - lastTimestamp, 0.001)),
            lastTimestamp := timestamp, age := age + 1)
    }

    function Updated(s: Settings, d: Detection): TrackValue {
      this.(filter := s.motion.update(filter, d.box),
            confidence := d.confidence, hits := hits + 1, missed := 0)
    }

    function ConfirmedIfReady(s: Settings): TrackValue {
      this.(confirmed := confirmed || hits >= s.minimumHits)
    }

    /** Takes a detection over and is confirmed once it has enough hits. */
    function Refreshed(s: Settings, d: Detection): TrackValue {
      Updated(s, d).ConfirmedIfReady(s)
    }

    function Missed(): TrackValue { this.(missed := missed + 1) }
  }

  function Born(s: Settings, id: nat, d: Detection, timestamp: real): TrackValue {
    TrackValue(id, d.classId, d.className, d.confidence, s.motion.start(d.box), timestamp,
               1, 1, 0, s.minimumHits <= 1)
  }

  // ---------------------------------------------------------------- association

  ghost predicate Eligible(t: TrackValue, d: Detection, minimumIou: real) {
    t.classId == d.classId && Boxes.IntersectionOverUnion(t.filter.Box(), d.box) >= minimumIou
  }

  function PairCost(t: TrackValue, d: Detection, minimumIou: real): real {
    var iou := Boxes.IntersectionOverUnion(t.filter.Box(), d.box);
    if d.classId != t.classId || iou < minimumIou then INVALID_ASSOCIATION_COST else 1.0 - iou
  }

  function Costs(ts: seq<TrackValue>, ds: seq<Detection>, minimumIou: real): Matrix {
    seq(|ts|, i requires 0 <= i < |ts| =>
      seq(|ds|, j requires 0 <= j < |ds| => PairCost(ts[i], ds[j], minimumIou)))
  }

  function Matches(ts: seq<TrackValue>, ds: seq<Detection>, minimumIou: real, solve: Solver): seq<Pair> {
    if ts == [] || ds == [] then []
    else
      var c := Costs(ts, ds, minimumIou);
      Kept(solve(c), c, INVALID_ASSOCIATION_COST)
  }

  /** The naturals below n that are not in `taken`, in order. */
  function Others(taken: set<nat>, n: nat): seq<nat> {
    if n == 0 then []
    else Others(taken, n - 1) + (if n - 1 in taken then [] else [n - 1])
  }

  function RowSet(m: seq<Pair>): set<nat> {
    set p | p in m :: p.row
  }

  function ColSet(m: seq<Pair>): set<nat> {
    set p | p in m :: p.col
  }

  /** Pairs that may be matched, one to one. */
  ghost predicate EligibleMatching(m: seq<Pair>, ts: seq<TrackValue>, ds: seq<Detection>, minimumIou: real) {
    && Matching(m, |ts|, |ds|)
    && forall k | 0 <= k < |m| :: Eligible(ts[m[k].row], ds[m[k].col], minimumIou)
  }

  /** Total of 1 - IoU. */
  ghost function Dissimilarity(m: seq<Pair>, ts: seq<TrackValue>, ds: seq<Detection>): real
    requires Matching(m, |ts|, |ds|)
  {
    if m == [] then 0.0
    else
      var p := m[|m| - 1];
      Dissimilarity(m[..|m| - 1], ts, ds)
      + (1.0 - Boxes.IntersectionOverUnion(ts[p.row].filter.Box(), ds[p.col].box))
  }

  lemma CostsPadded(ts: seq<TrackValue>, ds: seq<Detection>, minimumIou: real)
    requires ts != [] && ds != [] && 0.0 <= minimumIou <= 1.0
    ensures Padded(Costs(ts, ds, minimumIou), INVALID_ASSOCIATION_COST, 1.0 - minimumIou)
  {
    var c := Costs(ts, ds, minimumIou);
    forall i, j | 0 <= i < |c| && 0 <= j < |c[0]|
      ensures 0.0 <= c[i][j] <= 1.0 - minimumIou || c[i][j] == INVALID_ASSOCIATION_COST
    {
      Boxes.IouRange(ts[i].filter.Box(), ds[j].box);
    }
  }

  lemma GenuineIsEligible(m: seq<Pair>, ts: seq<TrackValue>, ds: seq<Detection>, minimumIou: real)
    requires ts != [] && ds != []
    ensures Genuine(m, Costs(ts, ds, minimumIou), INVALID_ASSOCIATION_COST) <==> EligibleMatching(m, ts, ds, minimumIou)
  {
    var c := Costs(ts, ds, minimumIou);
    if Matching(m, |ts|, |ds|) {
      forall k | 0 <= k < |m|
        ensures At(c, m[k]) < INVALID_ASSOCIATION_COST <==> Eligible(ts[m[k].row], ds[m[k].col], minimumIou)
      {
        Boxes.IouRange(ts[m[k].row].filter.Box(), ds[m[k].col].box);
        assert At(c, m[k]) == PairCost(ts[m[k].row], ds[m[k].col], minimumIou);
      }
    }
  }

  lemma {:induction false} TotalIsDissimilarity(m: seq<Pair>, ts: seq<TrackValue>, ds: seq<Detection>, minimumIou: real)
    requires EligibleMatching(m, ts, ds, minimumIou)
    ensures Total(m, Costs(ts, ds, minimumIou)) == Dissimilarity(m, ts, ds)
  {
    if m != [] {
      var p := m[|m| - 1];
      TotalIsDissimilarity(m[..|m| - 1], ts, ds, minimumIou);
      assert Eligible(ts[p.row], ds[p.col], minimumIou);
      assert At(Costs(ts, ds, minimumIou), p) == PairCost(ts[p.row], ds[p.col], minimumIou);
    }
  }

  /** The matches are eligible and one to one, no eligible matching has more pairs, and none
      with as many pairs has a smaller total of 1 - IoU. */
  ghost predicate BestMatching(m: seq<Pair>, ts: seq<TrackValue>, ds: seq<Detection>, minimumIou: real) {
    && EligibleMatching(m, ts, ds, minimumIou)
    && forall b | EligibleMatching(b, ts, ds, minimumIou) ::
         |b| <= |m| && (|b| == |m| ==> Dissimilarity(m, ts, ds) <= Dissimilarity(b, ts, ds))
  }

  /** Small enough, or without a threshold on the overlap. */
  ghost predicate WithinBound(n: nat, minimumIou: real) {
    minimumIou == 0.0 || n as real * (1.0 - minimumIou) < INVALID_ASSOCIATION_COST
  }

  /** Within the bound the matches are a largest eligible matching, and one of least total 1 - IoU. */
  lemma {:induction false} AssociationIsBest(ts: seq<TrackValue>, ds: seq<Detection>, minimumIou: real, solve: Solver)
    requires Solves(solve) && 0.0 <= minimumIou <= 1.0
    requires WithinBound(Smaller(|ts|, |ds|), minimumIou)
    ensures BestMatching(Matches(ts, ds, minimumIou, solve), ts, ds, minimumIou)
  {
    if ts != [] && ds != [] {
      if minimumIou == 0.0 {
        BestOfClasses(ts, ds, solve);
      } else {
        BestOfCosts(ts, ds, minimumIou, solve);
      }
    } else {
      forall b | EligibleMatching(b, ts, ds, minimumIou)
        ensures b == []
      {
        MatchingFits(b, |ts|, |ds|);
      }
    }
  }

  lemma BestOfCosts(ts: seq<TrackValue>, ds: seq<Detection>, minimumIou: real, solve: Solver)
    requires Solves(solve) && ts != [] && ds != [] && 0.0 <= minimumIou <= 1.0
    requires Smaller(|ts|, |ds|) as real * (1.0 - minimumIou) < INVALID_ASSOCIATION_COST
    ensures BestMatching(Matches(ts, ds, minimumIou, solve), ts, ds, minimumIou)
  {
    CostsPadded(ts, ds, minimumIou);
    BestOfPadded(Costs(ts, ds, minimumIou), solve, Smaller(|ts|, |ds|), 1.0 - minimumIou);
    BestByCost(Matches(ts, ds, minimumIou, solve), ts, ds, minimumIou);
  }

  lemma BestOfPadded(c: Matrix, solve: Solver, n: nat, worst: real)
    requires Solves(solve) && Padded(c, INVALID_ASSOCIATION_COST, worst) && n == Smaller(|c|, |c[0]|)
    requires n as real * worst < INVALID_ASSOCIATION_COST
    ensures LargestAndCheapest(Kept(solve(c), c, INVALID_ASSOCIATION_COST), c, INVALID_ASSOCIATION_COST)
  {
    assert Optimal(solve(c), c);
    PaddingGivesLargestAndCheapest(solve(c), c, INVALID_ASSOCIATION_COST, worst);
  }

  ghost function ClassesOfTracks(ts: seq<TrackValue>): seq<int> {
    seq(|ts|, i requires 0 <= i < |ts| => ts[i].classId)
  }

  ghost function ClassesOf(ds: seq<Detection>): seq<int> {
    seq(|ds|, j requires 0 <= j < |ds| => ds[j].classId)
  }

  /** Without a threshold every pair of one class is eligible, and no bound is needed. */
  lemma BestOfClasses(ts: seq<TrackValue>, ds: seq<Detection>, solve: Solver)
    requires Solves(solve) && ts != [] && ds != []
    ensures BestMatching(Matches(ts, ds, 0.0, solve), ts, ds, 0.0)
  {
    var c := Costs(ts, ds, 0.0);
    CostsPadded(ts, ds, 0.0);
    assert Optimal(solve(c), c);
    forall i, j | 0 <= i < |c| && 0 <= j < |c[0]|
      ensures c[i][j] < INVALID_ASSOCIATION_COST <==> ClassesOfTracks(ts)[i] == ClassesOf(ds)[j]
    {
      Boxes.IouRange(ts[i].filter.Box(), ds[j].box);
    }
    GroupsNeedNoBound(solve(c), c, INVALID_ASSOCIATION_COST, 1.0, ClassesOfTracks(ts), ClassesOf(ds));
    BestByCost(Matches(ts, ds, 0.0, solve), ts, ds, 0.0);
  }

  lemma BestByCost(m: seq<Pair>, ts: seq<TrackValue>, ds: seq<Detection>, minimumIou: real)
    requires ts != [] && ds != []
    requires LargestAndCheapest(m, Costs(ts, ds, minimumIou), INVALID_ASSOCIATION_COST)
    ensures BestMatching(m, ts, ds, minimumIou)
  {
    GenuineIsEligible(m, ts, ds, minimumIou);
    TotalIsDissimilarity(m, ts, ds, minimumIou);
    forall b | EligibleMatching(b, ts, ds, minimumIou)
      ensures |b| <= |m| && (|b| == |m| ==> Dissimilarity(m, ts, ds) <= Dissimilarity(b, ts, ds))
    {
      GenuineIsEligible(b, ts, ds, minimumIou);
      TotalIsDissimilarity(b, ts, ds, minimumIou);
    }
  }

  /** Without the bound on the number of tracks and detections, the matches are still
      eligible and one to one. */
  lemma MatchesEligible(ts: seq<TrackValue>, ds: seq<Detection>, minimumIou: real, solve: Solver)
    requires Solves(solve)
    ensures EligibleMatching(Matches(ts, ds, minimumIou, solve), ts, ds, minimumIou)
  {
    if ts != [] && ds != [] {
      var c := Costs(ts, ds, minimumIou);
      assert Optimal(solve(c), c);
      KeptGenuine(solve(c), c, INVALID_ASSOCIATION_COST);
      GenuineIsEligible(Matches(ts, ds, minimumIou, solve), ts, ds, minimumIou);
    }
  }

  ghost predicate Increasing(s: seq<nat>) {
    forall i, j | 0 <= i < j < |s| :: s[i] < s[j]
  }

  /** `Others` lists exactly the missing indices, once each, in order. */
  lemma {:induction false} OthersComplete(taken: set<nat>, n: nat)
    ensures Increasing(Others(taken, n))
    ensures forall k: nat :: k in Others(taken, n) <==> k < n && k !in taken
  {
    if n > 0 {
      OthersComplete(taken, n - 1);
      var front := Others(taken, n - 1);
      assert forall k | 0 <= k < |front| :: front[k] in front;
    }
  }

  // ---------------------------------------------------------------- one frame, on values

  datatype State = State(tracks: seq<TrackValue>, nextTrackId: nat)

  function PredictedAll(ts: seq<TrackValue>, s: Settings, timestamp: real): seq<TrackValue> {
    seq(|ts|, i requires 0 <= i < |ts| => ts[i].Predicted(s, timestamp))
  }

  /** The named members, in order. */
  function Pick<T>(ts: seq<T>, who: seq<nat>): seq<T> {
    if who == [] then []
    else
      var last := who[|who| - 1];
      Pick(ts, who[..|who| - 1]) + (if last < |ts| then [ts[last]] else [])
  }

  /** Row r of the matches stands for item who[r]. */
  function Apply<T, D>(ts: seq<T>, m: seq<Pair>, who: seq<nat>, ds: seq<D>, change: (T, D) -> T): (r: seq<T>)
    ensures |r| == |ts|
  {
    if m == [] then ts
    else
      var p := m[|m| - 1];
      var before := Apply(ts, m[..|m| - 1], who, ds, change);
      if p.row < |who| && who[p.row] < |ts| && p.col < |ds| then
        before[who[p.row] := change(before[who[p.row]], ds[p.col])]
      else before
  }

  function Refresh(ts: seq<TrackValue>, m: seq<Pair>, who: seq<nat>, ds: seq<Detection>, s: Settings)
    : (r: seq<TrackValue>)
    ensures |r| == |ts|
  {
    Apply(ts, m, who, ds, Refresher(s))
  }

  function Refresher(s: Settings): (TrackValue, Detection) -> TrackValue {
    (t: TrackValue, d: Detection) => t.Refreshed(s, d)
  }

  function MissAll(ts: seq<TrackValue>, who: seq<nat>): (r: seq<TrackValue>)
    ensures |r| == |ts|
  {
    seq(|ts|, i requires 0 <= i < |ts| => if i in who then ts[i].Missed() else ts[i])
  }

  function Births(ds: seq<Detection>, next: nat, s: Settings, timestamp: real): seq<TrackValue> {
    seq(|ds|, k requires 0 <= k < |ds| => Born(s, next + k, ds[k], timestamp))
  }

  function Surviving(ts: seq<TrackValue>, s: Settings): seq<TrackValue> {
    if ts == [] then []
    else
      var front := Surviving(ts[..|ts| - 1], s);
      if ts[|ts| - 1].missed > s.maximumMissed then front else front + [ts[|ts| - 1]]
  }

  /** The ids of the others, in order. */
  function RemovedIds(ts: seq<TrackValue>, s: Settings): seq<nat> {
    if ts == [] then []
    else
      var front := RemovedIds(ts[..|ts| - 1], s);
      if ts[|ts| - 1].missed > s.maximumMissed then front + [ts[|ts| - 1].trackId] else front
  }

  /** The tracks that were seen in this very frame. */
  function Seen(ts: seq<TrackValue>): seq<TrackValue> {
    if ts == [] then []
    else
      var front := Seen(ts[..|ts| - 1]);
      if ts[|ts| - 1].missed == 0 then front + [ts[|ts| - 1]] else front
  }

  function Between(ds: seq<Detection>, low: real, high: real): seq<Detection> {
    if ds == [] then []
    else
      var front := Between(ds[..|ds| - 1], low, high);
      if low <= ds[|ds| - 1].confidence < high then front + [ds[|ds| - 1]] else front
  }

  function AtLeast(ds: seq<Detection>, high: real): seq<Detection> {
    if ds == [] then []
    else
      var front := AtLeast(ds[..|ds| - 1], high);
      if ds[|ds| - 1].confidence >= high then front + [ds[|ds| - 1]] else front
  }

  /** The intermediate results of one frame. */
  datatype Frame = Frame(
    predicted: seq<TrackValue>, high: seq<Detection>, low: seq<Detection>,
    primary: seq<Pair>, refreshed: seq<TrackValue>, remaining: seq<nat>, newborn: seq<nat>,
    secondary: seq<Pair>, lost: seq<nat>, stepped: seq<TrackValue>, all: seq<TrackValue>)

  function Everyone(n: nat): seq<nat> {
    seq(n, i requires 0 <= i < n => i)
  }

  ghost function Associations(before: State, ds: seq<Detection>, timestamp: real, s: Settings): Frame {
    var predicted := PredictedAll(before.tracks, s, timestamp);
    var high, low := AtLeast(ds, s.highConfidence), Between(ds, s.lowConfidence, s.highConfidence);
    var primary := Matches(predicted, high, s.primaryIou, s.solve);
    var refreshed := Refresh(predicted, primary, Everyone(|predicted|), high, s);
    var remaining := Others(RowSet(primary), |predicted|);
    var newborn := Others(ColSet(primary), |high|);
    var secondary := Matches(Pick(refreshed, remaining), low, s.secondaryIou, s.solve);
    var lost := Others(RowSet(secondary), |remaining|);
    var stepped := MissAll(Refresh(refreshed, secondary, remaining, low, s), Pick(remaining, lost));
    Frame(predicted, high, low, primary, refreshed, remaining, newborn, secondary, lost, stepped,
          stepped + Births(Pick(high, newborn), before.nextTrackId, s, timestamp))
  }

  /** What a frame starts from and ends with. */
  ghost predicate IsFrame(f: Frame, before: State, ds: seq<Detection>, timestamp: real, s: Settings) {
    && f.predicted == PredictedAll(before.tracks, s, timestamp)
    && f.high == AtLeast(ds, s.highConfidence) && f.low == Between(ds, s.lowConfidence, s.highConfidence)
    && f.all == f.stepped + Births(Pick(f.high, f.newborn), before.nextTrackId, s, timestamp)
  }

  /** How a frame changes the tracks. */
  ghost predicate Advances(f: Frame, s: Settings) {
    && f.refreshed == Refresh(f.predicted, f.primary, Everyone(|f.predicted|), f.high, s)
    && f.stepped == MissAll(Refresh(f.refreshed, f.secondary, f.remaining, f.low, s), Pick(f.remaining, f.lost))
  }

  ghost function Step(before: State, ds: seq<Detection>, timestamp: real, s: Settings): State {
    var f := Associations(before, ds, timestamp, s);
    State(Surviving(f.all, s), before.nextTrackId + |Pick(f.high, f.newborn)|)
  }

  // ---------------------------------------------------------------- every track has one fate

  ghost predicate Names(who: seq<nat>, n: nat) {
    Increasing(who) && forall k | 0 <= k < |who| :: who[k] < n
  }

  lemma {:induction false} PickAt<T>(ts: seq<T>, who: seq<nat>)
    requires forall k | 0 <= k < |who| :: who[k] < |ts|
    ensures |Pick(ts, who)| == |who| && forall k | 0 <= k < |who| :: Pick(ts, who)[k] == ts[who[k]]
  {
    if who != [] { PickAt(ts, who[..|who| - 1]); }
  }

  lemma {:induction false} ApplyUntouched<T, D>(ts: seq<T>, m: seq<Pair>, who: seq<nat>, ds: seq<D>,
                                                change: (T, D) -> T, i: nat)
    requires i < |ts|
    requires forall k | 0 <= k < |m| :: m[k].row < |who| ==> who[m[k].row] != i
    ensures Apply(ts, m, who, ds, change)[i] == ts[i]
  {
    if m != [] { ApplyUntouched(ts, m[..|m| - 1], who, ds, change, i); }
  }

  lemma NamesInjective(who: seq<nat>, n: nat, a: nat, b: nat)
    requires Names(who, n) && a < |who| && b < |who| && who[a] == who[b]
    ensures a == b
  {
    assert !(a < b) && !(b < a);
  }

  lemma MatchingInjective(m: seq<Pair>, rows: nat, cols: nat, a: nat, b: nat)
    requires Matching(m, rows, cols) && a < |m| && b < |m|
    requires m[a].row == m[b].row || m[a].col == m[b].col
    ensures a == b
  {
    assert !(a < b) && !(b < a);
  }

  lemma {:induction false} ApplyTouched<T, D>(ts: seq<T>, m: seq<Pair>, who: seq<nat>, ds: seq<D>,
                                              change: (T, D) -> T, k: nat, i: nat)
    requires Matching(m, |who|, |ds|) && Names(who, |ts|) && k < |m| && who[m[k].row] == i
    ensures Apply(ts, m, who, ds, change)[i] == change(ts[i], ds[m[k].col])
  {
    var last := |m| - 1;
    var front := m[..last];
    if k < last {
      assert front[k] == m[k];
      ApplyTouched(ts, front, who, ds, change, k, i);
      OtherRow(m, who, |ts|, |ds|, last, k);
    } else {
      forall l | 0 <= l < last
        ensures who[front[l].row] != i
      {
        assert front[l] == m[l];
        OtherRow(m, who, |ts|, |ds|, l, k);
      }
      ApplyUntouched(ts, front, who, ds, change, i);
    }
  }

  lemma OtherRow(m: seq<Pair>, who: seq<nat>, n: nat, cols: nat, a: nat, b: nat)
    requires Matching(m, |who|, cols) && Names(who, n) && a < |m| && b < |m| && a != b
    ensures who[m[a].row] != who[m[b].row]
  {
  }

  /** What can happen to a track in one frame. */
  datatype Fate = ByHigh(detection: nat) | ByLow(detection: nat) | Unseen

  ghost predicate Remains(f: Frame, i: nat, r: nat) {
    r < |f.remaining| && f.remaining[r] == i
  }

  ghost predicate HasFate(f: Frame, i: nat, fate: Fate) {
    match fate
    case ByHigh(j) => Pair(i, j) in f.primary
    case ByLow(j) => exists r :: Remains(f, i, r) && Pair(r, j) in f.secondary
    case Unseen => exists r :: Remains(f, i, r) && r in f.lost
  }

  function Meet(t: TrackValue, fate: Fate, f: Frame, s: Settings): TrackValue {
    match fate
    case ByHigh(j) => if j < |f.high| then t.Refreshed(s, f.high[j]) else t
    case ByLow(j) => if j < |f.low| then t.Refreshed(s, f.low[j]) else t
    case Unseen => t.Missed()
  }

  /** How the pieces of a frame fit together. */
  ghost predicate WellFormed(f: Frame) {
    && Matching(f.primary, |f.predicted|, |f.high|)
    && Names(f.remaining, |f.predicted|)
    && (forall i: nat :: i in f.remaining <==> i < |f.predicted| && i !in RowSet(f.primary))
    && Matching(f.secondary, |f.remaining|, |f.low|)
    && Names(f.lost, |f.remaining|)
    && (forall r: nat :: r in f.lost <==> r < |f.remaining| && r !in RowSet(f.secondary))
    && Names(f.newborn, |f.high|)
    && (forall j: nat :: j in f.newborn <==> j < |f.high| && j !in ColSet(f.primary))
  }

  /** How the pieces of a frame were found. */
  ghost predicate Linked(f: Frame, s: Settings) {
    && |f.refreshed| == |f.predicted|
    && f.primary == Matches(f.predicted, f.high, s.primaryIou, s.solve)
    && f.remaining == Others(RowSet(f.primary), |f.predicted|)
    && f.newborn == Others(ColSet(f.primary), |f.high|)
    && f.secondary == Matches(Pick(f.refreshed, f.remaining), f.low, s.secondaryIou, s.solve)
    && f.lost == Others(RowSet(f.secondary), |f.remaining|)
  }

  lemma LinkedWellFormed(f: Frame, s: Settings)
    requires s.Valid() && Linked(f, s)
    ensures WellFormed(f)
  {
    MatchesEligible(f.predicted, f.high, s.primaryIou, s.solve);
    OthersNames(RowSet(f.primary), |f.predicted|);
    OthersNames(ColSet(f.primary), |f.high|);
    OthersNames(RowSet(f.secondary), |f.remaining|);
    PickAt(f.refreshed, f.remaining);
    MatchesEligible(Pick(f.refreshed, f.remaining), f.low, s.secondaryIou, s.solve);
  }

  lemma LinkedFits(f: Frame, s: Settings)
    requires s.Valid() && Linked(f, s)
    ensures Matching(f.primary, |f.predicted|, |f.high|)
    ensures Names(f.remaining, |f.predicted|)
    ensures Matching(f.secondary, |f.remaining|, |f.low|)
  {
    LinkedWellFormed(f, s);
  }

  lemma AssociationsWellFormed(before: State, ds: seq<Detection>, timestamp: real, s: Settings)
    requires s.Valid()
    ensures WellFormed(Associations(before, ds, timestamp, s))
  {
    LinkedWellFormed(Associations(before, ds, timestamp, s), s);
  }

  lemma OthersNames(taken: set<nat>, n: nat)
    ensures Names(Others(taken, n), n)
    ensures forall k: nat :: k in Others(taken, n) <==> k < n && k !in taken
  {
    OthersComplete(taken, n);
    var o := Others(taken, n);
    assert forall k | 0 <= k < |o| :: o[k] in o;
  }

  /** Every track has exactly one fate. */
  lemma OneFate(f: Frame, i: nat) returns (fate: Fate)
    requires WellFormed(f) && i < |f.predicted|
    ensures HasFate(f, i, fate)
    ensures forall other | HasFate(f, i, other) :: other == fate
  {
    if i in RowSet(f.primary) {
      var k :| 0 <= k < |f.primary| && f.primary[k].row == i;
      fate := ByHigh(f.primary[k].col);
      assert Pair(i, f.primary[k].col) == f.primary[k];
      forall j | Pair(i, j) in f.primary
        ensures j == f.primary[k].col
      {
        SameRow(f.primary, |f.predicted|, |f.high|, Pair(i, j), f.primary[k]);
      }
      assert i !in f.remaining;
    } else {
      assert i in f.remaining;
      var r :| 0 <= r < |f.remaining| && f.remaining[r] == i;
      fate := RemainingFate(f, i, r);
    }
  }

  lemma SameRow(m: seq<Pair>, rows: nat, cols: nat, p: Pair, q: Pair)
    requires Matching(m, rows, cols) && p in m && q in m && (p.row == q.row || p.col == q.col)
    ensures p == q
  {
    var a :| 0 <= a < |m| && m[a] == p;
    var b :| 0 <= b < |m| && m[b] == q;
    MatchingInjective(m, rows, cols, a, b);
  }

  lemma RemainingFate(f: Frame, i: nat, r: nat) returns (fate: Fate)
    requires WellFormed(f) && Remains(f, i, r)
    ensures HasFate(f, i, fate)
    ensures forall other | HasFate(f, i, other) :: other == fate
  {
    assert i in f.remaining;
    forall r' | Remains(f, i, r')
      ensures r' == r
    {
      NamesInjective(f.remaining, |f.predicted|, r, r');
    }
    assert forall p | p in f.primary :: p.row in RowSet(f.primary);
    assert forall j :: Pair(i, j) in f.primary ==> Pair(i, j).row in RowSet(f.primary);
    if r in RowSet(f.secondary) {
      var k :| 0 <= k < |f.secondary| && f.secondary[k].row == r;
      fate := ByLow(f.secondary[k].col);
      assert Pair(r, f.secondary[k].col) == f.secondary[k];
      forall j | Pair(r, j) in f.secondary
        ensures j == f.secondary[k].col
      {
        SameRow(f.secondary, |f.remaining|, |f.low|, Pair(r, j), f.secondary[k]);
      }
    } else {
      fate := Unseen;
    }
  }

  /** No detection serves two tracks, and a track is born exactly from the high-confidence
      detections that serve none. */
  lemma {:induction false} DetectionsUsedOnce(f: Frame, i: nat, i': nat, fate: Fate)
    requires WellFormed(f) && HasFate(f, i, fate) && HasFate(f, i', fate) && fate != Unseen
    ensures i == i'
  {
    match fate
    case ByHigh(j) =>
      SameRow(f.primary, |f.predicted|, |f.high|, Pair(i, j), Pair(i', j));
    case ByLow(j) =>
      var r :| Remains(f, i, r) && Pair(r, j) in f.secondary;
      var r' :| Remains(f, i', r') && Pair(r', j) in f.secondary;
      SameRow(f.secondary, |f.remaining|, |f.low|, Pair(r, j), Pair(r', j));
  }

  lemma NewbornsUnclaimed(f: Frame, j: nat)
    requires WellFormed(f) && j < |f.high|
    ensures j in f.newborn <==> forall i :: !HasFate(f, i, ByHigh(j))
  {
    if j in ColSet(f.primary) {
      var p :| p in f.primary && p.col == j;
      assert p == Pair(p.row, j) && HasFate(f, p.row, ByHigh(j));
    } else {
      assert forall p | p in f.primary :: p.col in ColSet(f.primary);
      assert forall i: nat :: Pair(i, j) in f.primary ==> Pair(i, j).col in ColSet(f.primary);
    }
  }

  /** The fate of a track decides its value after the frame. */
  lemma {:induction false} FateDecides(before: State, ds: seq<Detection>, timestamp: real, s: Settings, i: nat,
                                       fate: Fate)
    requires s.Valid()
    requires var f := Associations(before, ds, timestamp, s); i < |f.predicted| && HasFate(f, i, fate)
    ensures var f := Associations(before, ds, timestamp, s);
            |f.stepped| == |f.predicted| && f.stepped[i] == Meet(f.predicted[i], fate, f, s)
  {
    var f := Associations(before, ds, timestamp, s);
    AssociationsWellFormed(before, ds, timestamp, s);
    var everyone := Everyone(|f.predicted|);
    var refreshed := Refresh(f.predicted, f.primary, everyone, f.high, s);
    match fate
    case ByHigh(j) =>
      PrimaryFate(f, Refresher(s), i, j);
    case ByLow(j) =>
      var r :| Remains(f, i, r) && Pair(r, j) in f.secondary;
      SecondaryFate(f, Refresher(s), refreshed, i, r, j);
      UntouchedByPrimary(f, Refresher(s), i, r);
    case Unseen =>
      var r :| Remains(f, i, r) && r in f.lost;
      UntouchedByPrimary(f, Refresher(s), i, r);
      LostFate(f, Refresher(s), refreshed, i, r);
  }

  lemma UntouchedByPrimary(f: Frame, change: (TrackValue, Detection) -> TrackValue, i: nat, r: nat)
    requires WellFormed(f) && Remains(f, i, r)
    ensures Apply(f.predicted, f.primary, Everyone(|f.predicted|), f.high, change)[i] == f.predicted[i]
  {
    assert i in f.remaining;
    assert forall k | 0 <= k < |f.primary| :: f.primary[k].row in RowSet(f.primary);
    ApplyUntouched(f.predicted, f.primary, Everyone(|f.predicted|), f.high, change, i);
  }

  lemma PrimaryFate(f: Frame, change: (TrackValue, Detection) -> TrackValue, i: nat, j: nat)
    requires WellFormed(f) && Pair(i, j) in f.primary
    ensures var refreshed := Apply(f.predicted, f.primary, Everyone(|f.predicted|), f.high, change);
            && j < |f.high|
            && Apply(refreshed, f.secondary, f.remaining, f.low, change)[i] == change(f.predicted[i], f.high[j])
            && i !in Pick(f.remaining, f.lost)
  {
    var refreshed := Apply(f.predicted, f.primary, Everyone(|f.predicted|), f.high, change);
    var k :| 0 <= k < |f.primary| && f.primary[k] == Pair(i, j);
    ApplyTouched(f.predicted, f.primary, Everyone(|f.predicted|), f.high, change, k, i);
    assert Pair(i, j).row in RowSet(f.primary);
    assert forall l | 0 <= l < |f.remaining| :: f.remaining[l] in f.remaining;
    ApplyUntouched(refreshed, f.secondary, f.remaining, f.low, change, i);
    PickAt(f.remaining, f.lost);
  }

  lemma SecondaryFate(f: Frame, change: (TrackValue, Detection) -> TrackValue, ts: seq<TrackValue>, i: nat, r: nat,
                      j: nat)
    requires WellFormed(f) && Remains(f, i, r) && Pair(r, j) in f.secondary && |ts| == |f.predicted|
    ensures j < |f.low|
    ensures Apply(ts, f.secondary, f.remaining, f.low, change)[i] == change(ts[i], f.low[j])
    ensures i !in Pick(f.remaining, f.lost)
  {
    var k :| 0 <= k < |f.secondary| && f.secondary[k] == Pair(r, j);
    ApplyTouched(ts, f.secondary, f.remaining, f.low, change, k, i);
    assert Pair(r, j).row in RowSet(f.secondary);
    PickAt(f.remaining, f.lost);
    forall l | 0 <= l < |f.lost|
      ensures f.remaining[f.lost[l]] != i
    {
      assert f.lost[l] in f.lost;
      OtherName(f.remaining, |f.predicted|, f.lost[l], r);
    }
  }

  lemma OtherName(who: seq<nat>, n: nat, a: nat, b: nat)
    requires Names(who, n) && a < |who| && b < |who| && a != b
    ensures who[a] != who[b]
  {
  }

  lemma LostFate(f: Frame, change: (TrackValue, Detection) -> TrackValue, ts: seq<TrackValue>, i: nat, r: nat)
    requires WellFormed(f) && Remains(f, i, r) && r in f.lost && |ts| == |f.predicted|
    ensures Apply(ts, f.secondary, f.remaining, f.low, change)[i] == ts[i]
    ensures i in Pick(f.remaining, f.lost)
  {
    forall k | 0 <= k < |f.secondary|
      ensures f.remaining[f.secondary[k].row] != i
    {
      assert f.secondary[k].row in RowSet(f.secondary);
      OtherName(f.remaining, |f.predicted|, f.secondary[k].row, r);
    }
    ApplyUntouched(ts, f.secondary, f.remaining, f.low, change, i);
    PickAt(f.remaining, f.lost);
    var l :| 0 <= l < |f.lost| && f.lost[l] == r;
    assert Pick(f.remaining, f.lost)[l] == i;
  }

  // ---------------------------------------------------------------- every run

  /** What holds of one track, always. */
  ghost predicate SoundTrack(t: TrackValue, s: Settings) {
    && 1 <= t.hits <= t.age
    && (t.confirmed <==> t.hits >= s.minimumHits)
  }

  ghost predicate Ordered(ts: seq<TrackValue>, next: nat) {
    && (forall i | 0 <= i < |ts| :: 1 <= ts[i].trackId < next)
    && (forall i, j | 0 <= i < j < |ts| :: ts[i].trackId < ts[j].trackId)
  }

  ghost predicate Sound(st: State, s: Settings) {
    && st.nextTrackId >= 1
    && Ordered(st.tracks, st.nextTrackId)
    && forall i | 0 <= i < |st.tracks| :: SoundTrack(st.tracks[i], s) && st.tracks[i].missed <= s.maximumMissed
  }

  /** t' is t some frames later. */
  ghost predicate Continues(t: TrackValue, t': TrackValue) {
    && t'.trackId == t.trackId && t'.classId == t.classId && t'.className == t.className
    && (t.confirmed ==> t'.confirmed)
    && t.hits <= t'.hits && t.age <= t'.age && t'.hits - t.hits <= t'.age - t.age
  }

  lemma MeetContinues(t: TrackValue, fate: Fate, f: Frame, timestamp: real, s: Settings)
    requires SoundTrack(t, s)
    ensures Continues(t, Meet(t.Predicted(s, timestamp), fate, f, s))
    ensures SoundTrack(Meet(t.Predicted(s, timestamp), fate, f, s), s)
  {
  }

  lemma SurvivingSnoc(ts: seq<TrackValue>, k: nat, s: Settings)
    requires k < |ts|
    ensures Surviving(ts[..k + 1], s)
         == Surviving(ts[..k], s) + (if ts[k].missed > s.maximumMissed then [] else [ts[k]])
    ensures RemovedIds(ts[..k + 1], s)
         == RemovedIds(ts[..k], s) + (if ts[k].missed > s.maximumMissed then [ts[k].trackId] else [])
  {
    assert ts[..k + 1][..k] == ts[..k];
  }

  lemma {:induction false} SurvivingMembers(ts: seq<TrackValue>, s: Settings)
    ensures forall t :: t in Surviving(ts, s) <==> t in ts && t.missed <= s.maximumMissed
  {
    if ts != [] {
      SurvivingMembers(ts[..|ts| - 1], s);
      assert ts == ts[..|ts| - 1] + [ts[|ts| - 1]];
    }
  }

  lemma {:induction false} SurvivingOrdered(ts: seq<TrackValue>, s: Settings, next: nat)
    requires Ordered(ts, next)
    ensures Ordered(Surviving(ts, s), next) && |Surviving(ts, s)| <= |ts|
    ensures ts != [] && Surviving(ts, s) != [] ==>
              Surviving(ts, s)[|Surviving(ts, s)| - 1].trackId <= ts[|ts| - 1].trackId
  {
    if ts != [] {
      var front := ts[..|ts| - 1];
      SurvivingOrdered(front, s, next);
      if Surviving(front, s) != [] {
        assert front[|front| - 1].trackId < ts[|ts| - 1].trackId;
      }
    }
  }

  /** One frame: every track before the frame lives on at its place, then come the newborns. */
  ghost predicate FrameSound(before: State, all: seq<TrackValue>, s: Settings) {
    && |before.tracks| <= |all|
    && Ordered(all, before.nextTrackId + |all| - |before.tracks|)
    && (forall i | 0 <= i < |all| :: SoundTrack(all[i], s))
    && (forall i | 0 <= i < |before.tracks| :: Continues(before.tracks[i], all[i]))
    && (forall i | |before.tracks| <= i < |all| :: all[i].trackId >= before.nextTrackId)
  }

  lemma SteppedContinues(before: State, ds: seq<Detection>, timestamp: real, s: Settings, i: nat)
    requires s.Valid() && Sound(before, s) && i < |before.tracks|
    ensures var f := Associations(before, ds, timestamp, s);
            && |f.stepped| == |before.tracks|
            && Continues(before.tracks[i], f.stepped[i]) && SoundTrack(f.stepped[i], s)
  {
    var f := Associations(before, ds, timestamp, s);
    AssociationsWellFormed(before, ds, timestamp, s);
    var fate := OneFate(f, i);
    FateDecides(before, ds, timestamp, s, i, fate);
    MeetContinues(before.tracks[i], fate, f, timestamp, s);
  }

  lemma AllSound(before: State, ds: seq<Detection>, timestamp: real, s: Settings)
    requires s.Valid() && Sound(before, s)
    ensures FrameSound(before, Associations(before, ds, timestamp, s).all, s)
    ensures |Associations(before, ds, timestamp, s).all|
         == |before.tracks| + |Pick(Associations(before, ds, timestamp, s).high,
           Associations(before, ds, timestamp, s).newborn)|
  {
    var f := Associations(before, ds, timestamp, s);
    forall i: nat | i < |before.tracks|
      ensures |f.stepped| == |before.tracks|
      ensures Continues(before.tracks[i], f.stepped[i]) && SoundTrack(f.stepped[i], s)
    {
      SteppedContinues(before, ds, timestamp, s, i);
    }
    BirthsSound(Pick(f.high, f.newborn), before.nextTrackId, s, timestamp);
    AppendOrdered(before, f.stepped, Births(Pick(f.high, f.newborn), before.nextTrackId, s, timestamp), s);
  }

  lemma BirthsSound(ds: seq<Detection>, next: nat, s: Settings, timestamp: real)
    requires s.Valid()
    ensures var b := Births(ds, next, s, timestamp);
            forall k | 0 <= k < |b| :: b[k].trackId == next + k && SoundTrack(b[k], s)
  {
  }

  lemma AppendOrdered(before: State, stepped: seq<TrackValue>, born: seq<TrackValue>, s: Settings)
    requires Sound(before, s) && |stepped| == |before.tracks|
    requires forall i | 0 <= i < |stepped| :: Continues(before.tracks[i], stepped[i]) && SoundTrack(stepped[i], s)
    requires forall k | 0 <= k < |born| :: born[k].trackId == before.nextTrackId + k && SoundTrack(born[k], s)
    ensures FrameSound(before, stepped + born, s)
  {
    var all := stepped + born;
    forall i, j | 0 <= i < j < |all|
      ensures all[i].trackId < all[j].trackId
    {
      if j < |stepped| {
        assert before.tracks[i].trackId < before.tracks[j].trackId;
      }
    }
  }

  /** Every later track with an id given out before continues an earlier one. */
  ghost predicate Descends(before: State, after: State) {
    && before.nextTrackId <= after.nextTrackId
    && forall t' | t' in after.tracks && t'.trackId < before.nextTrackId :: HasAncestor(before.tracks, t')
  }

  ghost predicate HasAncestor(ts: seq<TrackValue>, t': TrackValue) {
    exists t :: t in ts && Continues(t, t')
  }

  lemma SurvivorsSound(before: State, all: seq<TrackValue>, s: Settings)
    requires Sound(before, s) && FrameSound(before, all, s)
    ensures Sound(State(Surviving(all, s), before.nextTrackId + |all| - |before.tracks|), s)
  {
    var ts, next := Surviving(all, s), before.nextTrackId + |all| - |before.tracks|;
    SurvivingMembers(all, s);
    SurvivingOrdered(all, s, next);
    forall k | 0 <= k < |ts|
      ensures SoundTrack(ts[k], s) && ts[k].missed <= s.maximumMissed
    {
      assert ts[k] in ts;
      var i :| 0 <= i < |all| && all[i] == ts[k];
    }
  }

  lemma SurvivorsDescend(before: State, all: seq<TrackValue>, s: Settings)
    requires Sound(before, s) && FrameSound(before, all, s)
    ensures Descends(before, State(Surviving(all, s), before.nextTrackId + |all| - |before.tracks|))
  {
    SurvivingMembers(all, s);
    forall t' | t' in Surviving(all, s) && t'.trackId < before.nextTrackId
      ensures HasAncestor(before.tracks, t')
    {
      var i :| 0 <= i < |all| && all[i] == t';
      assert before.tracks[i] in before.tracks && Continues(before.tracks[i], all[i]);
    }
  }

  /** One frame keeps every track sound, orders ids, and only continues tracks or starts new
      ones with ids never used before. */
  lemma {:induction false} StepSound(before: State, ds: seq<Detection>, timestamp: real, s: Settings)
    requires s.Valid() && Sound(before, s)
    ensures Sound(Step(before, ds, timestamp, s), s)
    ensures Descends(before, Step(before, ds, timestamp, s))
  {
    var f := Associations(before, ds, timestamp, s);
    AllSound(before, ds, timestamp, s);
    SurvivorsSound(before, f.all, s);
    SurvivorsDescend(before, f.all, s);
  }

  lemma DescendsTransitive(a: State, b: State, c: State)
    requires Descends(a, b) && Descends(b, c)
    ensures Descends(a, c)
  {
    forall t'' | t'' in c.tracks && t''.trackId < a.nextTrackId
      ensures HasAncestor(a.tracks, t'')
    {
      assert HasAncestor(b.tracks, t'');
      var t' :| t' in b.tracks && Continues(t', t'');
      assert HasAncestor(a.tracks, t');
      var t :| t in a.tracks && Continues(t, t');
      assert Continues(t, t'');
    }
  }

  /** How many tracks one frame drops. */
  ghost function Dropped(before: State, ds: seq<Detection>, timestamp: real, s: Settings): int {
    |Associations(before, ds, timestamp, s).all| - |Step(before, ds, timestamp, s).tracks|
  }

  datatype Input = Input(detections: seq<Detection>, timestamp: real)

  ghost function Folded(start: State, frames: seq<Input>, step: (State, Input) -> State): State {
    if frames == [] then start
    else step(Folded(start, frames[..|frames| - 1], step), frames[|frames| - 1])
  }

  ghost function Stepper(s: Settings): (State, Input) -> State {
    (before: State, input: Input) => Step(before, input.detections, input.timestamp, s)
  }

  /** The state after some frames. */
  ghost function Run(start: State, frames: seq<Input>, s: Settings): State {
    Folded(start, frames, Stepper(s))
  }

  ghost function EverDropped(start: State, frames: seq<Input>, s: Settings): int {
    if frames == [] then 0
    else
      var last := frames[|frames| - 1];
      EverDropped(start, frames[..|frames| - 1], s)
      + Dropped(Run(start, frames[..|frames| - 1], s), last.detections, last.timestamp, s)
  }

  const NoTracks := State([], 1)

  /** In every reachable state: ids increase and stay below the next id, hits never exceed age,
      no live track has missed too often, a track is confirmed exactly when it has enough hits,
      and ids are conserved: the next id is one more than live and dropped tracks together. */
  lemma {:induction false} RunSound(frames: seq<Input>, s: Settings)
    requires s.Valid()
    ensures Sound(Run(NoTracks, frames, s), s)
    ensures EverDropped(NoTracks, frames, s) >= 0
    ensures Run(NoTracks, frames, s).nextTrackId
      == 1 + |Run(NoTracks, frames, s).tracks| + EverDropped(NoTracks, frames, s)
  {
    if frames != [] {
      var front, last := frames[..|frames| - 1], frames[|frames| - 1];
      RunSound(front, s);
      var before := Run(NoTracks, front, s);
      StepSound(before, last.detections, last.timestamp, s);
      AllSound(before, last.detections, last.timestamp, s);
      var f := Associations(before, last.detections, last.timestamp, s);
      SurvivingOrdered(f.all, s, before.nextTrackId + |f.all| - |before.tracks|);
    }
  }

  lemma FoldedExtends(frames: seq<Input>, front: seq<Input>, last: Input, step: (State, Input) -> State)
    ensures Folded(NoTracks, frames + (front + [last]), step) == step(Folded(NoTracks, frames + front, step), last)
  {
    var whole := frames + (front + [last]);
    assert whole[..|whole| - 1] == frames + front && whole[|whole| - 1] == last;
  }

  lemma DescendsReflexive(a: State)
    ensures Descends(a, a)
  {
    forall t | t in a.tracks
      ensures HasAncestor(a.tracks, t)
    {
      assert Continues(t, t);
    }
  }

  /** Identity over a run: a live track whose id was already given out at an earlier moment was
      live then, with the same class, and confirmation has not been lost.  So an id that has
      left never comes back, for this or any other object. */
  lemma {:induction false} Lineage(frames: seq<Input>, more: seq<Input>, s: Settings)
    requires s.Valid()
    ensures Descends(Run(NoTracks, frames, s), Run(NoTracks, frames + more, s))
  {
    if more == [] {
      assert frames + more == frames;
      DescendsReflexive(Run(NoTracks, frames, s));
    } else {
      var front, last := more[..|more| - 1], more[|more| - 1];
      assert more == front + [last];
      Lineage(frames, front, s);
      LineageStep(Run(NoTracks, frames, s), frames, front, last, s);
    }
  }

  lemma LineageStep(start: State, frames: seq<Input>, front: seq<Input>, last: Input, s: Settings)
    requires s.Valid() && Descends(start, Run(NoTracks, frames + front, s))
    ensures Descends(start, Run(NoTracks, frames + (front + [last]), s))
  {
    var mid := Run(NoTracks, frames + front, s);
    RunSound(frames + front, s);
    StepSound(mid, last.detections, last.timestamp, s);
    FoldedExtends(frames, front, last, Stepper(s));
    DescendsTransitive(start, mid, Step(mid, last.detections, last.timestamp, s));
  }

  // ---------------------------------------------------------------- the objects

  /** One tracked object. */
  class Track {
    const trackId: nat
    const classId: int
    const className: string
    var confidence: real
    var filter: Kalman.Estimate
    var lastTimestamp: real
    var age: nat
    var hits: nat
    var missed: nat
    var confirmed: bool

    function Value(): TrackValue
      reads this
    {
      TrackValue(trackId, classId, className, confidence, filter, lastTimestamp, age, hits, missed, confirmed)
    }

    constructor (s: Settings, id: nat, d: Detection, timestamp: real)
      ensures Value() == Born(s, id, d, timestamp)
    {
      trackId, classId, className, confidence := id, d.classId, d.className, d.confidence;
      filter, lastTimestamp := s.motion.start(d.box), timestamp;
      age, hits, missed, confirmed := 1, 1, 0, s.minimumHits <= 1;
    }

    method Predict(s: Settings, timestamp: real)
      modifies this
      ensures Value() == old(Value()).Predicted(s, timestamp)
    {
      filter := s.motion.predict(filter, Boxes.Max(timestamp - lastTimestamp, 0.001));
      lastTimestamp := timestamp;
      age := age + 1;
    }

    method Update(s: Settings, d: Detection)
      modifies this
      ensures Value() == old(Value()).Updated(s, d)
    {
      filter := s.motion.update(filter, d.box);
      confidence := d.confidence;
      hits := hits + 1;
      missed := 0;
    }

    method MarkMissed()
      modifies this
      ensures Value() == old(Value()).Missed()
    {
      missed := missed + 1;
    }
  }

  function ValuesOf(ts: seq<Track>): (r: seq<TrackValue>)
    reads ts
    ensures |r| == |ts| && forall i | 0 <= i < |ts| :: r[i] == ts[i].Value()
  {
    seq(|ts|, i requires 0 <= i < |ts| reads ts => ts[i].Value())
  }

  ghost predicate Different(ts: seq<Track>) {
    forall i, j | 0 <= i < j < |ts| :: ts[i] != ts[j]
  }

  /** The ids of the matched tracks. */
  ghost function MatchedIds(ts: seq<Track>, m: seq<Pair>, who: seq<nat>): set<nat> {
    if m == [] then {}
    else
      var p := m[|m| - 1];
      MatchedIds(ts, m[..|m| - 1], who)
      + if p.row < |who| && who[p.row] < |ts| then {ts[who[p.row]].trackId} else {}
  }

  ghost predicate DifferentIds(ts: seq<Track>) {
    forall i, j | 0 <= i < j < |ts| :: ts[i].trackId != ts[j].trackId
  }

  ghost function IdSet(ts: seq<Track>): set<nat> {
    set t | t in ts :: t.trackId
  }

  lemma {:induction false} MatchedIdsMembers(ts: seq<Track>, m: seq<Pair>, who: seq<nat>, id: nat)
    requires id in MatchedIds(ts, m, who)
    ensures exists p :: p in m && p.row < |who| && who[p.row] < |ts| && ts[who[p.row]].trackId == id
  {
    var p := m[|m| - 1];
    if !(p.row < |who| && who[p.row] < |ts| && ts[who[p.row]].trackId == id) {
      MatchedIdsMembers(ts, m[..|m| - 1], who, id);
    }
  }

  lemma {:induction false} PickValues(ts: seq<Track>, who: seq<nat>)
    ensures ValuesOf(Pick(ts, who)) == Pick(ValuesOf(ts), who)
  {
    if who != [] {
      PickValues(ts, who[..|who| - 1]);
      var front := Pick(ts, who[..|who| - 1]);
      if who[|who| - 1] < |ts| {
        assert (front + [ts[who[|who| - 1]]])[..|front|] == front;
      }
    }
  }

  lemma SameId(ts: seq<Track>, a: nat, b: nat)
    requires DifferentIds(ts) && a < |ts| && b < |ts| && ts[a].trackId == ts[b].trackId
    ensures a == b
  {
    assert !(a < b) && !(b < a);
  }

  /** The test by id picks out the tracks that no association matched. */
  lemma LostById(ts: seq<Track>, f: Frame, i: nat)
    requires WellFormed(f) && |f.predicted| == |ts| && DifferentIds(ts) && i < |ts|
    ensures ts[i].trackId in IdSet(Pick(Pick(ts, f.remaining), f.lost)) <==> i in Pick(f.remaining, f.lost)
  {
    PickAt(ts, f.remaining);
    var group := Pick(ts, f.remaining);
    PickAt(group, f.lost);
    PickAt(f.remaining, f.lost);
    var gone := Pick(group, f.lost);
    if ts[i].trackId in IdSet(gone) {
      var l :| 0 <= l < |gone| && gone[l].trackId == ts[i].trackId;
      SameId(ts, f.remaining[f.lost[l]], i);
      assert Pick(f.remaining, f.lost)[l] == i;
    }
    if i in Pick(f.remaining, f.lost) {
      var l :| 0 <= l < |f.lost| && Pick(f.remaining, f.lost)[l] == i;
      assert gone[l] == ts[i];
    }
  }

  lemma LostUnmatched(ts: seq<Track>, f: Frame, i: nat)
    requires WellFormed(f) && |f.predicted| == |ts| && DifferentIds(ts) && i < |ts|
    requires i in Pick(f.remaining, f.lost)
    ensures ts[i].trackId !in MatchedIds(ts, f.primary, Everyone(|ts|))
    ensures ts[i].trackId !in MatchedIds(ts, f.secondary, f.remaining)
  {
    PickAt(f.remaining, f.lost);
    var l :| 0 <= l < |f.lost| && Pick(f.remaining, f.lost)[l] == i;
    assert f.lost[l] in f.lost && f.remaining[f.lost[l]] in f.remaining;
    if ts[i].trackId in MatchedIds(ts, f.primary, Everyone(|ts|)) {
      MatchedByPrimary(ts, f, i);
    }
    if ts[i].trackId in MatchedIds(ts, f.secondary, f.remaining) {
      MatchedBySecondary(ts, f, i, f.lost[l]);
    }
  }

  lemma MatchedByPrimary(ts: seq<Track>, f: Frame, i: nat)
    requires WellFormed(f) && |f.predicted| == |ts| && DifferentIds(ts) && i < |ts|
    requires ts[i].trackId in MatchedIds(ts, f.primary, Everyone(|ts|))
    ensures i in RowSet(f.primary)
  {
    MatchedIdsMembers(ts, f.primary, Everyone(|ts|), ts[i].trackId);
    var p :| p in f.primary && p.row < |ts| && ts[Everyone(|ts|)[p.row]].trackId == ts[i].trackId;
    SameId(ts, p.row, i);
  }

  lemma MatchedBySecondary(ts: seq<Track>, f: Frame, i: nat, r: nat)
    requires WellFormed(f) && |f.predicted| == |ts| && DifferentIds(ts) && i < |ts| && Remains(f, i, r)
    requires ts[i].trackId in MatchedIds(ts, f.secondary, f.remaining)
    ensures r in RowSet(f.secondary)
  {
    MatchedIdsMembers(ts, f.secondary, f.remaining, ts[i].trackId);
    var p :| p in f.secondary && p.row < |f.remaining| && f.remaining[p.row] < |ts|
             && ts[f.remaining[p.row]].trackId == ts[i].trackId;
    SameId(ts, f.remaining[p.row], i);
    NamesInjective(f.remaining, |f.predicted|, p.row, r);
  }

  lemma ValuesSnoc(ts: seq<Track>, t: Track)
    ensures ValuesOf(ts + [t]) == ValuesOf(ts) + [t.Value()]
  {
    assert (ts + [t])[..|ts|] == ts;
  }

  lemma ValuesAppended(ts: seq<Track>, born: seq<Track>, a: seq<TrackValue>, b: seq<TrackValue>)
    requires ValuesOf(ts) == a && |born| == |b|
    requires forall i | 0 <= i < |b| :: born[i].Value() == b[i]
    ensures ValuesOf(ts + born) == a + b
  {
  }

  lemma IdsDiffer(ts: seq<Track>, next: nat)
    requires Ordered(ValuesOf(ts), next)
    ensures DifferentIds(ts) && Different(ts)
  {
    forall i, j | 0 <= i < j < |ts|
      ensures ts[i].trackId != ts[j].trackId
    {
      assert ValuesOf(ts)[i].trackId < ValuesOf(ts)[j].trackId;
    }
  }

  /** The frame of one step. */
  lemma FrameOf(before: State, ds: seq<Detection>, timestamp: real, s: Settings) returns (f: Frame)
    ensures f == Associations(before, ds, timestamp, s)
    ensures IsFrame(f, before, ds, timestamp, s) && Linked(f, s) && Advances(f, s)
    ensures Names(f.newborn, |f.high|)
    ensures Step(before, ds, timestamp, s) == State(Surviving(f.all, s), before.nextTrackId + |Pick(f.high, f.newborn)|)
  {
    f := Associations(before, ds, timestamp, s);
    OthersNames(ColSet(f.primary), |f.high|);
  }

  lemma PickLength(ts: seq<Track>, who: seq<nat>)
    requires forall k | 0 <= k < |who| :: who[k] < |ts|
    ensures |Pick(ts, who)| == |who|
  {
    PickAt(ts, who);
  }

  lemma LostFits(ts: seq<Track>, f: Frame, s: Settings)
    requires s.Valid() && Linked(f, s) && |f.predicted| == |ts|
    ensures forall k | 0 <= k < |f.lost| :: f.lost[k] < |Pick(ts, f.remaining)|
  {
    LinkedWellFormed(f, s);
    PickAt(ts, f.remaining);
  }

  /** The two sets of ids tell the lost tracks apart. */
  lemma LostByIds(ts: seq<Track>, f: Frame, s: Settings, matched: set<nat>, unmatched: set<nat>)
    requires s.Valid() && Linked(f, s) && DifferentIds(ts) && |f.predicted| == |ts|
    requires matched == MatchedIds(ts, f.primary, Everyone(|ts|)) + MatchedIds(ts, f.secondary, f.remaining)
    requires unmatched == IdSet(Pick(Pick(ts, f.remaining), f.lost))
    ensures forall i | 0 <= i < |ts| ::
      (ts[i].trackId !in matched && ts[i].trackId in unmatched) <==> i in Pick(f.remaining, f.lost)
  {
    LinkedWellFormed(f, s);
    forall i | 0 <= i < |ts|
      ensures (ts[i].trackId !in matched && ts[i].trackId in unmatched) <==> i in Pick(f.remaining, f.lost)
    {
      LostById(ts, f, i);
      if i in Pick(f.remaining, f.lost) {
        LostUnmatched(ts, f, i);
      }
    }
  }

  /** The tracker object: its tracks in the order of their creation. */
  class MultiObjectTracker {
    var tracks: seq<Track>
    var nextTrackId: nat
    const settings: Settings

    ghost function Value(): State
      reads this, tracks
    {
      State(ValuesOf(tracks), nextTrackId)
    }

    ghost predicate Valid()
      reads this, tracks
    {
      settings.Valid() && Sound(Value(), settings)
    }

    constructor (settings: Settings)
      requires settings.Valid()
      ensures Valid() && Value() == NoTracks && this.settings == settings
    {
      this.settings := settings;
      tracks, nextTrackId := [], 1;
    }

    method PredictAll(timestamp: real)
      requires Different(tracks)
      modifies tracks
      ensures ValuesOf(tracks) == PredictedAll(old(ValuesOf(tracks)), settings, timestamp)
    {
      for i := 0 to |tracks|
        invariant forall k | 0 <= k < i :: tracks[k].Value() == old(tracks[k].Value()).Predicted(settings, timestamp)
        invariant forall k | i <= k < |tracks| :: tracks[k].Value() == old(tracks[k].Value())
      {
        tracks[i].Predict(settings, timestamp);
      }
    }

    /** Keeps what `solve` proposes below the invalid cost. */
    method Associate(group: seq<Track>, detections: seq<Detection>, minimumIou: real)
      returns (matches: seq<Pair>, unmatchedTracks: seq<nat>, unmatchedDetections: seq<nat>)
      requires settings.Valid()
      ensures matches == Matches(ValuesOf(group), detections, minimumIou, settings.solve)
      ensures unmatchedTracks == Others(RowSet(matches), |group|)
      ensures unmatchedDetections == Others(ColSet(matches), |detections|)
    {
      if group == [] || detections == [] {
        matches := [];
        assert RowSet(matches) == {} && ColSet(matches) == {};
        unmatchedTracks := IndexesOutside({}, |group|);
        unmatchedDetections := IndexesOutside({}, |detections|);
        return;
      }
      var costs := CostMatrix(group, detections, minimumIou);
      var solution := settings.solve(costs);
      assert Rectangular(costs) && Optimal(solution, costs);
      matches := [];
      var rows, cols: set<nat> := {}, {};
      for k := 0 to |solution|
        invariant matches == Kept(solution[..k], costs, INVALID_ASSOCIATION_COST)
        invariant rows == RowSet(matches) && cols == ColSet(matches)
      {
        assert solution[..k + 1][..k] == solution[..k];
        var p := solution[k];
        if costs[p.row][p.col] < INVALID_ASSOCIATION_COST {
          matches := matches + [p];
          rows, cols := rows + {p.row}, cols + {p.col};
        }
      }
      assert solution[..|solution|] == solution;
      unmatchedTracks := IndexesOutside(rows, |group|);
      unmatchedDetections := IndexesOutside(cols, |detections|);
    }

    static method IndexesOutside(taken: set<nat>, n: nat) returns (r: seq<nat>)
      ensures r == Others(taken, n)
    {
      r := [];
      for i := 0 to n
        invariant r == Others(taken, i)
      {
        if i !in taken {
          r := r + [i];
        }
      }
    }

    static method CostMatrix(group: seq<Track>, detections: seq<Detection>, minimumIou: real) returns (c: Matrix)
      ensures c == Costs(ValuesOf(group), detections, minimumIou)
    {
      c := seq(|group|, i => seq(|detections|, j => INVALID_ASSOCIATION_COST));
      for i := 0 to |group|
        invariant |c| == |group| && forall k | 0 <= k < |c| :: |c[k]| == |detections|
        invariant forall k, l | 0 <= k < i && 0 <= l < |detections| ::
          c[k][l] == PairCost(group[k].Value(), detections[l], minimumIou)
        invariant forall k, l | i <= k < |group| && 0 <= l < |detections| :: c[k][l] == INVALID_ASSOCIATION_COST
      {
        var row := CostRow(group[i], detections, minimumIou);
        c := c[i := row];
      }
      var target := Costs(ValuesOf(group), detections, minimumIou);
      forall k | 0 <= k < |c|
        ensures c[k] == target[k]
      {
        assert forall l | 0 <= l < |detections| :: c[k][l] == target[k][l];
      }
    }

    static method CostRow(t: Track, detections: seq<Detection>, minimumIou: real) returns (row: seq<real>)
      ensures |row| == |detections|
      ensures forall l | 0 <= l < |row| :: row[l] == PairCost(t.Value(), detections[l], minimumIou)
    {
      row := seq(|detections|, j => INVALID_ASSOCIATION_COST);
      var box := t.filter.Box();
      for j := 0 to |detections|
        invariant |row| == |detections|
        invariant forall l | 0 <= l < j :: row[l] == PairCost(t.Value(), detections[l], minimumIou)
        invariant forall l | j <= l < |row| :: row[l] == INVALID_ASSOCIATION_COST
      {
        if detections[j].classId == t.classId {
          var iou := Boxes.IntersectionOverUnion(box, detections[j].box);
          if iou >= minimumIou {
            row := row[j := 1.0 - iou];
          }
        }
      }
    }

    /** Hands every matched detection to its track; row r stands for tracks[who[r]]. */
    method RefreshMatched(matches: seq<Pair>, who: seq<nat>, detections: seq<Detection>) returns (ids: set<nat>)
      requires Different(tracks)
      requires Matching(matches, |who|, |detections|) && Names(who, |tracks|)
      modifies tracks
      ensures ValuesOf(tracks) == Refresh(old(ValuesOf(tracks)), matches, who, detections, settings)
      ensures ids == MatchedIds(tracks, matches, who)
    {
      ids := {};
      for k := 0 to |matches|
        invariant ValuesOf(tracks) == Apply(old(ValuesOf(tracks)), matches[..k], who, detections, Refresher(settings))
        invariant ids == MatchedIds(tracks, matches[..k], who)
      {
        assert matches[..k + 1][..k] == matches[..k];
        var p := matches[k];
        RefreshOne(who[p.row], detections[p.col]);
        ids := ids + {tracks[who[p.row]].trackId};
      }
      assert matches[..|matches|] == matches;
    }

    method RefreshOne(i: nat, d: Detection)
      requires Different(tracks) && i < |tracks|
      modifies tracks[i]
      ensures ValuesOf(tracks) == old(ValuesOf(tracks))[i := Refresher(settings)(old(ValuesOf(tracks))[i], d)]
    {
      tracks[i].Update(settings, d);
      ConfirmIfReady(tracks[i]);
      assert forall k | 0 <= k < |tracks| && k != i :: tracks[k].Value() == old(tracks[k].Value());
    }

    method ConfirmIfReady(t: Track)
      modifies t
      ensures t.Value() == old(t.Value()).ConfirmedIfReady(settings)
    {
      if t.hits >= settings.minimumHits {
        t.confirmed := true;
      }
    }

    static method Members(group: seq<Track>, indexes: seq<nat>) returns (r: seq<Track>)
      requires forall k | 0 <= k < |indexes| :: indexes[k] < |group|
      ensures r == Pick(group, indexes)
    {
      r := [];
      for k := 0 to |indexes|
        invariant r == Pick(group, indexes[..k])
      {
        assert indexes[..k + 1][..k] == indexes[..k];
        r := r + [group[indexes[k]]];
      }
      assert indexes[..|indexes|] == indexes;
    }

    static method IdsOf(group: seq<Track>) returns (ids: set<nat>)
      ensures ids == IdSet(group)
    {
      ids := {};
      for k := 0 to |group|
        invariant ids == IdSet(group[..k])
      {
        assert group[..k + 1] == group[..k] + [group[k]];
        ids := ids + {group[k].trackId};
      }
      assert group[..|group|] == group;
    }

    static method AtOrAbove(ds: seq<Detection>, high: real) returns (r: seq<Detection>)
      ensures r == AtLeast(ds, high)
    {
      r := [];
      for k := 0 to |ds|
        invariant r == AtLeast(ds[..k], high)
      {
        assert ds[..k + 1][..k] == ds[..k];
        if ds[k].confidence >= high {
          r := r + [ds[k]];
        }
      }
      assert ds[..|ds|] == ds;
    }

    static method AtOrAboveBelow(ds: seq<Detection>, low: real, high: real) returns (r: seq<Detection>)
      ensures r == Between(ds, low, high)
    {
      r := [];
      for k := 0 to |ds|
        invariant r == Between(ds[..k], low, high)
      {
        assert ds[..k + 1][..k] == ds[..k];
        if low <= ds[k].confidence < high {
          r := r + [ds[k]];
        }
      }
      assert ds[..|ds|] == ds;
    }

    /** Marks the tracks that are unmatched and not matched; `who` lists them. */
    method MarkUnmatched(matched: set<nat>, unmatched: set<nat>, ghost who: seq<nat>)
      requires Different(tracks)
      requires forall k | 0 <= k < |tracks| ::
        (tracks[k].trackId !in matched && tracks[k].trackId in unmatched) <==> k in who
      modifies tracks
      ensures ValuesOf(tracks) == MissAll(old(ValuesOf(tracks)), who)
    {
      for i := 0 to |tracks|
        invariant forall k | 0 <= k < i ::
          tracks[k].Value() == if k in who then old(tracks[k].Value()).Missed() else old(tracks[k].Value())
        invariant forall k | i <= k < |tracks| :: tracks[k].Value() == old(tracks[k].Value())
      {
        if tracks[i].trackId !in matched && tracks[i].trackId in unmatched {
          tracks[i].MarkMissed();
        }
      }
    }

    /** Ages the tracks that neither association matched. */
    method AgeLost(matched: set<nat>, group: seq<Track>, lost: seq<nat>, ghost f: Frame)
      requires settings.Valid() && Linked(f, settings)
      requires Different(tracks) && DifferentIds(tracks) && |f.predicted| == |tracks|
      requires group == Pick(tracks, f.remaining) && lost == f.lost
      requires matched == MatchedIds(tracks, f.primary, Everyone(|tracks|))
        + MatchedIds(tracks, f.secondary, f.remaining)
      modifies tracks
      ensures ValuesOf(tracks) == MissAll(old(ValuesOf(tracks)), Pick(f.remaining, f.lost))
    {
      LostFits(tracks, f, settings);
      var gone := Members(group, lost);
      var unmatched := IdsOf(gone);
      LostByIds(tracks, f, settings, matched, unmatched);
      MarkUnmatched(matched, unmatched, Pick(f.remaining, f.lost));
    }

    /** Associates all tracks with the high-confidence detections. */
    method FirstPass(high: seq<Detection>, ghost f: Frame)
      returns (remaining: seq<nat>, newborn: seq<nat>, matched: set<nat>)
      requires settings.Valid() && Different(tracks)
      requires ValuesOf(tracks) == f.predicted && high == f.high
      requires Linked(f, settings)
      modifies tracks
      ensures ValuesOf(tracks) == Refresh(f.predicted, f.primary, Everyone(|f.predicted|), f.high, settings)
      ensures remaining == f.remaining && newborn == f.newborn
      ensures matched == MatchedIds(tracks, f.primary, Everyone(|tracks|))
    {
      LinkedFits(f, settings);
      var primary, unmatchedTracks, unmatchedDetections := Associate(tracks, high, settings.primaryIou);
      matched := RefreshMatched(primary, Everyone(|tracks|), high);
      remaining, newborn := unmatchedTracks, unmatchedDetections;
    }

    /** Associates the remaining tracks with the low-confidence detections. */
    method SecondMatches(low: seq<Detection>, remaining: seq<nat>, ghost values: seq<TrackValue>)
      returns (group: seq<Track>, secondary: seq<Pair>, lost: seq<nat>)
      requires settings.Valid()
      requires ValuesOf(tracks) == values && forall k | 0 <= k < |remaining| :: remaining[k] < |tracks|
      ensures group == Pick(tracks, remaining)
      ensures secondary == Matches(Pick(values, remaining), low, settings.secondaryIou, settings.solve)
      ensures lost == Others(RowSet(secondary), |remaining|)
    {
      group := Members(tracks, remaining);
      PickValues(tracks, remaining);
      PickLength(tracks, remaining);
      var matches, unmatched, _ := Associate(group, low, settings.secondaryIou);
      secondary, lost := matches, unmatched;
    }

    /** Refreshes the tracks found among the low-confidence detections and ages the others. */
    method SecondPass(low: seq<Detection>, remaining: seq<nat>, first: set<nat>, ghost f: Frame)
      requires settings.Valid() && Linked(f, settings)
      requires Different(tracks) && DifferentIds(tracks)
      requires ValuesOf(tracks) == f.refreshed && low == f.low && remaining == f.remaining
      requires first == MatchedIds(tracks, f.primary, Everyone(|tracks|))
      modifies tracks
      ensures ValuesOf(tracks)
           == MissAll(Refresh(f.refreshed, f.secondary, f.remaining, f.low, settings), Pick(f.remaining, f.lost))
    {
      LinkedFits(f, settings);
      var group, secondary, lost := SecondMatches(low, remaining, f.refreshed);
      var second := RefreshMatched(secondary, remaining, low);
      AgeLost(first + second, group, lost, f);
    }

    /** Predicts, associates twice, refreshes the matched tracks and marks the others missed. */
    method MatchAndAge(high: seq<Detection>, low: seq<Detection>, timestamp: real, ghost f: Frame)
      returns (newborn: seq<nat>)
      requires settings.Valid() && Different(tracks) && DifferentIds(tracks)
      requires f.predicted == PredictedAll(ValuesOf(tracks), settings, timestamp)
      requires high == f.high && low == f.low && Linked(f, settings) && Advances(f, settings)
      modifies tracks
      ensures ValuesOf(tracks) == f.stepped && newborn == f.newborn
    {
      PredictAll(timestamp);
      var remaining, unclaimed, matched := FirstPass(high, f);
      newborn := unclaimed;
      SecondPass(low, remaining, matched, f);
    }

    method CreateTrack(d: Detection, timestamp: real) returns (t: Track)
      modifies this
      ensures fresh(t) && tracks == old(tracks) + [t]
      ensures t.Value() == Born(settings, old(nextTrackId), d, timestamp)
      ensures nextTrackId == old(nextTrackId) + 1
    {
      t := new Track(settings, nextTrackId, d, timestamp);
      tracks := tracks + [t];
      nextTrackId := nextTrackId + 1;
    }

    /** Starts a track for every high-confidence detection that no track claimed. */
    method CreateTracks(high: seq<Detection>, newborn: seq<nat>, timestamp: real) returns (ghost born: seq<Track>)
      requires forall k | 0 <= k < |newborn| :: newborn[k] < |high|
      modifies this
      ensures tracks == old(tracks) + born && forall k | 0 <= k < |born| :: fresh(born[k])
      ensures |born| == |newborn| && nextTrackId == old(nextTrackId) + |born|
      ensures forall k | 0 <= k < |born| ::
        born[k].Value() == Born(settings, old(nextTrackId) + k, high[newborn[k]], timestamp)
    {
      born := [];
      for k := 0 to |newborn|
        invariant |born| == k && tracks == old(tracks) + born
        invariant nextTrackId == old(nextTrackId) + k
        invariant forall i | 0 <= i < k ::
          fresh(born[i]) && born[i].Value() == Born(settings, old(nextTrackId) + i, high[newborn[i]], timestamp)
      {
        var t := CreateTrack(high[newborn[k]], timestamp);
        born := born + [t];
      }
    }

    method CreateAll(high: seq<Detection>, newborn: seq<nat>, timestamp: real)
      requires forall k | 0 <= k < |newborn| :: newborn[k] < |high|
      modifies this
      ensures forall k | 0 <= k < |tracks| :: tracks[k] in old(tracks) || fresh(tracks[k])
      ensures ValuesOf(tracks) == old(ValuesOf(tracks))
                                + Births(Pick(high, newborn), old(nextTrackId), settings, timestamp)
      ensures nextTrackId == old(nextTrackId) + |Pick(high, newborn)|
    {
      PickAt(high, newborn);
      ghost var born := CreateTracks(high, newborn, timestamp);
      ValuesAppended(old(tracks), born, old(ValuesOf(tracks)),
        Births(Pick(high, newborn), old(nextTrackId), settings, timestamp));
    }

    /** Deletes the tracks that were missed too often. */
    method DropStale() returns (removed: seq<nat>)
      modifies `tracks
      ensures forall k | 0 <= k < |tracks| :: tracks[k] in old(tracks)
      ensures ValuesOf(tracks) == Surviving(old(ValuesOf(tracks)), settings)
      ensures removed == RemovedIds(old(ValuesOf(tracks)), settings)
    {
      removed := [];
      var current := tracks;
      var kept: seq<Track> := [];
      ghost var values := ValuesOf(current);
      for k := 0 to |current|
        invariant ValuesOf(kept) == Surviving(values[..k], settings)
        invariant removed == RemovedIds(values[..k], settings)
        invariant forall i | 0 <= i < |kept| :: kept[i] in current
      {
        SurvivingSnoc(values, k, settings);
        var t := current[k];
        if t.missed > settings.maximumMissed {
          removed := removed + [t.trackId];
        } else {
          ValuesSnoc(kept, t);
          kept := kept + [t];
        }
      }
      assert values[..|current|] == values && values == old(ValuesOf(tracks));
      tracks := kept;
    }

    method Advance(detections: seq<Detection>, timestamp: real, ghost f: Frame)
      requires settings.Valid() && Different(tracks) && DifferentIds(tracks)
      requires IsFrame(f, Value(), detections, timestamp, settings)
      requires Linked(f, settings) && Advances(f, settings) && Names(f.newborn, |f.high|)
      modifies this, tracks
      ensures forall k | 0 <= k < |tracks| :: tracks[k] in old(tracks) || fresh(tracks[k])
      ensures ValuesOf(tracks) == f.all
      ensures nextTrackId == old(nextTrackId) + |Pick(f.high, f.newborn)|
    {
      var high := AtOrAbove(detections, settings.highConfidence);
      var low := AtOrAboveBelow(detections, settings.lowConfidence, settings.highConfidence);
      var newborn := MatchAndAge(high, low, timestamp, f);
      CreateAll(high, newborn, timestamp);
    }

    method AdvanceAndDrop(detections: seq<Detection>, timestamp: real, ghost f: Frame) returns (removed: seq<nat>)
      requires settings.Valid() && Different(tracks) && DifferentIds(tracks)
      requires IsFrame(f, Value(), detections, timestamp, settings)
      requires Linked(f, settings) && Advances(f, settings) && Names(f.newborn, |f.high|)
      modifies this, tracks
      ensures forall k | 0 <= k < |tracks| :: tracks[k] in old(tracks) || fresh(tracks[k])
      ensures Value() == State(Surviving(f.all, settings), old(nextTrackId) + |Pick(f.high, f.newborn)|)
      ensures removed == RemovedIds(f.all, settings)
    {
      Advance(detections, timestamp, f);
      removed := DropStale();
    }

    method AdvanceFrame(detections: seq<Detection>, timestamp: real) returns (removed: seq<nat>)
      requires settings.Valid() && Different(tracks) && DifferentIds(tracks)
      modifies this, tracks
      ensures forall k | 0 <= k < |tracks| :: tracks[k] in old(tracks) || fresh(tracks[k])
      ensures Value() == Step(old(Value()), detections, timestamp, settings)
      ensures removed == RemovedIds(Associations(old(Value()), detections, timestamp, settings).all, settings)
    {
      ghost var f := FrameOf(Value(), detections, timestamp, settings);
      removed := AdvanceAndDrop(detections, timestamp, f);
    }

    /** One frame. */
    method Update(detections: seq<Detection>, timestamp: real) returns (visible: seq<TrackValue>, removed: seq<nat>)
      requires Valid()
      modifies this, tracks
      ensures Valid()
      ensures Value() == Step(old(Value()), detections, timestamp, settings)
      ensures visible == Seen(Value().tracks)
      ensures removed == RemovedIds(Associations(old(Value()), detections, timestamp, settings).all, settings)
      ensures forall k | 0 <= k < |tracks| :: tracks[k] in old(tracks) || fresh(tracks[k])
    {
      IdsDiffer(tracks, nextTrackId);
      StepSound(Value(), detections, timestamp, settings);
      removed := AdvanceFrame(detections, timestamp);
      visible := Visible();
    }

    method Visible() returns (visible: seq<TrackValue>)
      ensures visible == Seen(ValuesOf(tracks))
    {
      visible := [];
      ghost var values := ValuesOf(tracks);
      for k := 0 to |tracks|
        invariant visible == Seen(values[..k])
      {
        assert values[..k + 1][..k] == values[..k];
        if tracks[k].missed == 0 {
          visible := visible + [tracks[k].Value()];
        }
      }
      assert values[..|tracks|] == values;
    }

    method Reset()
      requires Valid()
      modifies this
      ensures Valid() && Value() == NoTracks
    {
      tracks, nextTrackId := [], 1;
    }
  }
}
