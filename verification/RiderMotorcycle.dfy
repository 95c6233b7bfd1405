/** Which person rides which motorcycle in one frame.

    Every motorcycle stands for as many slots as it may carry riders; people are taken to
    slots at least cost, later slots costing a little more, and pairs without a candidate at
    a prohibitive cost. */
module Riders {
  import opened Assignment
  import B = Boxes
  import opened Norms
  import opened Collections
  import Sorting

  const INVALID_SEAT_COST := 1000000.0
  const SLOT_PENALTY := 0.01

  datatype Tracked = Tracked(
    id: nat, className: string, confidence: real, confirmed: bool, missed: nat,
    box: B.Box, velocityX: real, velocityY: real)

  datatype Features = Features(
    horizontalOverlap: real, anchorDistance: real, verticalPosition: real,
    motionSimilarity: real, containment: real)

  datatype Candidate = Candidate(person: nat, motorcycle: nat, score: real, features: Features)

  datatype Config = Config(
    minimumScore: real, capacity: nat, maximumAnchorDistance: real,
    minimumHorizontalOverlap: real, minimumMotionSpeed: real,
    norm: Norm)
  {
    ghost predicate Valid() {
      && 0.0 <= minimumScore <= 1.0 && capacity > 0 && maximumAnchorDistance > 0.0
      && 0.0 <= minimumHorizontalOverlap <= 1.0 && minimumMotionSpeed >= 0.0
      && IsNorm(norm)
    }
  }

  // ---------------------------------------------------------------- scores

  function HorizontalOverlap(p: B.Box, m: B.Box): real {
    B.Clamp01(B.OverlapWidth(p, m) / B.Max(B.Min(p.Width(), m.Width()), 1.0))
  }

  function AnchorDistance(k: Config, p: B.Box, m: B.Box): real {
    k.norm(p.x1 + p.Width() / 2.0 - (m.x1 + m.Width() / 2.0), p.y2 - (m.y1 + m.Height() * 0.35))
    / B.Max(k.norm(m.Width(), m.Height()), 1.0)
  }

  function VerticalPosition(p: B.Box, m: B.Box): real {
    var contact := 1.0 - B.Abs(p.y2 - (m.y1 + m.Height() * 0.35)) / B.Max(m.Height(), 1.0);
    var above := if p.CenterY() <= m.CenterY() then 1.0 else 0.25;
    B.Clamp01(0.75 * contact + 0.25 * above)
  }

  /** None where the cosine or the speed ratio would divide by zero. */
  function MotionSimilarity(k: Config, p: Tracked, m: Tracked): Option<real> {
    var a, b := k.norm(p.velocityX, p.velocityY), k.norm(m.velocityX, m.velocityY);
    if a < k.minimumMotionSpeed && b < k.minimumMotionSpeed then Some(0.5)
    else if a < k.minimumMotionSpeed || b < k.minimumMotionSpeed then Some(0.20)
    else if a * b == 0.0 || B.Max(a, b) == 0.0 then None
    else
      var cosine := (p.velocityX * m.velocityX + p.velocityY * m.velocityY) / (a * b);
      var direction := B.Clamp01((cosine + 1.0) / 2.0);
      Some(B.Clamp01(0.70 * direction + 0.30 * (B.Min(a, b) / B.Max(a, b))))
  }

  function Containment(p: B.Box, m: B.Box): real {
    var x, y := p.x1 + p.Width() / 2.0, p.y2;
    if m.x1 - m.Width() * 0.35 <= x <= m.x2 + m.Width() * 0.35 then
      if m.y1 - m.Height() * 0.75 <= y <= m.y2 + m.Height() * 0.25 then 1.0 else 0.5
    else 0.0
  }

  function Mean(f: Features): real {
    0.25 * f.horizontalOverlap + 0.30 * f.anchorDistance + 0.20 * f.verticalPosition
    + 0.15 * f.motionSimilarity + 0.10 * f.containment
  }

  function FeaturesOf(k: Config, p: Tracked, m: Tracked, motion: real): Features {
    Features(HorizontalOverlap(p.box, m.box),
             B.Clamp01(1.0 - if k.maximumAnchorDistance == 0.0 then 0.0
                             else AnchorDistance(k, p.box, m.box) / k.maximumAnchorDistance),
             VerticalPosition(p.box, m.box), motion, Containment(p.box, m.box))
  }

  /** The geometric gates. */
  predicate Gated(k: Config, p: B.Box, m: B.Box) {
    || (HorizontalOverlap(p, m) < k.minimumHorizontalOverlap
        && B.Abs(p.CenterX() - m.CenterX()) > m.Width() * 1.5)
    || AnchorDistance(k, p, m) > k.maximumAnchorDistance
    || p.CenterY() > m.y2 + m.Height() * 0.5
  }

  datatype Scored = Undefined | Rejected | Accepted(candidate: Candidate)

  predicate BothStill(k: Config, p: Tracked, m: Tracked) {
    k.norm(p.velocityX, p.velocityY) == 0.0 && k.norm(m.velocityX, m.velocityY) == 0.0
  }

  /** Undefined stands for the failed division. */
  function ScoreCandidate(k: Config, p: Tracked, m: Tracked): Scored {
    var motion := MotionSimilarity(k, p, m);
    if motion.None? && BothStill(k, p, m) then Undefined
    else if Gated(k, p.box, m.box) then Rejected
    else if motion.None? then Undefined
    else
      var f := FeaturesOf(k, p, m, motion.value);
      var score := B.Clamp01(Mean(f));
      if score < k.minimumScore then Rejected else Accepted(Candidate(p.id, m.id, score, f))
  }

  /** The score is the weighted mean itself, so it lies between the lowest and the highest
      feature: limiting it to the unit interval never changes it. */
  lemma {:induction false} ScoreIsMean(k: Config, p: Tracked, m: Tracked, low: real, high: real)
    requires k.Valid() && ScoreCandidate(k, p, m).Accepted?
    requires var f := ScoreCandidate(k, p, m).candidate.features;
      && low <= f.horizontalOverlap <= high && low <= f.anchorDistance <= high
      && low <= f.verticalPosition <= high && low <= f.motionSimilarity <= high && low <= f.containment <= high
    ensures var c := ScoreCandidate(k, p, m).candidate;
      c.score == Mean(c.features) && low <= c.score <= high
  {
  }

  lemma {:induction false} ScoreInRange(k: Config, p: Tracked, m: Tracked)
    requires ScoreCandidate(k, p, m).Accepted?
    ensures k.minimumScore <= ScoreCandidate(k, p, m).candidate.score <= 1.0
  {
  }

  /** The division fails exactly for a standing track under a minimum speed of zero. */
  lemma {:induction false} MotionUndefinedExactly(k: Config, p: Tracked, m: Tracked)
    requires k.Valid()
    ensures MotionSimilarity(k, p, m).None? <==>
      && k.minimumMotionSpeed == 0.0
      && ((p.velocityX == 0.0 && p.velocityY == 0.0) || (m.velocityX == 0.0 && m.velocityY == 0.0))
  {
    var a, b := k.norm(p.velocityX, p.velocityY), k.norm(m.velocityX, m.velocityY);
    ZeroNorm(p.velocityX, p.velocityY, a);
    ZeroNorm(m.velocityX, m.velocityY, b);
    ZeroProduct(a, b);
  }

  predicate Still(t: Tracked) {
    t.velocityX == 0.0 && t.velocityY == 0.0
  }

  /** So a whole score fails exactly under a minimum speed of zero when both tracks stand, or when one of
      them stands and the pair passes the geometric gates. */
  lemma {:induction false} ScoreUndefinedExactly(k: Config, p: Tracked, m: Tracked)
    requires k.Valid()
    ensures ScoreCandidate(k, p, m).Undefined? <==>
      && k.minimumMotionSpeed == 0.0
      && ((Still(p) && Still(m)) || ((Still(p) || Still(m)) && !Gated(k, p.box, m.box)))
  {
    MotionUndefinedExactly(k, p, m);
    ZeroNorm(p.velocityX, p.velocityY, k.norm(p.velocityX, p.velocityY));
    ZeroNorm(m.velocityX, m.velocityY, k.norm(m.velocityX, m.velocityY));
  }

  // ---------------------------------------------------------------- slots

  datatype Slot = Slot(motorcycle: nat, place: nat)

  /** All slots: those of motorcycle 0, then those of motorcycle 1, and so on. */
  function Slots(motorcycles: nat, capacity: nat): seq<Slot> {
    if motorcycles == 0 then []
    else Slots(motorcycles - 1, capacity) + Places(motorcycles - 1, capacity)
  }

  function Places(motorcycle: nat, capacity: nat): seq<Slot> {
    seq(capacity, k requires 0 <= k < capacity => Slot(motorcycle, k))
  }

  lemma {:induction false} SlotInRange(motorcycles: nat, capacity: nat, s: nat)
    requires s < |Slots(motorcycles, capacity)|
    ensures Slots(motorcycles, capacity)[s].motorcycle < motorcycles
    ensures Slots(motorcycles, capacity)[s].place < capacity
  {
    if s < |Slots(motorcycles - 1, capacity)| { SlotInRange(motorcycles - 1, capacity, s); }
  }

  lemma {:induction false} SlotsDiffer(motorcycles: nat, capacity: nat, a: nat, b: nat)
    requires a < |Slots(motorcycles, capacity)| && b < |Slots(motorcycles, capacity)|
    requires Slots(motorcycles, capacity)[a] == Slots(motorcycles, capacity)[b]
    ensures a == b
  {
    var front := |Slots(motorcycles - 1, capacity)|;
    if a < front { SlotInRange(motorcycles - 1, capacity, a); }
    if b < front { SlotInRange(motorcycles - 1, capacity, b); }
    if a < front && b < front { SlotsDiffer(motorcycles - 1, capacity, a, b); }
  }

  lemma {:induction false} SlotExists(motorcycles: nat, capacity: nat, j: nat, place: nat) returns (s: nat)
    requires j < motorcycles && place < capacity
    ensures s < |Slots(motorcycles, capacity)| && Slots(motorcycles, capacity)[s] == Slot(j, place)
  {
    if j == motorcycles - 1 {
      s := |Slots(motorcycles - 1, capacity)| + place;
    } else {
      s := SlotExists(motorcycles - 1, capacity, j, place);
    }
  }

  // ---------------------------------------------------------------- seatings

  datatype Seat = Seat(person: nat, motorcycle: nat)

  type Candidates = map<Seat, Candidate>

  ghost predicate Different(ids: seq<nat>) {
    forall i, j | 0 <= i < j < |ids| :: ids[i] != ids[j]
  }

  /** How many people sit on the motorcycle. */
  function Count(s: seq<Seat>, motorcycle: nat): nat {
    if s == [] then 0
    else Count(s[..|s| - 1], motorcycle) + if s[|s| - 1].motorcycle == motorcycle then 1 else 0
  }

  /** Only candidates, each person once, and nowhere more riders than the capacity. */
  ghost predicate Respects(s: seq<Seat>, people: seq<nat>, motorcycles: seq<nat>, c: Candidates, capacity: nat) {
    && (forall k | 0 <= k < |s| :: s[k] in c && s[k].person in people && s[k].motorcycle in motorcycles)
    && (forall i, j | 0 <= i < j < |s| :: s[i].person != s[j].person)
    && forall m | m in motorcycles :: Count(s, m) <= capacity
  }

  ghost predicate Scores(c: Candidates, minimum: real) {
    forall s | s in c :: minimum <= c[s].score <= 1.0
  }

  function SeatCost(c: Candidates, s: Seat, place: nat): real {
    if s in c then 1.0 - c[s].score + place as real * SLOT_PENALTY else INVALID_SEAT_COST
  }

  function SlotCosts(people: seq<nat>, motorcycles: seq<nat>, c: Candidates, slots: seq<Slot>): Matrix {
    seq(|people|, i requires 0 <= i < |people| =>
      seq(|slots|, s requires 0 <= s < |slots| => SlotCost(people[i], motorcycles, c, slots[s])))
  }

  function SlotCost(person: nat, motorcycles: seq<nat>, c: Candidates, slot: Slot): real {
    if slot.motorcycle < |motorcycles| then SeatCost(c, Seat(person, motorcycles[slot.motorcycle]), slot.place)
    else INVALID_SEAT_COST
  }

  function SeatOf(p: Pair, people: seq<nat>, motorcycles: seq<nat>, slots: seq<Slot>): Seat {
    if p.row < |people| && p.col < |slots| && slots[p.col].motorcycle < |motorcycles| then
      Seat(people[p.row], motorcycles[slots[p.col].motorcycle])
    else Seat(0, 0)
  }

  function SeatsOf(m: seq<Pair>, people: seq<nat>, motorcycles: seq<nat>, slots: seq<Slot>): seq<Seat> {
    seq(|m|, k requires 0 <= k < |m| => SeatOf(m[k], people, motorcycles, slots))
  }

  /** The pairs of person and slot that are kept. */
  function Placed(people: seq<nat>, motorcycles: seq<nat>, c: Candidates, capacity: nat, solve: Solver): seq<Pair> {
    var costs := SlotCosts(people, motorcycles, c, Slots(|motorcycles|, capacity));
    if people == [] || motorcycles == [] || capacity == 0 then []
    else Kept(solve(costs), costs, INVALID_SEAT_COST)
  }

  function Seating(people: seq<nat>, motorcycles: seq<nat>, c: Candidates, capacity: nat, solve: Solver): seq<Seat> {
    SeatsOf(Placed(people, motorcycles, c, capacity, solve), people, motorcycles, Slots(|motorcycles|, capacity))
  }

  // ---------------------------------------------------------------- what is kept respects capacity

  /** The places taken on the motorcycle at index j. */
  ghost function PlacesAt(m: seq<Pair>, slots: seq<Slot>, j: nat): seq<nat> {
    if m == [] then []
    else
      var p := m[|m| - 1];
      PlacesAt(m[..|m| - 1], slots, j)
      + if p.col < |slots| && slots[p.col].motorcycle == j then [slots[p.col].place] else []
  }

  lemma {:induction false} PlacesMembers(m: seq<Pair>, slots: seq<Slot>, j: nat, place: nat) returns (k: nat)
    requires place in PlacesAt(m, slots, j)
    ensures k < |m| && m[k].col < |slots| && slots[m[k].col] == Slot(j, place)
  {
    k := |m| - 1;
    if !(m[k].col < |slots| && slots[m[k].col] == Slot(j, place)) {
      k := PlacesMembers(m[..|m| - 1], slots, j, place);
    }
  }

  lemma {:induction false} PlacesDiffer(m: seq<Pair>, rows: nat, motorcycles: nat, capacity: nat, j: nat)
    requires Matching(m, rows, |Slots(motorcycles, capacity)|)
    ensures Different(PlacesAt(m, Slots(motorcycles, capacity), j))
    ensures forall k | 0 <= k < |PlacesAt(m, Slots(motorcycles, capacity), j)| ::
              PlacesAt(m, Slots(motorcycles, capacity), j)[k] < capacity
  {
    var slots := Slots(motorcycles, capacity);
    if m != [] {
      var front, p := m[..|m| - 1], m[|m| - 1];
      PlacesDiffer(front, rows, motorcycles, capacity, j);
      SlotInRange(motorcycles, capacity, p.col);
      if slots[p.col].motorcycle == j && slots[p.col].place in PlacesAt(front, slots, j) {
        var k := PlacesMembers(front, slots, j, slots[p.col].place);
        SlotsDiffer(motorcycles, capacity, front[k].col, p.col);
        assert false;
      }
    }
  }

  lemma {:induction false} CountIsPlaces(m: seq<Pair>, people: seq<nat>, motorcycles: seq<nat>, slots: seq<Slot>,
                                         j: nat)
    requires Different(motorcycles) && j < |motorcycles|
    requires forall k | 0 <= k < |m| :: m[k].row < |people| && m[k].col < |slots|
    requires forall s | 0 <= s < |slots| :: slots[s].motorcycle < |motorcycles|
    ensures Count(SeatsOf(m, people, motorcycles, slots), motorcycles[j]) == |PlacesAt(m, slots, j)|
  {
    if m != [] {
      var front := m[..|m| - 1];
      CountIsPlaces(front, people, motorcycles, slots, j);
      var seats := SeatsOf(m, people, motorcycles, slots);
      assert seats[..|m| - 1] == SeatsOf(front, people, motorcycles, slots);
    }
  }

  /** Kept pairs are candidates; no person sits twice and no motorcycle is overfull. */
  lemma GenuineRespects(m: seq<Pair>, people: seq<nat>, motorcycles: seq<nat>, c: Candidates, capacity: nat)
    requires Different(people) && Different(motorcycles)
    requires Matching(m, |people|, |Slots(|motorcycles|, capacity)|)
    requires var slots := Slots(|motorcycles|, capacity);
      forall k | 0 <= k < |m| :: SeatOf(m[k], people, motorcycles, slots) in c
    ensures Respects(SeatsOf(m, people, motorcycles, Slots(|motorcycles|, capacity)), people, motorcycles, c, capacity)
  {
    var slots := Slots(|motorcycles|, capacity);
    forall s | 0 <= s < |slots| ensures slots[s].motorcycle < |motorcycles| {
      SlotInRange(|motorcycles|, capacity, s);
    }
    forall id | id in motorcycles
      ensures Count(SeatsOf(m, people, motorcycles, slots), id) <= capacity
    {
      var j :| 0 <= j < |motorcycles| && motorcycles[j] == id;
      CountIsPlaces(m, people, motorcycles, slots, j);
      PlacesDiffer(m, |people|, |motorcycles|, capacity, j);
      DistinctFit(PlacesAt(m, slots, j), capacity);
    }
  }

  lemma SlotCostsShape(people: seq<nat>, motorcycles: seq<nat>, c: Candidates, capacity: nat)
    requires people != [] && motorcycles != [] && capacity > 0
    ensures Rectangular(SlotCosts(people, motorcycles, c, Slots(|motorcycles|, capacity)))
    ensures |SlotCosts(people, motorcycles, c, Slots(|motorcycles|, capacity))[0]| == |Slots(|motorcycles|, capacity)|
    ensures |Slots(|motorcycles|, capacity)| > 0
  {
    var s := SlotExists(|motorcycles|, capacity, 0, 0);
  }

  lemma EntryBelowInvalid(p: Pair, people: seq<nat>, motorcycles: seq<nat>, c: Candidates, capacity: nat)
    requires p.row < |people| && p.col < |Slots(|motorcycles|, capacity)|
    requires At(SlotCosts(people, motorcycles, c, Slots(|motorcycles|, capacity)), p) < INVALID_SEAT_COST
    ensures SeatOf(p, people, motorcycles, Slots(|motorcycles|, capacity)) in c
  {
    SlotInRange(|motorcycles|, capacity, p.col);
  }

  /** Whatever the sizes and scores, the seating respects people and capacity. */
  lemma SeatingRespects(people: seq<nat>, motorcycles: seq<nat>, c: Candidates, capacity: nat, solve: Solver)
    requires Solves(solve) && Different(people) && Different(motorcycles)
    ensures Respects(Seating(people, motorcycles, c, capacity, solve), people, motorcycles, c, capacity)
  {
    var m := Placed(people, motorcycles, c, capacity, solve);
    if people != [] && motorcycles != [] && capacity > 0 {
      PlacedGenuine(people, motorcycles, c, capacity, solve);
    }
    GenuineRespects(m, people, motorcycles, c, capacity);
  }

  lemma PlacedGenuine(people: seq<nat>, motorcycles: seq<nat>, c: Candidates, capacity: nat, solve: Solver)
    requires Solves(solve) && people != [] && motorcycles != [] && capacity > 0
    ensures var m, slots := Placed(people, motorcycles, c, capacity, solve), Slots(|motorcycles|, capacity);
      && Matching(m, |people|, |slots|)
      && forall k | 0 <= k < |m| :: SeatOf(m[k], people, motorcycles, slots) in c
  {
    var costs := SlotCosts(people, motorcycles, c, Slots(|motorcycles|, capacity));
    SlotCostsShape(people, motorcycles, c, capacity);
    assert Optimal(solve(costs), costs);
    KeptGenuine(solve(costs), costs, INVALID_SEAT_COST);
    var m := Placed(people, motorcycles, c, capacity, solve);
    forall k | 0 <= k < |m|
      ensures SeatOf(m[k], people, motorcycles, Slots(|motorcycles|, capacity)) in c
    {
      EntryBelowInvalid(m[k], people, motorcycles, c, capacity);
    }
  }

  // ---------------------------------------------------------------- nobody could seat more

  /** The most a seat can cost. */
  ghost function WorstSeat(capacity: nat, minimumScore: real): real {
    1.0 - minimumScore + (capacity - 1) as real * SLOT_PENALTY
  }

  /** What a seating costs when every motorcycle is filled from its first slot. */
  ghost function SeatingCost(s: seq<Seat>, c: Candidates): real {
    if s == [] then 0.0
    else
      var front, last := s[..|s| - 1], s[|s| - 1];
      SeatingCost(front, c) + SeatCost(c, last, Count(front, last.motorcycle))
  }

  lemma {:induction false} CountGrows(s: seq<Seat>, k: nat, motorcycle: nat)
    requires k < |s| && s[k].motorcycle == motorcycle
    ensures Count(s[..k], motorcycle) < Count(s, motorcycle)
  {
    if k < |s| - 1 {
      var front := s[..|s| - 1];
      CountGrows(front, k, motorcycle);
      assert front[..k] == s[..k];
    }
  }

  lemma CountPrefix(s: seq<Seat>, motorcycle: nat)
    requires s != []
    ensures Count(s[..|s| - 1], motorcycle) <= Count(s, motorcycle)
  {
  }

  /** Seats and slots: row and column stand for this seat at its place among the earlier ones. */
  ghost predicate Represents(m: seq<Pair>, s: seq<Seat>, people: seq<nat>, motorcycles: seq<nat>, slots: seq<Slot>) {
    && |m| == |s|
    && Matching(m, |people|, |slots|)
    && forall k | 0 <= k < |m| ::
         && SeatOf(m[k], people, motorcycles, slots) == s[k]
         && slots[m[k].col].motorcycle < |motorcycles|
         && slots[m[k].col].place == Count(s[..k], s[k].motorcycle)
  }

  lemma RespectsPrefix(s: seq<Seat>, people: seq<nat>, motorcycles: seq<nat>, c: Candidates, capacity: nat)
    requires s != [] && Respects(s, people, motorcycles, c, capacity)
    ensures Respects(s[..|s| - 1], people, motorcycles, c, capacity)
  {
    forall m | m in motorcycles ensures Count(s[..|s| - 1], m) <= capacity { CountPrefix(s, m); }
  }

  /** Every respectful seating can be written down as an assignment to slots. */
  lemma {:induction false} Represent(s: seq<Seat>, people: seq<nat>, motorcycles: seq<nat>, c: Candidates,
                                     capacity: nat)
    returns (m: seq<Pair>)
    requires Respects(s, people, motorcycles, c, capacity)
    ensures Represents(m, s, people, motorcycles, Slots(|motorcycles|, capacity))
  {
    var slots := Slots(|motorcycles|, capacity);
    if s == [] { return []; }
    var front, last := s[..|s| - 1], s[|s| - 1];
    RespectsPrefix(s, people, motorcycles, c, capacity);
    m := Represent(front, people, motorcycles, c, capacity);
    var row :| 0 <= row < |people| && people[row] == last.person;
    var j :| 0 <= j < |motorcycles| && motorcycles[j] == last.motorcycle;
    assert Count(s, last.motorcycle) == Count(front, last.motorcycle) + 1;
    var col := SlotExists(|motorcycles|, capacity, j, Count(front, last.motorcycle));
    SeatIsFresh(m, s, Pair(row, col), people, motorcycles, slots);
    assert s == front + [last];
    m := Extend(m, front, last, Pair(row, col), people, motorcycles, slots);
  }

  /** A new rider's slot is not taken by an earlier seat. */
  lemma SeatIsFresh(m: seq<Pair>, s: seq<Seat>, p: Pair, people: seq<nat>, motorcycles: seq<nat>, slots: seq<Slot>)
    requires s != [] && forall i, j | 0 <= i < j < |s| :: s[i].person != s[j].person
    requires Represents(m, s[..|s| - 1], people, motorcycles, slots)
    requires p.row < |people| && p.col < |slots| && slots[p.col].motorcycle < |motorcycles|
    requires SeatOf(p, people, motorcycles, slots) == s[|s| - 1]
    requires slots[p.col].place == Count(s[..|s| - 1], s[|s| - 1].motorcycle)
    ensures Fresh(p, m)
  {
    var front, last := s[..|s| - 1], s[|s| - 1];
    forall k | 0 <= k < |m|
      ensures m[k].row != p.row && m[k].col != p.col
    {
      assert SeatOf(m[k], people, motorcycles, slots) == front[k];
      if front[k].motorcycle == last.motorcycle { CountGrows(front, k, last.motorcycle); }
    }
  }

  lemma Extend(m: seq<Pair>, front: seq<Seat>, last: Seat, p: Pair,
               people: seq<nat>, motorcycles: seq<nat>, slots: seq<Slot>) returns (r: seq<Pair>)
    requires Represents(m, front, people, motorcycles, slots)
    requires Fresh(p, m) && p.row < |people| && p.col < |slots| && slots[p.col].motorcycle < |motorcycles|
    requires SeatOf(p, people, motorcycles, slots) == last
    requires slots[p.col].place == Count(front, last.motorcycle)
    ensures Represents(r, front + [last], people, motorcycles, slots)
  {
    r := m + [p];
    var s := front + [last];
    forall k | 0 <= k < |r|
      ensures slots[r[k].col].place == Count(s[..k], s[k].motorcycle)
    {
      if k < |m| { assert s[..k] == front[..k]; } else { assert s[..k] == front; }
    }
  }

  lemma {:induction false} RepresentCost(m: seq<Pair>, s: seq<Seat>, people: seq<nat>, motorcycles: seq<nat>,
                                         c: Candidates, slots: seq<Slot>)
    requires Represents(m, s, people, motorcycles, slots)
    ensures Total(m, SlotCosts(people, motorcycles, c, slots)) == SeatingCost(s, c)
  {
    if m != [] {
      var n := |m| - 1;
      RepresentPrefix(m, s, people, motorcycles, slots);
      RepresentCost(m[..n], s[..n], people, motorcycles, c, slots);
      assert At(SlotCosts(people, motorcycles, c, slots), m[n])
          == SlotCost(people[m[n].row], motorcycles, c, slots[m[n].col]);
    }
  }

  lemma RepresentPrefix(m: seq<Pair>, s: seq<Seat>, people: seq<nat>, motorcycles: seq<nat>, slots: seq<Slot>)
    requires m != [] && Represents(m, s, people, motorcycles, slots)
    ensures Represents(m[..|m| - 1], s[..|m| - 1], people, motorcycles, slots)
  {
    forall k | 0 <= k < |m| - 1 ensures s[..|m| - 1][..k] == s[..k] {}
  }

  lemma SlotCostsPadded(people: seq<nat>, motorcycles: seq<nat>, c: Candidates, capacity: nat, minimum: real)
    requires people != [] && motorcycles != [] && capacity > 0
    requires Scores(c, minimum) && minimum <= 1.0 && WorstSeat(capacity, minimum) < INVALID_SEAT_COST
    ensures Padded(SlotCosts(people, motorcycles, c, Slots(|motorcycles|, capacity)),
                   INVALID_SEAT_COST, WorstSeat(capacity, minimum))
  {
    SlotCostsShape(people, motorcycles, c, capacity);
    var slots := Slots(|motorcycles|, capacity);
    forall i, s | 0 <= i < |people| && 0 <= s < |slots|
      ensures var x := SlotCost(people[i], motorcycles, c, slots[s]);
        0.0 <= x <= WorstSeat(capacity, minimum) || x == INVALID_SEAT_COST
    {
      SlotInRange(|motorcycles|, capacity, s);
      PenaltyGrows(slots[s].place, capacity - 1);
    }
  }

  lemma PenaltyGrows(a: nat, b: nat)
    requires a <= b
    ensures 0.0 <= a as real * SLOT_PENALTY <= b as real * SLOT_PENALTY
  {
  }

  lemma CandidateBelowInvalid(p: Pair, people: seq<nat>, motorcycles: seq<nat>, c: Candidates, capacity: nat,
                              minimum: real)
    requires capacity > 0 && Scores(c, minimum) && WorstSeat(capacity, minimum) < INVALID_SEAT_COST
    requires p.row < |people| && p.col < |Slots(|motorcycles|, capacity)|
    requires SeatOf(p, people, motorcycles, Slots(|motorcycles|, capacity)) in c
    ensures At(SlotCosts(people, motorcycles, c, Slots(|motorcycles|, capacity)), p) < INVALID_SEAT_COST
  {
    var slots := Slots(|motorcycles|, capacity);
    SlotInRange(|motorcycles|, capacity, p.col);
    PenaltyGrows(slots[p.col].place, capacity - 1);
    assert At(SlotCosts(people, motorcycles, c, slots), p) == SlotCost(people[p.row], motorcycles, c, slots[p.col]);
  }

  lemma GenuineIfCandidates(m: seq<Pair>, s: seq<Seat>, people: seq<nat>, motorcycles: seq<nat>,
                            c: Candidates, capacity: nat, minimum: real)
    requires people != [] && motorcycles != [] && capacity > 0
    requires Scores(c, minimum) && minimum <= 1.0 && WorstSeat(capacity, minimum) < INVALID_SEAT_COST
    requires Represents(m, s, people, motorcycles, Slots(|motorcycles|, capacity))
    requires forall k | 0 <= k < |s| :: s[k] in c
    ensures Genuine(m, SlotCosts(people, motorcycles, c, Slots(|motorcycles|, capacity)), INVALID_SEAT_COST)
  {
    SlotCostsShape(people, motorcycles, c, capacity);
    var slots := Slots(|motorcycles|, capacity);
    forall k | 0 <= k < |m|
      ensures At(SlotCosts(people, motorcycles, c, slots), m[k]) < INVALID_SEAT_COST
    {
      assert SeatOf(m[k], people, motorcycles, slots) == s[k];
      CandidateBelowInvalid(m[k], people, motorcycles, c, capacity, minimum);
    }
  }

  /** Small enough that one missing rider costs more than all seats together. */
  ghost predicate WithinBound(people: nat, motorcycles: nat, capacity: nat, minimum: real) {
    Times(Smaller(people, |Slots(motorcycles, capacity)|), WorstSeat(capacity, minimum)) < INVALID_SEAT_COST
  }

  lemma KeptBest(costs: Matrix, worst: real, solve: Solver)
    requires Solves(solve) && Padded(costs, INVALID_SEAT_COST, worst)
    requires Times(Smaller(|costs|, |costs[0]|), worst) < INVALID_SEAT_COST
    ensures LargestAndCheapest(Kept(solve(costs), costs, INVALID_SEAT_COST), costs, INVALID_SEAT_COST)
  {
    assert Optimal(solve(costs), costs);
    KeptBeatsAll(solve(costs), costs, INVALID_SEAT_COST, worst);
  }

  lemma PlacedBest(people: seq<nat>, motorcycles: seq<nat>, c: Candidates, capacity: nat, minimum: real, solve: Solver)
    requires Solves(solve) && people != [] && motorcycles != [] && capacity > 0
    requires Scores(c, minimum) && minimum <= 1.0
    requires WithinBound(|people|, |motorcycles|, capacity, minimum)
    ensures WorstSeat(capacity, minimum) < INVALID_SEAT_COST
    ensures LargestAndCheapest(Placed(people, motorcycles, c, capacity, solve),
                               SlotCosts(people, motorcycles, c, Slots(|motorcycles|, capacity)), INVALID_SEAT_COST)
  {
    var costs := SlotCosts(people, motorcycles, c, Slots(|motorcycles|, capacity));
    var worst := WorstSeat(capacity, minimum);
    SlotCostsShape(people, motorcycles, c, capacity);
    PenaltyGrows(0, capacity - 1);
    TimesGrows(1, Smaller(|people|, |Slots(|motorcycles|, capacity)|), worst);
    assert Times(1, worst) == worst;
    SlotCostsPadded(people, motorcycles, c, capacity, minimum);
    KeptBest(costs, worst, solve);
  }

  /** Nobody could seat more people on candidates within capacity, and nobody could seat as
      many at less cost. */
  lemma {:induction false} SeatingLargest(people: seq<nat>, motorcycles: seq<nat>, c: Candidates, capacity: nat,
                                          minimum: real, solve: Solver, s: seq<Seat>)
    requires Solves(solve) && Different(people) && Different(motorcycles)
    requires Scores(c, minimum) && minimum <= 1.0
    requires WithinBound(|people|, |motorcycles|, capacity, minimum)
    requires Respects(s, people, motorcycles, c, capacity)
    ensures |s| <= |Seating(people, motorcycles, c, capacity, solve)|
    ensures |s| == |Seating(people, motorcycles, c, capacity, solve)| ==>
      Total(Placed(people, motorcycles, c, capacity, solve),
            SlotCosts(people, motorcycles, c, Slots(|motorcycles|, capacity))) <= SeatingCost(s, c)
  {
    var slots := Slots(|motorcycles|, capacity);
    if s != [] {
      assert s[0].person in people && s[0].motorcycle in motorcycles;
      CountGrows(s, 0, s[0].motorcycle);
      PlacedBest(people, motorcycles, c, capacity, minimum, solve);
      var m := Represent(s, people, motorcycles, c, capacity);
      GenuineIfCandidates(m, s, people, motorcycles, c, capacity, minimum);
      RepresentCost(m, s, people, motorcycles, c, slots);
    }
  }

  // ---------------------------------------------------------------- slots are filled from the first

  ghost predicate Taken(m: seq<Pair>, slots: seq<Slot>, slot: Slot) {
    exists k :: 0 <= k < |m| && m[k].col < |slots| && slots[m[k].col] == slot
  }

  lemma MoveIsGenuine(m: seq<Pair>, k: nat, col: nat, c: Matrix, padding: real)
    requires Genuine(m, c, padding) && k < |m| && col < |c[0]|
    requires forall l | 0 <= l < |m| :: m[l].col != col
    requires At(c, Pair(m[k].row, col)) < padding
    ensures Genuine(m[k := Pair(m[k].row, col)], c, padding)
  {
  }

  /** If a rider sits at some place of a motorcycle, every place before it is taken as well. */
  lemma SlotsFilledFromFirst(people: seq<nat>, motorcycles: seq<nat>, c: Candidates, capacity: nat, minimum: real,
                             solve: Solver, k: nat, place: nat)
    requires Solves(solve)
    requires Scores(c, minimum) && minimum <= 1.0
    requires WithinBound(|people|, |motorcycles|, capacity, minimum)
    requires var m, slots := Placed(people, motorcycles, c, capacity, solve), Slots(|motorcycles|, capacity);
      k < |m| && m[k].col < |slots| && place < slots[m[k].col].place
    ensures var m, slots := Placed(people, motorcycles, c, capacity, solve), Slots(|motorcycles|, capacity);
      Taken(m, slots, Slot(slots[m[k].col].motorcycle, place))
  {
    var m, slots := Placed(people, motorcycles, c, capacity, solve), Slots(|motorcycles|, capacity);
    PlacedBest(people, motorcycles, c, capacity, minimum, solve);
    PlacedGenuine(people, motorcycles, c, capacity, solve);
    SlotInRange(|motorcycles|, capacity, m[k].col);
    var j := slots[m[k].col].motorcycle;
    var col := SlotExists(|motorcycles|, capacity, j, place);
    if !Taken(m, slots, Slot(j, place)) {
      CheaperPlace(m, people, motorcycles, c, capacity, k, col);
      assert false;
    }
  }

  lemma CheaperPlace(m: seq<Pair>, people: seq<nat>, motorcycles: seq<nat>, c: Candidates, capacity: nat,
                     k: nat, col: nat)
    requires people != [] && motorcycles != [] && capacity > 0
    requires var slots := Slots(|motorcycles|, capacity);
      && Genuine(m, SlotCosts(people, motorcycles, c, slots), INVALID_SEAT_COST)
      && k < |m| && col < |slots| && m[k].col < |slots| && slots[m[k].col].motorcycle < |motorcycles|
      && SeatOf(m[k], people, motorcycles, slots) in c
      && slots[col].motorcycle == slots[m[k].col].motorcycle && slots[col].place < slots[m[k].col].place
      && !Taken(m, slots, slots[col])
    ensures !LargestAndCheapest(m, SlotCosts(people, motorcycles, c, Slots(|motorcycles|, capacity)), INVALID_SEAT_COST)
  {
    SlotCostsShape(people, motorcycles, c, capacity);
    var slots := Slots(|motorcycles|, capacity);
    var costs := SlotCosts(people, motorcycles, c, slots);
    var moved := Pair(m[k].row, col);
    assert At(costs, moved) < At(costs, m[k]) by {
      assert At(costs, moved) == SlotCost(people[moved.row], motorcycles, c, slots[col]);
      assert At(costs, m[k]) == SlotCost(people[m[k].row], motorcycles, c, slots[m[k].col]);
    }
    forall l | 0 <= l < |m| ensures m[l].col != col {}
    MoveIsGenuine(m, k, col, costs, INVALID_SEAT_COST);
    TotalSwap(m, k, moved, costs);
  }

  // ---------------------------------------------------------------- the frame

  function Ids(ts: seq<Tracked>): seq<nat> {
    seq(|ts|, i requires 0 <= i < |ts| => ts[i].id)
  }

  /** Confirmed tracks of a class that were seen in this frame. */
  function Visible(ts: seq<Tracked>, className: string): seq<Tracked> {
    if ts == [] then []
    else
      var front, last := Visible(ts[..|ts| - 1], className), ts[|ts| - 1];
      if last.confirmed && last.missed == 0 && last.className == className then front + [last] else front
  }

  type Scoring = (Tracked, Tracked) -> Scored

  function Scorer(k: Config): Scoring {
    (p: Tracked, m: Tracked) => ScoreCandidate(k, p, m)
  }

  function RowCandidates(score: Scoring, p: Tracked, ms: seq<Tracked>, c: Candidates): Candidates {
    if ms == [] then c
    else
      var front, m := RowCandidates(score, p, ms[..|ms| - 1], c), ms[|ms| - 1];
      match score(p, m)
      case Accepted(x) => front[Seat(p.id, m.id) := x]
      case _ => front
  }

  function AllCandidates(score: Scoring, ps: seq<Tracked>, ms: seq<Tracked>): Candidates {
    if ps == [] then map[]
    else RowCandidates(score, ps[|ps| - 1], ms, AllCandidates(score, ps[..|ps| - 1], ms))
  }

  ghost predicate Named(k: Config, c: Candidates) {
    forall s | s in c :: c[s].person == s.person && c[s].motorcycle == s.motorcycle
      && k.minimumScore <= c[s].score <= 1.0
  }

  lemma {:induction false} RowNamed(k: Config, p: Tracked, ms: seq<Tracked>, c: Candidates)
    requires Named(k, c)
    ensures Named(k, RowCandidates(Scorer(k), p, ms, c))
  {
    if ms != [] {
      RowNamed(k, p, ms[..|ms| - 1], c);
      if ScoreCandidate(k, p, ms[|ms| - 1]).Accepted? {
        ScoreInRange(k, p, ms[|ms| - 1]);
      }
    }
  }

  /** Every candidate names its own pair and has a score between the minimum and one. */
  lemma {:induction false} CandidatesNamed(k: Config, ps: seq<Tracked>, ms: seq<Tracked>)
    ensures Named(k, AllCandidates(Scorer(k), ps, ms))
    ensures Scores(AllCandidates(Scorer(k), ps, ms), k.minimumScore)
  {
    if ps != [] {
      CandidatesNamed(k, ps[..|ps| - 1], ms);
      RowNamed(k, ps[|ps| - 1], ms, AllCandidates(Scorer(k), ps[..|ps| - 1], ms));
    }
  }

  /** s is the pair of p and m, and its score is accepted. */
  ghost predicate Accepts(score: Scoring, p: Tracked, m: Tracked, s: Seat) {
    s == Seat(p.id, m.id) && score(p, m).Accepted?
  }

  ghost predicate AcceptsOne(score: Scoring, p: Tracked, ms: seq<Tracked>, s: Seat) {
    exists m :: m in ms && Accepts(score, p, m, s)
  }

  ghost predicate AcceptsAny(score: Scoring, ps: seq<Tracked>, ms: seq<Tracked>, s: Seat) {
    exists p :: p in ps && AcceptsOne(score, p, ms, s)
  }

  lemma {:induction false} RowComplete(score: Scoring, p: Tracked, ms: seq<Tracked>, c: Candidates, s: Seat)
    ensures s in RowCandidates(score, p, ms, c) <==> s in c || AcceptsOne(score, p, ms, s)
  {
    if ms != [] {
      var front, m := ms[..|ms| - 1], ms[|ms| - 1];
      assert ms == front + [m];
      RowComplete(score, p, front, c, s);
      assert AcceptsOne(score, p, ms, s) <==> AcceptsOne(score, p, front, s) || Accepts(score, p, m, s);
    }
  }

  /** The pairs with a candidate are exactly the pairs whose score was accepted. */
  lemma {:induction false} CandidatesComplete(score: Scoring, ps: seq<Tracked>, ms: seq<Tracked>, s: Seat)
    ensures s in AllCandidates(score, ps, ms) <==> AcceptsAny(score, ps, ms, s)
  {
    if ps != [] {
      var front, p := ps[..|ps| - 1], ps[|ps| - 1];
      assert ps == front + [p];
      CandidatesComplete(score, front, ms, s);
      RowComplete(score, p, ms, AllCandidates(score, front, ms), s);
      assert AcceptsAny(score, ps, ms, s) <==> AcceptsAny(score, front, ms, s) || AcceptsOne(score, p, ms, s);
    }
  }

  function CandidatesAt(c: Candidates, seats: seq<Seat>): seq<Candidate> {
    if seats == [] then []
    else
      CandidatesAt(c, seats[..|seats| - 1])
      + if seats[|seats| - 1] in c then [c[seats[|seats| - 1]]] else []
  }

  lemma {:induction false} CandidatesAtEach(c: Candidates, seats: seq<Seat>)
    requires forall k | 0 <= k < |seats| :: seats[k] in c
    ensures |CandidatesAt(c, seats)| == |seats|
    ensures forall k | 0 <= k < |seats| :: CandidatesAt(c, seats)[k] == c[seats[k]]
  {
    if seats != [] { CandidatesAtEach(c, seats[..|seats| - 1]); }
  }

  ghost predicate AnyUndefined(score: Scoring, ps: seq<Tracked>, ms: seq<Tracked>) {
    exists p, m :: p in ps && m in ms && score(p, m).Undefined?
  }

  datatype Outcome = Failed | Associated(associations: seq<Candidate>, unassigned: seq<nat>)

  /** The ids that no association names, in order. */
  function Unassigned(ps: seq<Tracked>, taken: set<nat>): seq<nat> {
    if ps == [] then []
    else Unassigned(ps[..|ps| - 1], taken) + if ps[|ps| - 1].id in taken then [] else [ps[|ps| - 1].id]
  }

  method SelectVisible(ts: seq<Tracked>, className: string) returns (r: seq<Tracked>)
    ensures r == Visible(ts, className)
  {
    r := [];
    for i := 0 to |ts|
      invariant r == Visible(ts[..i], className)
    {
      assert ts[..i + 1][..i] == ts[..i];
      if ts[i].confirmed && ts[i].missed == 0 && ts[i].className == className {
        r := r + [ts[i]];
      }
    }
    assert ts[..|ts|] == ts;
  }

  /** Scores every pair; stops at the first failed division. */
  method ScoreAll(score: Scoring, ps: seq<Tracked>, ms: seq<Tracked>) returns (failed: bool, c: Candidates)
    ensures failed <==> AnyUndefined(score, ps, ms)
    ensures !failed ==> c == AllCandidates(score, ps, ms)
  {
    failed, c := false, map[];
    for i := 0 to |ps|
      invariant c == AllCandidates(score, ps[..i], ms)
      invariant forall p, m | p in ps[..i] && m in ms :: !score(p, m).Undefined?
    {
      assert ps[..i + 1] == ps[..i] + [ps[i]];
      failed, c := ScoreRow(score, ps[i], ms, c);
      if failed {
        return true, map[];
      }
    }
    assert ps[..|ps|] == ps;
  }

  method ScoreRow(score: Scoring, p: Tracked, ms: seq<Tracked>, before: Candidates)
    returns (failed: bool, c: Candidates)
    ensures failed <==> exists m :: m in ms && score(p, m).Undefined?
    ensures !failed ==> c == RowCandidates(score, p, ms, before)
  {
    failed, c := false, before;
    for j := 0 to |ms|
      invariant c == RowCandidates(score, p, ms[..j], before)
      invariant forall m | m in ms[..j] :: !score(p, m).Undefined?
    {
      assert ms[..j + 1] == ms[..j] + [ms[j]];
      match score(p, ms[j]) {
        case Undefined => return true, map[];
        case Rejected =>
        case Accepted(x) => c := c[Seat(p.id, ms[j].id) := x];
      }
    }
    assert ms[..|ms|] == ms;
  }

  method MotorcycleSlots(motorcycles: nat, capacity: nat) returns (slots: seq<Slot>)
    ensures slots == Slots(motorcycles, capacity)
  {
    slots := [];
    for j := 0 to motorcycles
      invariant slots == Slots(j, capacity)
    {
      var front := slots;
      for place := 0 to capacity
        invariant slots == front + Places(j, place)
      {
        slots := slots + [Slot(j, place)];
      }
    }
  }

  method CostMatrix(people: seq<nat>, motorcycles: seq<nat>, c: Candidates, slots: seq<Slot>) returns (costs: Matrix)
    requires forall s | 0 <= s < |slots| :: slots[s].motorcycle < |motorcycles|
    ensures costs == SlotCosts(people, motorcycles, c, slots)
  {
    costs := seq(|people|, i => seq(|slots|, s => INVALID_SEAT_COST));
    for i := 0 to |people|
      invariant |costs| == |people|
      invariant forall a | 0 <= a < i :: costs[a] == SlotCosts(people, motorcycles, c, slots)[a]
    {
      var row := CostRow(people[i], motorcycles, c, slots);
      costs := costs[i := row];
    }
  }

  method CostRow(person: nat, motorcycles: seq<nat>, c: Candidates, slots: seq<Slot>) returns (row: seq<real>)
    requires forall s | 0 <= s < |slots| :: slots[s].motorcycle < |motorcycles|
    ensures |row| == |slots|
    ensures forall s | 0 <= s < |slots| :: row[s] == SlotCost(person, motorcycles, c, slots[s])
  {
    row := seq(|slots|, s => INVALID_SEAT_COST);
    for s := 0 to |slots|
      invariant |row| == |slots|
      invariant forall t | 0 <= t < s :: row[t] == SlotCost(person, motorcycles, c, slots[t])
      invariant forall t | s <= t < |slots| :: row[t] == INVALID_SEAT_COST
    {
      var seat := Seat(person, motorcycles[slots[s].motorcycle]);
      if seat in c {
        row := row[s := 1.0 - c[seat].score + slots[s].place as real * SLOT_PENALTY];
      }
    }
  }

  /** The capacity-constrained assignment of one frame. */
  method SolveAssignment(people: seq<nat>, motorcycles: seq<nat>, c: Candidates, capacity: nat, solve: Solver)
    returns (r: seq<Candidate>)
    requires Solves(solve) && people != [] && motorcycles != [] && capacity > 0
    ensures r == CandidatesAt(c, Seating(people, motorcycles, c, capacity, solve))
  {
    var slots := MotorcycleSlots(|motorcycles|, capacity);
    forall s | 0 <= s < |slots| ensures slots[s].motorcycle < |motorcycles| {
      SlotInRange(|motorcycles|, capacity, s);
    }
    var costs := CostMatrix(people, motorcycles, c, slots);
    SlotCostsShape(people, motorcycles, c, capacity);
    var solution := solve(costs);
    assert Optimal(solution, costs);
    r := [];
    for k := 0 to |solution|
      invariant r == CandidatesAt(c, SeatsOf(Kept(solution[..k], costs, INVALID_SEAT_COST), people, motorcycles, slots))
    {
      assert solution[..k + 1][..k] == solution[..k];
      var p := solution[k];
      KeptSeats(solution, k, people, motorcycles, c, slots);
      if costs[p.row][p.col] < INVALID_SEAT_COST {
        EntryBelowInvalid(p, people, motorcycles, c, capacity);
        r := r + [c[SeatOf(p, people, motorcycles, slots)]];
      }
    }
    assert solution[..|solution|] == solution;
  }

  lemma KeptSeats(m: seq<Pair>, k: nat, people: seq<nat>, motorcycles: seq<nat>, c: Candidates, slots: seq<Slot>)
    requires k < |m|
    ensures var costs := SlotCosts(people, motorcycles, c, slots);
      SeatsOf(Kept(m[..k + 1], costs, INVALID_SEAT_COST), people, motorcycles, slots)
      == SeatsOf(Kept(m[..k], costs, INVALID_SEAT_COST), people, motorcycles, slots)
       + if At(costs, m[k]) < INVALID_SEAT_COST then [SeatOf(m[k], people, motorcycles, slots)] else []
  {
    assert m[..k + 1][..k] == m[..k];
  }

  /** By motorcycle, then by falling score, then by person. */
  function ByMotorcycle(): Sorting.Order<Candidate> {
    (a: Candidate, b: Candidate) =>
      || a.motorcycle < b.motorcycle
      || (a.motorcycle == b.motorcycle && a.score > b.score)
      || (a.motorcycle == b.motorcycle && a.score == b.score && a.person <= b.person)
  }

  /** The associations of a frame, before they are put in order. */
  function Chosen(k: Config, solve: Solver, ps: seq<Tracked>, ms: seq<Tracked>): seq<Candidate> {
    var c := AllCandidates(Scorer(k), ps, ms);
    CandidatesAt(c, Seating(Ids(ps), Ids(ms), c, k.capacity, solve))
  }

  /** What a frame reports unless it fails. */
  function Reported(k: Config, solve: Solver, tracks: seq<Tracked>): seq<Candidate> {
    Sorting.Sorted(ByMotorcycle(), Chosen(k, solve, Visible(tracks, "person"), Visible(tracks, "motorcycle")))
  }

  /** One frame: people on motorcycles. */
  method Associate(k: Config, solve: Solver, tracks: seq<Tracked>) returns (r: Outcome)
    requires k.Valid() && Solves(solve)
    ensures var ps, ms := Visible(tracks, "person"), Visible(tracks, "motorcycle");
      r == if AnyUndefined(Scorer(k), ps, ms) then Failed
           else Associated(Reported(k, solve, tracks), Unassigned(ps, Assigned(Chosen(k, solve, ps, ms))))
  {
    var people := SelectVisible(tracks, "person");
    var motorcycles := SelectVisible(tracks, "motorcycle");
    assert people == [] ==> Ids(people) == [];
    assert motorcycles == [] ==> Ids(motorcycles) == [];
    if people == [] {
      return Associated([], []);
    }
    if motorcycles == [] {
      assert Assigned([]) == {};
      var everyone := UnassignedOf(people, {});
      return Associated([], everyone);
    }
    var failed, c := ScoreAll(Scorer(k), people, motorcycles);
    if failed {
      return Failed;
    }
    var associations := SolveAssignment(Ids(people), Ids(motorcycles), c, k.capacity, solve);
    var left := UnassignedOf(people, Assigned(associations));
    r := Associated(Sorting.Sorted(ByMotorcycle(), associations), left);
  }

  function Assigned(a: seq<Candidate>): set<nat> {
    set x | x in a :: x.person
  }

  method UnassignedOf(ps: seq<Tracked>, taken: set<nat>) returns (r: seq<nat>)
    ensures r == Unassigned(ps, taken)
  {
    r := [];
    for i := 0 to |ps|
      invariant r == Unassigned(ps[..i], taken)
    {
      assert ps[..i + 1][..i] == ps[..i];
      if ps[i].id !in taken {
        r := r + [ps[i].id];
      }
    }
    assert ps[..|ps|] == ps;
  }

  /** What a frame chooses: one association for every seat, naming it, scored at least the
      minimum; each person rides once and no motorcycle carries more than its capacity. */
  lemma {:induction false} AssociationsAreSeats(k: Config, ps: seq<Tracked>, ms: seq<Tracked>, solve: Solver)
    requires Solves(solve) && Different(Ids(ps)) && Different(Ids(ms))
    ensures var c := AllCandidates(Scorer(k), ps, ms);
      var seats := Seating(Ids(ps), Ids(ms), c, k.capacity, solve);
      var a := Chosen(k, solve, ps, ms);
      && Respects(seats, Ids(ps), Ids(ms), c, k.capacity)
      && |a| == |seats|
      && forall i | 0 <= i < |a| ::
           && seats[i] == Seat(a[i].person, a[i].motorcycle) && k.minimumScore <= a[i].score <= 1.0
           && AcceptsAny(Scorer(k), ps, ms, seats[i])
  {
    var c := AllCandidates(Scorer(k), ps, ms);
    var seats := Seating(Ids(ps), Ids(ms), c, k.capacity, solve);
    SeatingRespects(Ids(ps), Ids(ms), c, k.capacity, solve);
    CandidatesNamed(k, ps, ms);
    CandidatesAtEach(c, seats);
    forall i | 0 <= i < |seats|
      ensures AcceptsAny(Scorer(k), ps, ms, seats[i])
    {
      CandidatesComplete(Scorer(k), ps, ms, seats[i]);
    }
  }

  function On(motorcycle: nat): Candidate -> bool {
    (c: Candidate) => c.motorcycle == motorcycle
  }

  lemma {:induction false} CountOn(a: seq<Candidate>, seats: seq<Seat>, motorcycle: nat)
    requires |a| == |seats| && forall i | 0 <= i < |a| :: seats[i].motorcycle == a[i].motorcycle
    ensures Sorting.CountIf(On(motorcycle), a) == Count(seats, motorcycle)
  {
    if a != [] { CountOn(a[..|a| - 1], seats[..|seats| - 1], motorcycle); }
  }

  lemma {:induction false} CountUnlisted(seats: seq<Seat>, motorcycle: nat)
    requires forall i | 0 <= i < |seats| :: seats[i].motorcycle != motorcycle
    ensures Count(seats, motorcycle) == 0
  {
    if seats != [] { CountUnlisted(seats[..|seats| - 1], motorcycle); }
  }

  lemma {:induction false} VisibleAmong(ts: seq<Tracked>, className: string)
    ensures forall t | t in Visible(ts, className) :: t in ts
  {
    if ts != [] {
      VisibleAmong(ts[..|ts| - 1], className);
      assert ts == ts[..|ts| - 1] + [ts[|ts| - 1]];
    }
  }

  /** Tracks with different ids stay different when some are left out. */
  lemma {:induction false} VisibleDifferent(ts: seq<Tracked>, className: string)
    requires Different(Ids(ts))
    ensures Different(Ids(Visible(ts, className)))
  {
    if ts != [] {
      var front, last := ts[..|ts| - 1], ts[|ts| - 1];
      assert Ids(front) == Ids(ts)[..|front|];
      VisibleDifferent(front, className);
      VisibleAmong(front, className);
      var seen := Visible(front, className);
      forall i | 0 <= i < |seen|
        ensures seen[i].id != last.id
      {
        assert seen[i] in front;
        var j :| 0 <= j < |front| && front[j] == seen[i];
        assert Ids(ts)[j] != Ids(ts)[|front|];
      }
      var all := Visible(ts, className);
      forall i, j | 0 <= i < j < |all|
        ensures Ids(all)[i] != Ids(all)[j]
      {
        if j < |seen| { assert Ids(seen)[i] != Ids(seen)[j]; }
      }
    }
  }

  /** What a frame reports: the chosen associations in order, never more of them on a motorcycle than
      it may carry. */
  lemma {:induction false} ReportedWithinCapacity(k: Config, solve: Solver, tracks: seq<Tracked>, motorcycle: nat)
    requires Solves(solve) && Different(Ids(tracks))
    ensures var chosen := Chosen(k, solve, Visible(tracks, "person"), Visible(tracks, "motorcycle"));
      && Sorting.InOrder(ByMotorcycle(), Reported(k, solve, tracks))
      && multiset(Reported(k, solve, tracks)) == multiset(chosen)
    ensures Sorting.CountIf(On(motorcycle), Reported(k, solve, tracks)) <= k.capacity
  {
    var ps, ms := Visible(tracks, "person"), Visible(tracks, "motorcycle");
    var c := AllCandidates(Scorer(k), ps, ms);
    var seats, chosen := Seating(Ids(ps), Ids(ms), c, k.capacity, solve), Chosen(k, solve, ps, ms);
    VisibleDifferent(tracks, "person");
    VisibleDifferent(tracks, "motorcycle");
    AssociationsAreSeats(k, ps, ms, solve);
    Sorting.SortedKeeps(ByMotorcycle(), chosen);
    Sorting.SortedCounts(ByMotorcycle(), On(motorcycle), chosen);
    CountOn(chosen, seats, motorcycle);
    if motorcycle !in Ids(ms) {
      forall i | 0 <= i < |seats| ensures seats[i].motorcycle != motorcycle { assert seats[i].motorcycle in Ids(ms); }
      CountUnlisted(seats, motorcycle);
    }
  }
}
