/** Which helmet detection belongs to which rider: candidates are taken greedily by score. */
module HelmetRider {
  import opened Norms
  import opened Collections
  import B = Boxes
  import R = Riders
  import T = TripleRiding
  import opened Sorting

  datatype Detection = Detection(className: string, confidence: real, box: B.Box)

  datatype Candidate = Candidate(
    detection: nat, person: nat, motorcycle: nat, className: string,
    confidence: real, score: real, head: B.Box, box: B.Box)

  datatype Settings = Settings(headHeight: real, headExpansion: real, minimumScore: real, norm: Norm)

  const HELMET := "helmet"
  const NO_HELMET := "no_helmet"

  function HeadRegion(k: Settings, p: B.Box): B.Box {
    var wider := p.Width() * k.headExpansion;
    B.Box(p.x1 - wider, p.y1, p.x2 + wider, p.y1 + p.Height() * k.headHeight)
  }

  function Score(k: Settings, head: B.Box, d: Detection): Option<real> {
    var containment := B.OverlapArea(head, d.box) / B.Max(d.box.Area(), 1.0);
    var distance := k.norm(d.box.CenterX() - head.CenterX(), d.box.CenterY() - head.CenterY());
    var center := B.Clamp01(1.0 - distance / B.Max(k.norm(head.Width(), head.Height()), 1.0));
    var inside := head.x1 <= d.box.CenterX() <= head.x2 && head.y1 <= d.box.CenterY() <= head.y2;
    var score := B.Clamp01(0.50 * containment + 0.25 * center + 0.25 * d.confidence);
    if (!inside && containment < 0.20) || score < k.minimumScore then None else Some(score)
  }

  // ---------------------------------------------------------------- greedy choice

  /** They cannot both be chosen. */
  predicate Conflict(a: Candidate, b: Candidate) {
    a.person == b.person || a.detection == b.detection
  }

  predicate Free(chosen: seq<Candidate>, c: Candidate) {
    forall i | 0 <= i < |chosen| :: !Conflict(chosen[i], c)
  }

  function Greedy(cs: seq<Candidate>): seq<Candidate> {
    if cs == [] then []
    else
      var front, last := Greedy(cs[..|cs| - 1]), cs[|cs| - 1];
      if Free(front, last) then front + [last] else front
  }

  ghost predicate Descending(cs: seq<Candidate>) {
    forall i, j | 0 <= i < j < |cs| :: cs[i].score >= cs[j].score
  }

  /** A one-to-one choice. */
  ghost predicate OneToOne(m: seq<Candidate>) {
    forall i, j | 0 <= i < j < |m| :: !Conflict(m[i], m[j])
  }

  ghost predicate AllFrom(m: seq<Candidate>, cs: seq<Candidate>) {
    forall i | 0 <= i < |m| :: m[i] in cs
  }

  function Sum(m: seq<Candidate>): real {
    if m == [] then 0.0 else Sum(m[..|m| - 1]) + m[|m| - 1].score
  }

  lemma {:induction false} GreedyOneToOne(cs: seq<Candidate>)
    ensures OneToOne(Greedy(cs)) && AllFrom(Greedy(cs), cs)
  {
    if cs != [] {
      var front := cs[..|cs| - 1];
      GreedyOneToOne(front);
      assert cs == front + [cs[|cs| - 1]];
    }
  }

  /** Some chosen candidate rules c out, or is c, and scores at least as much. */
  ghost predicate Dominated(chosen: seq<Candidate>, c: Candidate) {
    exists i :: 0 <= i < |chosen| && Conflict(chosen[i], c) && chosen[i].score >= c.score
  }

  /** The greedy choice is maximal, and every candidate left out conflicts with a chosen one of
      at least its score. */
  lemma {:induction false} GreedyDominates(cs: seq<Candidate>, c: Candidate)
    requires Descending(cs) && c in cs
    ensures Dominated(Greedy(cs), c)
  {
    var front, last := cs[..|cs| - 1], cs[|cs| - 1];
    assert cs == front + [last];
    var g := Greedy(front);
    if c in front {
      GreedyDominates(front, c);
      var i :| 0 <= i < |g| && Conflict(g[i], c) && g[i].score >= c.score;
      assert Greedy(cs)[i] == g[i];
    } else if Free(g, last) {
      assert Greedy(cs)[|g|] == c;
    } else {
      var i :| 0 <= i < |g| && Conflict(g[i], last);
      GreedyOneToOne(front);
      var k :| 0 <= k < |front| && front[k] == g[i];
      assert cs[k].score >= cs[|cs| - 1].score;
    }
  }

  // ---------------------------------------------------------------- at least half of the best

  ghost predicate HitsPerson(m: seq<Candidate>, c: Candidate) {
    exists i :: 0 <= i < |m| && m[i].person == c.person
  }

  ghost predicate HitsDetection(m: seq<Candidate>, c: Candidate) {
    exists i :: 0 <= i < |m| && m[i].detection == c.detection
  }

  /** What m may charge to one chosen candidate: its score once for the person, once for the detection. */
  ghost function ChargeOne(g: Candidate, m: seq<Candidate>): real {
    (if HitsPerson(m, g) then g.score else 0.0) + (if HitsDetection(m, g) then g.score else 0.0)
  }

  ghost function Charge(g: seq<Candidate>, m: seq<Candidate>): real {
    if g == [] then 0.0 else Charge(g[..|g| - 1], m) + ChargeOne(g[|g| - 1], m)
  }

  ghost predicate NonNegative(g: seq<Candidate>) {
    forall i | 0 <= i < |g| :: g[i].score >= 0.0
  }

  lemma {:induction false} ChargeAtMostTwice(g: seq<Candidate>, m: seq<Candidate>)
    requires NonNegative(g)
    ensures Charge(g, m) <= 2.0 * Sum(g)
  {
    if g != [] { ChargeAtMostTwice(g[..|g| - 1], m); }
  }

  lemma ChargeOneGrows(g: Candidate, m: seq<Candidate>, c: Candidate)
    requires g.score >= 0.0
    ensures ChargeOne(g, m + [c]) >= ChargeOne(g, m)
    ensures Conflict(g, c) && Free(m, c) ==> ChargeOne(g, m + [c]) >= ChargeOne(g, m) + g.score
  {
    var n := m + [c];
    assert n[|m|] == c;
    if HitsPerson(m, g) { var i :| 0 <= i < |m| && m[i].person == g.person; assert n[i].person == g.person; }
    if HitsDetection(m, g) {
      var i :| 0 <= i < |m| && m[i].detection == g.detection;
      assert n[i].detection == g.detection;
    }
  }

  lemma {:induction false} ChargeGrows(g: seq<Candidate>, m: seq<Candidate>, c: Candidate)
    requires NonNegative(g) && Free(m, c)
    ensures Charge(g, m + [c]) >= Charge(g, m)
    ensures forall i | 0 <= i < |g| && Conflict(g[i], c) :: Charge(g, m + [c]) >= Charge(g, m) + g[i].score
  {
    if g != [] {
      var front := g[..|g| - 1];
      ChargeGrows(front, m, c);
      ChargeOneGrows(g[|g| - 1], m, c);
      forall i | 0 <= i < |g| && Conflict(g[i], c)
        ensures Charge(g, m + [c]) >= Charge(g, m) + g[i].score
      {
        if i < |front| { assert front[i] == g[i]; }
      }
    }
  }

  lemma {:induction false} SumWithinCharge(g: seq<Candidate>, m: seq<Candidate>)
    requires NonNegative(g) && OneToOne(m)
    requires forall i | 0 <= i < |m| :: Dominated(g, m[i])
    ensures Sum(m) <= Charge(g, m)
  {
    if m == [] {
      ChargeNothing(g);
    } else {
      var front, c := m[..|m| - 1], m[|m| - 1];
      SumWithinCharge(g, front);
      assert m == front + [c];
      ChargeGrows(g, front, c);
      assert Dominated(g, c);
    }
  }

  lemma {:induction false} ChargeNothing(g: seq<Candidate>)
    ensures Charge(g, []) == 0.0
  {
    if g != [] { ChargeNothing(g[..|g| - 1]); }
  }

  /** No one-to-one choice among the candidates scores more than twice the greedy one. */
  lemma {:induction false} GreedyAtLeastHalf(cs: seq<Candidate>, m: seq<Candidate>)
    requires Descending(cs) && NonNegative(cs)
    requires OneToOne(m) && AllFrom(m, cs)
    ensures Sum(m) <= 2.0 * Sum(Greedy(cs))
  {
    var g := Greedy(cs);
    GreedyOneToOne(cs);
    forall i | 0 <= i < |g| ensures g[i].score >= 0.0 { assert g[i] in cs; }
    forall i | 0 <= i < |m| ensures Dominated(g, m[i]) { GreedyDominates(cs, m[i]); }
    SumWithinCharge(g, m);
    ChargeAtMostTwice(g, m);
  }

  /** Two candidates that exclude a third of the same score. */
  lemma ThirdExcludesTwo(a: Candidate, b: Candidate, c: Candidate)
    requires a.score == b.score == c.score
    requires Conflict(a, b) && Conflict(a, c) && !Conflict(b, c)
    ensures Descending([a, b, c]) && OneToOne([b, c]) && AllFrom([b, c], [a, b, c])
    ensures Sum([b, c]) == 2.0 * Sum(Greedy([a, b, c])) && Sum(Greedy([a, b, c])) == a.score
  {
    assert [a, b, c][..2] == [a, b] && [a, b][..1] == [a] && [a][..0] == [] && [b, c][..1] == [b] && [b][..0] == [];
    assert Greedy([a]) == [a];
    assert !Free([a], b) by { assert Conflict([a][0], b); }
    assert !Free([a], c) by { assert Conflict([a][0], c); }
    assert Greedy([a, b]) == [a] && Greedy([a, b, c]) == [a];
    assert Sum([a]) == Sum([a][..0]) + a.score;
    assert Sum([b]) == Sum([b][..0]) + b.score;
    assert Sum([b, c]) == Sum([b, c][..1]) + c.score;
  }

  // ---------------------------------------------------------------- the order

  /** By score, then confidence, both falling; then by person and detection. */
  predicate Before(a: Candidate, b: Candidate) {
    || a.score > b.score
    || (a.score == b.score && a.confidence > b.confidence)
    || (a.score == b.score && a.confidence == b.confidence && a.person < b.person)
    || (a.score == b.score && a.confidence == b.confidence && a.person == b.person && a.detection <= b.detection)
  }

  function ByScore(): Order<Candidate> {
    (a: Candidate, b: Candidate) => Before(a, b)
  }

  /** The candidates in that order. */
  lemma {:induction false} SortedKeeps(cs: seq<Candidate>)
    ensures InOrder(ByScore(), Sorted(ByScore(), cs)) && multiset(Sorted(ByScore(), cs)) == multiset(cs)
    ensures Descending(Sorted(ByScore(), cs))
  {
    Sorting.SortedKeeps(ByScore(), cs);
    var sorted := Sorted(ByScore(), cs);
    forall i, j | 0 <= i < j < |sorted| ensures sorted[i].score >= sorted[j].score {
      assert ByScore()(sorted[i], sorted[j]);
    }
  }

  /** By motorcycle, then by person. */
  function ByRider(): Order<Candidate> {
    (a: Candidate, b: Candidate) => a.motorcycle < b.motorcycle
      || (a.motorcycle == b.motorcycle && a.person <= b.person)
  }

  // ---------------------------------------------------------------- the frame

  datatype Rider = Rider(person: nat, motorcycle: nat, box: B.Box)

  predicate Supported(d: Detection) {
    d.className == HELMET || d.className == NO_HELMET
  }

  /** Candidates of one rider with the first n detections. */
  function RiderCandidates(k: Settings, r: Rider, ds: seq<Detection>, n: nat): seq<Candidate>
    requires n <= |ds|
  {
    if n == 0 then []
    else
      var front, d := RiderCandidates(k, r, ds, n - 1), ds[n - 1];
      var head := HeadRegion(k, r.box);
      if !Supported(d) then front
      else
        match Score(k, head, d)
        case None => front
        case Some(score) =>
          front + [Candidate(n - 1, r.person, r.motorcycle, d.className, d.confidence, score, head, d.box)]
  }

  function AllCandidates(k: Settings, rs: seq<Rider>, ds: seq<Detection>): seq<Candidate> {
    if rs == [] then []
    else AllCandidates(k, rs[..|rs| - 1], ds) + RiderCandidates(k, rs[|rs| - 1], ds, |ds|)
  }

  lemma {:induction false} RiderScores(k: Settings, r: Rider, ds: seq<Detection>, n: nat)
    requires n <= |ds|
    ensures forall c | c in RiderCandidates(k, r, ds, n) :: 0.0 <= c.score <= 1.0 && k.minimumScore <= c.score
  {
    if n > 0 { RiderScores(k, r, ds, n - 1); }
  }

  lemma {:induction false} CandidateScores(k: Settings, rs: seq<Rider>, ds: seq<Detection>)
    ensures forall c | c in AllCandidates(k, rs, ds) :: 0.0 <= c.score <= 1.0 && k.minimumScore <= c.score
  {
    if rs != [] {
      CandidateScores(k, rs[..|rs| - 1], ds);
      RiderScores(k, rs[|rs| - 1], ds, |ds|);
    }
  }

  /** What a frame's associations are worth, over all candidates in any order. */
  lemma AssociationsAtLeastHalf(k: Settings, rs: seq<Rider>, ds: seq<Detection>, m: seq<Candidate>)
    requires OneToOne(m) && AllFrom(m, AllCandidates(k, rs, ds))
    ensures var g := Greedy(Sorted(ByScore(), AllCandidates(k, rs, ds)));
      && OneToOne(g) && AllFrom(g, AllCandidates(k, rs, ds))
      && (forall c | c in AllCandidates(k, rs, ds) :: Dominated(g, c))
      && Sum(m) <= 2.0 * Sum(g)
  {
    var cs := AllCandidates(k, rs, ds);
    var sorted := Sorted(ByScore(), cs);
    SortedKeeps(cs);
    CandidateScores(k, rs, ds);
    GreedyOneToOne(sorted);
    assert forall c :: c in sorted <==> c in cs by {
      forall c ensures c in sorted <==> c in cs { assert c in multiset(sorted) <==> c in multiset(cs); }
    }
    forall c | c in cs ensures Dominated(Greedy(sorted), c) { GreedyDominates(sorted, c); }
    GreedyAtLeastHalf(sorted, m);
  }

  // ---------------------------------------------------------------- the factor is tight

  function TightSettings(norm: Norm): Settings {
    Settings(0.5, 0.0, 0.0, norm)
  }

  lemma SideBySide(norm: Norm)
    requires IsNorm(norm)
    ensures norm(5.0, 0.0) == 5.0 == norm(-5.0, 0.0)
  {
    SquaresOrder(norm(5.0, 0.0), 5.0);
    SquaresOrder(5.0, norm(5.0, 0.0));
    SquaresOrder(norm(-5.0, 0.0), 5.0);
    SquaresOrder(5.0, norm(-5.0, 0.0));
  }

  /** What a detection five beside the middle of a head region of this size scores. */
  function TightScore(norm: Norm): real {
    B.Clamp01(0.75 + 0.25 * B.Clamp01(1.0 - 5.0 / B.Max(norm(20.0, 10.0), 1.0)))
  }

  /** A head region that contains the detection five to its side. */
  ghost predicate Beside(head: B.Box, d: Detection) {
    && head.Width() == 20.0 && head.Height() == 10.0
    && d.confidence == 1.0 && d.box.Area() == 4.0 && B.OverlapArea(head, d.box) == 4.0
    && head.x1 <= d.box.CenterX() <= head.x2 && head.y1 <= d.box.CenterY() <= head.y2
    && (d.box.CenterX() - head.CenterX() == 5.0 || d.box.CenterX() - head.CenterX() == -5.0)
    && d.box.CenterY() - head.CenterY() == 0.0
  }

  ghost predicate Apart(head: B.Box, d: Detection) {
    B.OverlapArea(head, d.box) == 0.0 && d.box.CenterX() < head.x1
  }

  lemma ScoreBeside(norm: Norm, head: B.Box, d: Detection)
    requires IsNorm(norm) && Beside(head, d)
    ensures Score(TightSettings(norm), head, d) == Some(TightScore(norm))
  {
    SideBySide(norm);
  }

  lemma ScoreApart(norm: Norm, head: B.Box, d: Detection)
    requires Apart(head, d)
    ensures Score(TightSettings(norm), head, d) == None
  {
  }

  lemma TightScorePositive(norm: Norm)
    ensures TightScore(norm) > 0.0
  {
  }

  function SmallBox(x: real): B.Box {
    B.Box(x - 1.0, 4.0, x + 1.0, 6.0)
  }

  function HeadBox(x: real): B.Box {
    B.Box(x - 10.0, 0.0, x + 10.0, 10.0)
  }

  lemma SmallInside(x: real, y: real)
    requires y - x == 5.0 || y - x == -5.0
    ensures Beside(HeadBox(x), HelmetAt(y))
  {
    var head, small := HeadBox(x), SmallBox(y);
    assert small.Width() == 2.0 && small.Height() == 2.0;
    assert B.OverlapWidth(head, small) == 2.0 && B.OverlapHeight(head, small) == 2.0;
  }

  lemma SmallOutside(x: real, y: real)
    requires y < x - 11.0
    ensures Apart(HeadBox(x), HelmetAt(y))
  {
    assert B.OverlapWidth(HeadBox(x), SmallBox(y)) == 0.0;
  }

  function PersonBox(x: real): B.Box {
    B.Box(x - 10.0, 0.0, x + 10.0, 20.0)
  }

  lemma HeadAt(norm: Norm, x: real)
    ensures HeadRegion(TightSettings(norm), PersonBox(x)) == HeadBox(x)
  {
    var p := PersonBox(x);
    assert p.Width() == 20.0 && p.Height() == 20.0;
  }

  function HelmetAt(x: real): Detection {
    Detection(HELMET, 1.0, SmallBox(x))
  }

  function CandidateOf(k: Settings, r: Rider, d: Detection, index: nat, score: real): Candidate {
    Candidate(index, r.person, r.motorcycle, d.className, d.confidence, score, HeadRegion(k, r.box), d.box)
  }

  lemma ThreeCandidates(k: Settings, r: Rider, q: Rider, d: Detection, e: Detection, score: real)
    requires Supported(d) && Supported(e)
    requires Score(k, HeadRegion(k, r.box), d) == Some(score) && Score(k, HeadRegion(k, r.box), e) == Some(score)
    requires Score(k, HeadRegion(k, q.box), d) == Some(score) && Score(k, HeadRegion(k, q.box), e) == None
    ensures AllCandidates(k, [r, q], [d, e])
         == [CandidateOf(k, r, d, 0, score), CandidateOf(k, r, e, 1, score), CandidateOf(k, q, d, 0, score)]
  {
    var ds := [d, e];
    var a, b, c := CandidateOf(k, r, d, 0, score), CandidateOf(k, r, e, 1, score), CandidateOf(k, q, d, 0, score);
    assert RiderCandidates(k, r, ds, 0) == [] && RiderCandidates(k, q, ds, 0) == [];
    assert RiderCandidates(k, r, ds, 1) == [a] && RiderCandidates(k, r, ds, 2) == [a, b];
    assert RiderCandidates(k, q, ds, 1) == [c] && RiderCandidates(k, q, ds, 2) == [c];
    assert [r, q][..1] == [r] && [r][..0] == [];
    assert AllCandidates(k, [r], ds) == [a, b];
  }

  lemma ThreeInOrder(a: Candidate, b: Candidate, c: Candidate)
    requires Before(a, b) && Before(b, c) && Before(a, c)
    ensures Sorted(ByScore(), [a, b, c]) == [a, b, c]
  {
    assert [a, b, c][..2] == [a, b] && [a, b][..1] == [a] && [a][..0] == [];
    assert [a, b][1..] == [b] && [b][1..] == [] && [a][1..] == [];
    assert Sorted(ByScore(), [a][..0]) == [] && Insert(ByScore(), a, []) == [a];
    assert Sorted(ByScore(), [a]) == [a];
    assert Insert(ByScore(), b, [a]) == [a, b];
    assert Sorted(ByScore(), [a, b]) == [a, b];
    assert Insert(ByScore(), c, [b]) == [b, c];
    assert Insert(ByScore(), c, [a, b]) == [a, b, c];
  }

  /** The factor cannot be improved, on a frame: greedily the first of two riders gets the helmet between
      them and the second none, where each could have had one of the same score. */
  lemma {:induction false} HalfIsTight(norm: Norm) returns (rs: seq<Rider>, ds: seq<Detection>, m: seq<Candidate>)
    requires IsNorm(norm)
    ensures var cs := AllCandidates(TightSettings(norm), rs, ds);
      var g := Greedy(Sorted(ByScore(), cs));
      && OneToOne(m) && AllFrom(m, cs)
      && Sum(g) > 0.0 && Sum(m) == 2.0 * Sum(g)
  {
    rs, ds, m := TightAt(norm, 100.0);
  }

  /** Two riders beside each other; one helmet between their heads, one on the other side of the first. */
  lemma TightAt(norm: Norm, x: real) returns (rs: seq<Rider>, ds: seq<Detection>, m: seq<Candidate>)
    requires IsNorm(norm)
    ensures var cs := AllCandidates(TightSettings(norm), rs, ds);
      var g := Greedy(Sorted(ByScore(), cs));
      && OneToOne(m) && AllFrom(m, cs)
      && Sum(g) > 0.0 && Sum(m) == 2.0 * Sum(g)
  {
    var k := TightSettings(norm);
    var first, second := Rider(1, 1, PersonBox(x)), Rider(2, 1, PersonBox(x + 10.0));
    var between, aside := HelmetAt(x + 5.0), HelmetAt(x - 5.0);
    HeadAt(norm, x);
    HeadAt(norm, x + 10.0);
    SmallInside(x, x + 5.0);
    SmallInside(x, x - 5.0);
    SmallInside(x + 10.0, x + 5.0);
    SmallOutside(x + 10.0, x - 5.0);
    ScoreBeside(norm, HeadBox(x), between);
    ScoreBeside(norm, HeadBox(x), aside);
    ScoreBeside(norm, HeadBox(x + 10.0), between);
    ScoreApart(norm, HeadBox(x + 10.0), aside);
    TightScorePositive(norm);
    m := TightOf(k, first, second, between, aside, TightScore(norm));
    rs, ds := [first, second], [between, aside];
  }

  lemma TightOf(k: Settings, r: Rider, q: Rider, d: Detection, e: Detection, score: real) returns (m: seq<Candidate>)
    requires r.person < q.person && Supported(d) && Supported(e) && d.confidence == e.confidence
    requires Score(k, HeadRegion(k, r.box), d) == Some(score) && Score(k, HeadRegion(k, r.box), e) == Some(score)
    requires Score(k, HeadRegion(k, q.box), d) == Some(score) && Score(k, HeadRegion(k, q.box), e) == None
    ensures var cs := AllCandidates(k, [r, q], [d, e]);
      var g := Greedy(Sorted(ByScore(), cs));
      OneToOne(m) && AllFrom(m, cs) && Sum(g) == score && Sum(m) == 2.0 * Sum(g)
  {
    var a, b, c := CandidateOf(k, r, d, 0, score), CandidateOf(k, r, e, 1, score), CandidateOf(k, q, d, 0, score);
    ThreeCandidates(k, r, q, d, e, score);
    TightChoice(a, b, c);
    m := [b, c];
  }

  lemma TightChoice(a: Candidate, b: Candidate, c: Candidate)
    requires Before(a, b) && Before(b, c) && Before(a, c) && a.score == b.score == c.score
    requires Conflict(a, b) && Conflict(a, c) && !Conflict(b, c)
    ensures var g := Greedy(Sorted(ByScore(), [a, b, c]));
      OneToOne([b, c]) && AllFrom([b, c], [a, b, c]) && Sum(g) == a.score && Sum([b, c]) == 2.0 * Sum(g)
  {
    ThreeInOrder(a, b, c);
    ThirdExcludesTwo(a, b, c);
  }

  /** The visible, confirmed riders of this frame. */
  function RidersOf(reported: seq<T.Reported>, people: map<nat, R.Tracked>): seq<Rider> {
    if reported == [] then []
    else
      var front, x := RidersOf(reported[..|reported| - 1], people), reported[|reported| - 1];
      if x.state.confirmed && x.state.observed && Visible(people, x.key.person) then
        front + [Rider(x.key.person, x.key.motorcycle, people[x.key.person].box)]
      else front
  }

  predicate Visible(people: map<nat, R.Tracked>, id: nat) {
    id in people && people[id].confirmed && people[id].missed == 0 && people[id].className == "person"
  }

  method Associate(k: Settings, people: map<nat, R.Tracked>, reported: seq<T.Reported>, ds: seq<Detection>)
    returns (associations: seq<Candidate>, unclaimed: seq<nat>)
    ensures associations == Sorted(ByRider(),
      Greedy(Sorted(ByScore(), AllCandidates(k, RidersOf(reported, people), ds))))
    ensures forall i: nat :: i in unclaimed <==>
      i < |ds| && Supported(ds[i]) && forall c | c in associations :: c.detection != i
    ensures forall i, j | 0 <= i < j < |unclaimed| :: unclaimed[i] < unclaimed[j]
  {
    var riders := [];
    for i := 0 to |reported|
      invariant riders == RidersOf(reported[..i], people)
    {
      assert reported[..i + 1][..i] == reported[..i];
      var x := reported[i];
      if x.state.confirmed && x.state.observed && Visible(people, x.key.person) {
        riders := riders + [Rider(x.key.person, x.key.motorcycle, people[x.key.person].box)];
      }
    }
    assert reported[..|reported|] == reported;
    var candidates := FindCandidates(k, riders, ds);
    var chosen := ChooseGreedily(Sorted(ByScore(), candidates));
    unclaimed := Unclaimed(ds, chosen);
    associations := Sorted(ByRider(), chosen);
    RearrangedBy(chosen);
  }

  /** The supported detections that were not chosen, in order. */
  method Unclaimed(ds: seq<Detection>, chosen: seq<Candidate>) returns (unclaimed: seq<nat>)
    ensures forall i: nat :: i in unclaimed <==>
      i < |ds| && Supported(ds[i]) && forall c | c in chosen :: c.detection != i
    ensures forall i, j | 0 <= i < j < |unclaimed| :: unclaimed[i] < unclaimed[j]
  {
    unclaimed := [];
    for i := 0 to |ds|
      invariant forall j: nat :: j in unclaimed <==>
        j < i && Supported(ds[j]) && forall c | c in chosen :: c.detection != j
      invariant forall a, b | 0 <= a < b < |unclaimed| :: unclaimed[a] < unclaimed[b]
      invariant forall a | 0 <= a < |unclaimed| :: unclaimed[a] < i
    {
      if Supported(ds[i]) && forall c | c in chosen :: c.detection != i {
        unclaimed := unclaimed + [i];
      }
    }
  }

  lemma RearrangedBy(chosen: seq<Candidate>)
    ensures forall c :: c in Sorted(ByRider(), chosen) <==> c in chosen
  {
    Sorting.SortedKeeps(ByRider(), chosen);
    forall c ensures c in Sorted(ByRider(), chosen) <==> c in chosen {
      assert c in multiset(Sorted(ByRider(), chosen)) <==> c in multiset(chosen);
    }
  }

  method FindCandidates(k: Settings, riders: seq<Rider>, ds: seq<Detection>) returns (cs: seq<Candidate>)
    ensures cs == AllCandidates(k, riders, ds)
  {
    cs := [];
    for i := 0 to |riders|
      invariant cs == AllCandidates(k, riders[..i], ds)
    {
      assert riders[..i + 1][..i] == riders[..i];
      var front := cs;
      var head := HeadRegion(k, riders[i].box);
      for j := 0 to |ds|
        invariant cs == front + RiderCandidates(k, riders[i], ds, j)
      {
        if Supported(ds[j]) {
          var score := Score(k, head, ds[j]);
          if score.Some? {
            cs := cs + [Candidate(j, riders[i].person, riders[i].motorcycle, ds[j].className,
                                  ds[j].confidence, score.value, head, ds[j].box)];
          }
        }
      }
    }
    assert riders[..|riders|] == riders;
  }

  /** Takes each candidate whose person and detection are both unassigned. */
  method ChooseGreedily(cs: seq<Candidate>) returns (chosen: seq<Candidate>)
    ensures chosen == Greedy(cs)
  {
    chosen := [];
    var people, detections: set<nat> := {}, {};
    for i := 0 to |cs|
      invariant chosen == Greedy(cs[..i])
      invariant forall p :: p in people <==> exists j :: 0 <= j < |chosen| && chosen[j].person == p
      invariant forall d :: d in detections <==> exists j :: 0 <= j < |chosen| && chosen[j].detection == d
    {
      assert cs[..i + 1][..i] == cs[..i];
      var c := cs[i];
      if c.person !in people && c.detection !in detections {
        ghost var before := chosen;
        chosen := chosen + [c];
        assert chosen[|before|] == c && forall j | 0 <= j < |before| :: chosen[j] == before[j];
        people, detections := people + {c.person}, detections + {c.detection};
      }
    }
    assert cs[..|cs|] == cs;
  }
}
