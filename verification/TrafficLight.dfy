/** Stable traffic-light states from noisy frame-by-frame classifications. */
module TrafficLight {
  import opened Collections
  import opened Smoothing
  import H = Hysteresis

  /** Identifiers of signal regions; only their equality matters. */
  type RegionId = nat

  datatype Color = Red | Yellow | Green | Unknown

  datatype Scores = Scores(red: real, yellow: real, green: real, activePixels: real)

  datatype Observation = Observation(region: RegionId, name: Option<string>, color: Color, confidence: real,
    scores: Scores)

  datatype Settings = Settings(confirmation: nat, tolerance: nat, alpha: real) {
    predicate Valid() { confirmation > 0 && 0.0 < alpha <= 1.0 }
  }

  /** What is known about one signal region. */
  datatype Signal = Signal(
    region: RegionId, name: Option<string>, raw: Color, rawConfidence: real,
    stable: Color, stableConfidence: real,
    candidate: Color, candidateConfidence: real, streak: nat,
    unknowns: nat, scores: Scores, lastFrame: int, observed: bool)

  datatype Change = Change(
    region: RegionId, name: Option<string>, previous: Color, current: Color,
    confidence: real, at: H.Moment, count: nat)

  // ---------------------------------------------------------------- one region, one observation

  function Created(o: Observation, frame: int): Signal {
    Signal(o.region, o.name, Unknown, 0.0, Unknown, 0.0, Unknown, 0.0, 0, 0, Scores(0.0, 0.0, 0.0, 0.0), frame, false)
  }

  function Cleared(g: Signal): Signal {
    g.(candidate := Unknown, candidateConfidence := 0.0, streak := 0)
  }

  function AfterUnknown(g: Signal, observed: bool, s: Settings): Signal {
    var u := Cleared(g.(raw := Unknown, rawConfidence := 0.0, observed := observed, unknowns := g.unknowns + 1));
    if u.unknowns <= s.tolerance then u else u.(stable := Unknown, stableConfidence := 0.0)
  }

  function UnknownChange(g: Signal, at: H.Moment, s: Settings): seq<Change> {
    if g.unknowns + 1 <= s.tolerance || g.stable == Unknown then []
    else [Change(g.region, g.name, g.stable, Unknown, 0.0, at, g.unknowns + 1)]
  }

  function Noted(g: Signal, o: Observation, frame: int): Signal {
    g.(name := o.name, raw := o.color, rawConfidence := o.confidence, scores := o.scores, lastFrame := frame,
      observed := true)
  }

  /** The candidate after one more frame of a colour that is not the stable one. */
  function Pursued(g: Signal, o: Observation, s: Settings): Signal {
    if o.color == g.candidate then
      g.(streak := g.streak + 1, candidateConfidence := Smooth(s.alpha, o.confidence, g.candidateConfidence))
    else
      g.(candidate := o.color, candidateConfidence := o.confidence, streak := 1)
  }

  function AfterColor(g: Signal, o: Observation, s: Settings): Signal {
    var k := g.(unknowns := 0);
    if o.color == k.stable then
      Cleared(k.(stableConfidence := Smooth(s.alpha, o.confidence, k.stableConfidence)))
    else
      var p := Pursued(k, o, s);
      if p.streak < s.confirmation then p
      else Cleared(p.(stable := p.candidate, stableConfidence := p.candidateConfidence))
  }

  function ColorChange(g: Signal, o: Observation, at: H.Moment, s: Settings): seq<Change> {
    var p := Pursued(g, o, s);
    if o.color == g.stable || p.streak < s.confirmation then []
    else [Change(g.region, g.name, g.stable, p.candidate, p.candidateConfidence, at, p.streak)]
  }

  function AfterObservation(g: Signal, o: Observation, at: H.Moment, s: Settings): Signal {
    var n := Noted(g, o, at.frame);
    if o.color == Unknown then AfterUnknown(n, true, s) else AfterColor(n, o, s)
  }

  function ObservationChange(g: Signal, o: Observation, at: H.Moment, s: Settings): seq<Change> {
    var n := Noted(g, o, at.frame);
    if o.color == Unknown then UnknownChange(n, at, s) else ColorChange(n, o, at, s)
  }

  // ---------------------------------------------------------------- one region, its whole history

  /** An observation of the region, or a frame without one. */
  datatype Sample = Sample(at: H.Moment, seen: Option<Observation>)

  function Step(g: Signal, x: Sample, s: Settings): Signal {
    match x.seen
    case Some(o) => AfterObservation(g, o, x.at, s)
    case None => AfterUnknown(g, false, s)
  }

  function ChangeOf(g: Signal, x: Sample, s: Settings): seq<Change> {
    match x.seen
    case Some(o) => ObservationChange(g, o, x.at, s)
    case None => UnknownChange(g, x.at, s)
  }

  /** How a region is created, and how a sample changes it and is reported. */
  datatype Behaviour = Behaviour(
    create: (Observation, int) -> Signal,
    step: (Signal, Sample) -> Signal,
    change: (Signal, Sample) -> seq<Change>)

  function Behave(s: Settings): Behaviour {
    Behaviour(Created, (g: Signal, x: Sample) => Step(g, x, s), (g: Signal, x: Sample) => ChangeOf(g, x, s))
  }

  /** The state of a region that was created, after all its samples. */
  ghost function After(start: Signal, h: seq<Sample>, b: Behaviour): Signal {
    if h == [] then start else b.step(After(start, h[..|h| - 1], b), h[|h| - 1])
  }

  ghost function ChangesAfter(start: Signal, h: seq<Sample>, b: Behaviour): seq<Change> {
    if h == [] then []
    else ChangesAfter(start, h[..|h| - 1], b) + b.change(After(start, h[..|h| - 1], b), h[|h| - 1])
  }

  /** The raw colour of a sample; a missing observation counts as unknown. */
  function ColorOf(x: Sample): Color {
    match x.seen
    case Some(o) => o.color
    case None => Unknown
  }

  /** How many samples in a row, up to the last one, had its colour. */
  ghost function RunLength(h: seq<Sample>): nat {
    if h == [] then 0
    else if |h| >= 2 && ColorOf(h[|h| - 2]) == ColorOf(h[|h| - 1]) then RunLength(h[..|h| - 1]) + 1
    else 1
  }

  /** The last samples decide: enough of one colour in a row, or unknown for too long. */
  ghost predicate Decisive(h: seq<Sample>, s: Settings) {
    && h != []
    && RunLength(h) >= (if ColorOf(h[|h| - 1]) == Unknown then s.tolerance + 1 else s.confirmation)
  }

  /** The specification: the colour of the latest decisive window, unknown if there was none. */
  ghost predicate DecidedAs(h: seq<Sample>, c: Color, s: Settings) {
    || (c == Unknown && forall i | 0 <= i <= |h| :: !Decisive(h[..i], s))
    || exists i | 0 < i <= |h| :: LatestDecision(h, i, s) && ColorOf(h[i - 1]) == c
  }

  ghost predicate LatestDecision(h: seq<Sample>, i: nat, s: Settings)
    requires i <= |h|
  {
    Decisive(h[..i], s) && forall j | i < j <= |h| :: !Decisive(h[..j], s)
  }

  ghost function Decided(h: seq<Sample>, s: Settings): Color {
    if h == [] then Unknown
    else if Decisive(h, s) then ColorOf(h[|h| - 1])
    else Decided(h[..|h| - 1], s)
  }

  lemma {:induction false} DecidedIsLatest(h: seq<Sample>, s: Settings)
    ensures DecidedAs(h, Decided(h, s), s)
  {
    assert h[..|h|] == h;
    if h == [] {
    } else if Decisive(h, s) {
      assert LatestDecision(h, |h|, s);
    } else {
      var front := h[..|h| - 1];
      DecidedIsLatest(front, s);
      forall i | 0 <= i <= |front| ensures front[..i] == h[..i] {}
      if exists i | 0 < i <= |front| :: LatestDecision(front, i, s) && ColorOf(front[i - 1]) == Decided(h, s) {
        var i :| 0 < i <= |front| && LatestDecision(front, i, s) && ColorOf(front[i - 1]) == Decided(h, s);
        DecisionExtends(h, i, s);
      }
    }
  }

  lemma DecisionExtends(h: seq<Sample>, i: nat, s: Settings)
    requires 0 < i < |h| && LatestDecision(h[..|h| - 1], i, s) && !Decisive(h, s)
    ensures LatestDecision(h, i, s)
  {
    var front := h[..|h| - 1];
    assert front[..i] == h[..i];
    forall j | i < j <= |h|
      ensures !Decisive(h[..j], s)
    {
      if j < |h| { assert front[..j] == h[..j]; } else { assert h[..j] == h; }
    }
  }

  /** There is only one latest decision. */
  lemma {:induction false} DecidedUniquely(h: seq<Sample>, c: Color, d: Color, s: Settings)
    requires DecidedAs(h, c, s) && DecidedAs(h, d, s)
    ensures c == d
  {
    if exists i | 0 < i <= |h| :: LatestDecision(h, i, s) && ColorOf(h[i - 1]) == c {
      var i :| 0 < i <= |h| && LatestDecision(h, i, s) && ColorOf(h[i - 1]) == c;
      if exists j | 0 < j <= |h| :: LatestDecision(h, j, s) && ColorOf(h[j - 1]) == d {
        var j :| 0 < j <= |h| && LatestDecision(h, j, s) && ColorOf(h[j - 1]) == d;
        assert i == j;
      }
    }
  }

  /** A run is a window of samples of one colour. */
  lemma {:induction false} RunIsWindow(h: seq<Sample>, n: nat)
    requires n > 0
    ensures RunLength(h) >= n <==> n <= |h| && forall i | |h| - n <= i < |h| :: ColorOf(h[i]) == ColorOf(h[|h| - 1])
  {
    if n > 1 && |h| >= 2 {
      var front := h[..|h| - 1];
      RunIsWindow(front, n - 1);
      if ColorOf(h[|h| - 2]) == ColorOf(h[|h| - 1]) && n <= |h| {
        assert forall i | |front| - (n - 1) <= i < |front| :: front[i] == h[i];
      } else if n <= |h| {
        assert |h| - n <= |h| - 2 < |h|;
      }
    }
  }

  ghost predicate Initial(g: Signal) {
    g.stable == Unknown && g.candidate == Unknown && g.streak == 0 && g.unknowns == 0
    && g.stableConfidence == 0.0 && g.candidateConfidence == 0.0
  }

  /** The counters of the state are the run lengths of the history. */
  ghost predicate Follows(g: Signal, h: seq<Sample>, s: Settings) {
    && g.stable == Decided(h, s)
    && (if h == [] then Initial(g)
        else
          var c := ColorOf(h[|h| - 1]);
          && g.unknowns == (if c == Unknown then RunLength(h) else 0)
          && (if c == Unknown || c == g.stable then g.candidate == Unknown && g.streak == 0
              else g.candidate == c && g.streak == RunLength(h) < s.confirmation))
  }

  lemma FollowsStep(g: Signal, h: seq<Sample>, s: Settings)
    requires s.Valid() && h != [] && Follows(g, h[..|h| - 1], s)
    ensures Follows(Step(g, h[|h| - 1], s), h, s)
  {
    var front := h[..|h| - 1];
    if front != [] {
      assert front[|front| - 1] == h[|h| - 2];
      if ColorOf(h[|h| - 2]) == Unknown && RunLength(front) > s.tolerance {
        UnknownDecides(front, s);
      }
    }
  }

  /** Once unknown for too long, unknown it stays while nothing else is seen. */
  lemma UnknownDecides(h: seq<Sample>, s: Settings)
    requires h != [] && ColorOf(h[|h| - 1]) == Unknown && RunLength(h) > s.tolerance
    ensures Decided(h, s) == Unknown
  {
  }

  /** The stable state of a region is, after every sample, what the latest decisive window says. */
  lemma {:induction false} StableIsDecided(start: Signal, h: seq<Sample>, s: Settings)
    requires s.Valid() && Initial(start)
    ensures Follows(After(start, h, Behave(s)), h, s)
    ensures DecidedAs(h, After(start, h, Behave(s)).stable, s)
  {
    DecidedIsLatest(h, s);
    if h != [] {
      StableIsDecided(start, h[..|h| - 1], s);
      FollowsStep(After(start, h[..|h| - 1], Behave(s)), h, s);
    }
  }

  /** A change is reported exactly when the decided colour changes; it leads from the old to
      the new one, and counts exactly the samples that were needed. */
  lemma ChangesExactly(start: Signal, h: seq<Sample>, s: Settings)
    requires s.Valid() && Initial(start) && h != []
    ensures var front, last := h[..|h| - 1], h[|h| - 1];
      var out := ChangeOf(After(start, front, Behave(s)), last, s);
      && |out| == (if Decided(front, s) == Decided(h, s) then 0 else 1)
      && (|out| == 1 ==>
            && out[0].previous == Decided(front, s) && out[0].current == Decided(h, s) && out[0].at == last.at
            && out[0].count == (if out[0].current == Unknown then s.tolerance + 1 else s.confirmation))
  {
    var front := h[..|h| - 1];
    StableIsDecided(start, front, s);
    StableIsDecided(start, h, s);
    if front != [] {
      assert front[|front| - 1] == h[|h| - 2];
      if ColorOf(h[|h| - 2]) == Unknown && RunLength(front) > s.tolerance {
        UnknownDecides(front, s);
      }
    }
  }

  /** Reported changes form a chain that starts unknown and ends in the stable state. */
  ghost predicate Chained(cs: seq<Change>, last: Color) {
    if cs == [] then last == Unknown
    else
      && cs[|cs| - 1].current == last && cs[|cs| - 1].previous != last
      && Chained(cs[..|cs| - 1], cs[|cs| - 1].previous)
  }

  lemma {:induction false} ChangesChain(start: Signal, h: seq<Sample>, s: Settings)
    requires s.Valid() && Initial(start)
    ensures Chained(ChangesAfter(start, h, Behave(s)), After(start, h, Behave(s)).stable)
  {
    StableIsDecided(start, h, s);
    if h != [] {
      var front := h[..|h| - 1];
      ChangesChain(start, front, s);
      StableIsDecided(start, front, s);
      ChangesExactly(start, h, s);
      var cs, out := ChangesAfter(start, front, Behave(s)), ChangeOf(After(start, front, Behave(s)), h[|h| - 1], s);
      if out == [] {
        assert cs + out == cs;
      } else {
        assert (cs + out)[..|cs|] == cs;
      }
    }
  }

  ghost predicate Confident(g: Signal) {
    0.0 <= g.stableConfidence <= 1.0 && 0.0 <= g.candidateConfidence <= 1.0
  }

  lemma StepConfident(g: Signal, x: Sample, s: Settings)
    requires s.Valid() && Confident(g) && (x.seen.Some? ==> 0.0 <= x.seen.value.confidence <= 1.0)
    ensures Confident(Step(g, x, s))
    ensures forall i | 0 <= i < |ChangeOf(g, x, s)| :: 0.0 <= ChangeOf(g, x, s)[i].confidence <= 1.0
  {
    if x.seen.Some? {
      SmoothWithin(s.alpha, x.seen.value.confidence, g.stableConfidence, 0.0, 1.0);
      SmoothWithin(s.alpha, x.seen.value.confidence, g.candidateConfidence, 0.0, 1.0);
    }
  }

  /** Confidences stay between zero and one. */
  lemma {:induction false} ConfidencesInUnit(start: Signal, h: seq<Sample>, s: Settings)
    requires s.Valid() && Initial(start)
    requires forall i | 0 <= i < |h| && h[i].seen.Some? :: 0.0 <= h[i].seen.value.confidence <= 1.0
    ensures Confident(After(start, h, Behave(s)))
    ensures forall i | 0 <= i < |ChangesAfter(start, h, Behave(s))| ::
      0.0 <= ChangesAfter(start, h, Behave(s))[i].confidence <= 1.0
  {
    if h != [] {
      ConfidencesInUnit(start, h[..|h| - 1], s);
      StepConfident(After(start, h[..|h| - 1], Behave(s)), h[|h| - 1], s);
    }
  }

  // ---------------------------------------------------------------- all regions

  function SeeOne(m: map<RegionId, Signal>, o: Observation, at: H.Moment, b: Behaviour): map<RegionId, Signal> {
    m[o.region := b.step(Existing(m, o, at, b), Sample(at, Some(o)))]
  }

  function Existing(m: map<RegionId, Signal>, o: Observation, at: H.Moment, b: Behaviour): Signal {
    if o.region in m then m[o.region] else b.create(o, at.frame)
  }

  function SeeAll(m: map<RegionId, Signal>, os: seq<Observation>, at: H.Moment, b: Behaviour): map<RegionId, Signal> {
    if os == [] then m else SeeOne(SeeAll(m, os[..|os| - 1], at, b), os[|os| - 1], at, b)
  }

  function SeenChanges(m: map<RegionId, Signal>, os: seq<Observation>, at: H.Moment, b: Behaviour): seq<Change> {
    if os == [] then []
    else
      var front, o := os[..|os| - 1], os[|os| - 1];
      SeenChanges(m, front, at, b) + b.change(Existing(SeeAll(m, front, at, b), o, at, b), Sample(at, Some(o)))
  }

  function RegionsOf(os: seq<Observation>): set<RegionId> {
    if os == [] then {} else RegionsOf(os[..|os| - 1]) + {os[|os| - 1].region}
  }

  function MissAll(m: map<RegionId, Signal>, seen: set<RegionId>, at: H.Moment, b: Behaviour): map<RegionId, Signal> {
    map r | r in m :: if r in seen then m[r] else b.step(m[r], Sample(at, None))
  }

  function OfRegion(cs: seq<Change>, r: RegionId): seq<Change> {
    if cs == [] then []
    else OfRegion(cs[..|cs| - 1], r) + if cs[|cs| - 1].region == r then [cs[|cs| - 1]] else []
  }

  /** The regions that were not seen report their changes in some order. */
  ghost predicate MissedChanges(m: map<RegionId, Signal>, seen: set<RegionId>, at: H.Moment, b: Behaviour,
                                out: seq<Change>) {
    forall r: RegionId :: OfRegion(out, r) == if r in m && r !in seen then b.change(m[r], Sample(at, None)) else []
  }

  /** One frame of the stabilizer. */
  ghost predicate Frame(m: map<RegionId, Signal>, os: seq<Observation>, at: H.Moment, b: Behaviour,
                        after: map<RegionId, Signal>, out: seq<Change>)
  {
    var seen := SeeAll(m, os, at, b);
    && after == MissAll(seen, RegionsOf(os), at, b)
    && exists missed :: MissedChanges(seen, RegionsOf(os), at, b, missed) && out == SeenChanges(m, os, at, b) + missed
  }

  ghost predicate Named(m: map<RegionId, Signal>) {
    forall r | r in m :: m[r].region == r
  }

  /** A region is changed and reported under its own name, at most once a sample. */
  ghost predicate Local(b: Behaviour) {
    && (forall o, frame :: b.create(o, frame).region == o.region)
    && (forall g, x :: b.step(g, x).region == g.region)
    && (forall g, x :: |b.change(g, x)| <= 1 && forall i | 0 <= i < |b.change(g, x)| ::
      b.change(g, x)[i].region == g.region)
  }

  lemma BehaveLocal(s: Settings)
    ensures Local(Behave(s))
  {
  }

  function OwnSamples(os: seq<Observation>, r: RegionId, at: H.Moment): seq<Sample> {
    if os == [] then []
    else
      OwnSamples(os[..|os| - 1], r, at)
      + if os[|os| - 1].region == r then [Sample(at, Some(os[|os| - 1]))] else []
  }

  /** What one frame adds to the history of a region; a region never seen before has none. */
  function FrameSamples(h: seq<Sample>, os: seq<Observation>, r: RegionId, at: H.Moment): seq<Sample> {
    var own := OwnSamples(os, r, at);
    if own != [] then own else if h != [] then [Sample(at, None)] else []
  }

  datatype Input = Input(at: H.Moment, observations: seq<Observation>)

  ghost function Samples(frames: seq<Input>, r: RegionId): seq<Sample> {
    if frames == [] then []
    else
      var front, last := Samples(frames[..|frames| - 1], r), frames[|frames| - 1];
      front + FrameSamples(front, last.observations, r, last.at)
  }

  ghost function StartOf(h: seq<Sample>, b: Behaviour): Signal
    requires h != [] && h[0].seen.Some?
  {
    b.create(h[0].seen.value, h[0].at.frame)
  }

  /** The region's entry and its reported changes are those of its own history. */
  ghost predicate Tracks(e: Option<Signal>, cs: seq<Change>, h: seq<Sample>, b: Behaviour) {
    if h == [] then e == None && cs == []
    else h[0].seen.Some? && e == Some(After(StartOf(h, b), h, b)) && cs == ChangesAfter(StartOf(h, b), h, b)
  }

  lemma TracksOneMore(e: Option<Signal>, cs: seq<Change>, h: seq<Sample>, x: Sample, b: Behaviour)
    requires Tracks(e, cs, h, b) && (h == [] ==> x.seen.Some?)
    ensures var g := if e.Some? then e.value else StartOf([x], b);
      Tracks(Some(b.step(g, x)), cs + b.change(g, x), h + [x], b)
  {
    var n := h + [x];
    assert n[..|h|] == h;
    if h == [] {
      assert cs + b.change(StartOf([x], b), x) == b.change(StartOf([x], b), x);
      assert [x][..0] == [] && n == [x];
    }
  }

  lemma {:induction false} OfRegionAppend(a: seq<Change>, b: seq<Change>, r: RegionId)
    ensures OfRegion(a + b, r) == OfRegion(a, r) + OfRegion(b, r)
  {
    if b == [] {
      assert a + b == a;
    } else {
      assert (a + b)[..|a + b| - 1] == a + b[..|b| - 1];
      OfRegionAppend(a, b[..|b| - 1], r);
    }
  }

  lemma SeeOneTracks(m: map<RegionId, Signal>, o: Observation, at: H.Moment, b: Behaviour,
                     cs: seq<Change>, h: seq<Sample>, r: RegionId)
    requires Local(b) && Named(m) && Tracks(Lookup(m, r), OfRegion(cs, r), h, b)
    ensures Named(SeeOne(m, o, at, b))
    ensures Tracks(Lookup(SeeOne(m, o, at, b), r),
                   OfRegion(cs + b.change(Existing(m, o, at, b), Sample(at, Some(o))), r),
                   h + (if o.region == r then [Sample(at, Some(o))] else []), b)
  {
    var out := b.change(Existing(m, o, at, b), Sample(at, Some(o)));
    OfRegionAppend(cs, out, r);
    OutRegion(out, o.region, r);
    if o.region == r {
      TracksOneMore(Lookup(m, r), OfRegion(cs, r), h, Sample(at, Some(o)), b);
    } else {
      assert h + [] == h;
    }
  }

  lemma {:induction false} SeeAllTracks(m: map<RegionId, Signal>, os: seq<Observation>, at: H.Moment, b: Behaviour,
                                        cs: seq<Change>, h: seq<Sample>, r: RegionId)
    requires Local(b) && Named(m) && Tracks(Lookup(m, r), OfRegion(cs, r), h, b)
    ensures Named(SeeAll(m, os, at, b))
    ensures Tracks(Lookup(SeeAll(m, os, at, b), r), OfRegion(cs + SeenChanges(m, os, at, b), r),
                   h + OwnSamples(os, r, at), b)
  {
    if os == [] {
      assert cs + SeenChanges(m, os, at, b) == cs && h + OwnSamples(os, r, at) == h;
    } else {
      var front, o := os[..|os| - 1], os[|os| - 1];
      var before, seen, own := SeeAll(m, front, at, b), SeenChanges(m, front, at, b), OwnSamples(front, r, at);
      SeeAllTracks(m, front, at, b, cs, h, r);
      SeeOneTracks(before, o, at, b, cs + seen, h + own, r);
      Regroup(cs, seen, b.change(Existing(before, o, at, b), Sample(at, Some(o))));
      Regroup(h, own, if o.region == r then [Sample(at, Some(o))] else []);
    }
  }

  lemma {:induction false} OwnIffSeen(os: seq<Observation>, r: RegionId, at: H.Moment)
    ensures OwnSamples(os, r, at) != [] <==> r in RegionsOf(os)
  {
    if os != [] { OwnIffSeen(os[..|os| - 1], r, at); }
  }

  lemma OutRegion(out: seq<Change>, from: RegionId, r: RegionId)
    requires |out| <= 1 && forall i | 0 <= i < |out| :: out[i].region == from
    ensures OfRegion(out, r) == if r == from then out else []
  {
    if out != [] { assert out[..0] == []; }
  }

  /** A run of the stabilizer. */
  ghost predicate Runs(frames: seq<Input>, b: Behaviour, states: seq<map<RegionId, Signal>>, outs: seq<seq<Change>>) {
    && |states| == |frames| + 1 && |outs| == |frames| && states[0] == map[]
    && forall i | 0 <= i < |frames| :: Frame(states[i], frames[i].observations, frames[i].at, b, states[i + 1], outs[i])
  }

  lemma MissTracks(m: map<RegionId, Signal>, seen: set<RegionId>, at: H.Moment, b: Behaviour, missed: seq<Change>,
                   cs: seq<Change>, h: seq<Sample>, r: RegionId)
    requires MissedChanges(m, seen, at, b, missed)
    requires Local(b) && Named(m) && Tracks(Lookup(m, r), OfRegion(cs, r), h, b)
    ensures Named(MissAll(m, seen, at, b))
    ensures Tracks(Lookup(MissAll(m, seen, at, b), r), OfRegion(cs + missed, r),
                   h + (if r !in seen && h != [] then [Sample(at, None)] else []), b)
  {
    OfRegionAppend(cs, missed, r);
    if r in m && r !in seen {
      TracksOneMore(Lookup(m, r), OfRegion(cs, r), h, Sample(at, None), b);
    } else {
      assert h + [] == h;
      assert OfRegion(cs, r) + [] == OfRegion(cs, r);
    }
  }

  lemma FrameTracks(m: map<RegionId, Signal>, x: Input, b: Behaviour, after: map<RegionId, Signal>, out: seq<Change>,
                    cs: seq<Change>, h: seq<Sample>, r: RegionId)
    requires Frame(m, x.observations, x.at, b, after, out)
    requires Local(b) && Named(m) && Tracks(Lookup(m, r), OfRegion(cs, r), h, b)
    ensures Named(after)
    ensures Tracks(Lookup(after, r), OfRegion(cs + out, r), h + FrameSamples(h, x.observations, r, x.at), b)
  {
    var os, at := x.observations, x.at;
    var seen, early, own := SeeAll(m, os, at, b), SeenChanges(m, os, at, b), OwnSamples(os, r, at);
    var missed :| MissedChanges(seen, RegionsOf(os), at, b, missed) && out == early + missed;
    SeeAllTracks(m, os, at, b, cs, h, r);
    OwnIffSeen(os, r, at);
    MissTracks(seen, RegionsOf(os), at, b, missed, cs + early, h + own, r);
    Regroup(cs, early, missed);
    FrameSamplesAppend(h, os, r, at);
  }

  lemma FrameSamplesAppend(h: seq<Sample>, os: seq<Observation>, r: RegionId, at: H.Moment)
    ensures var own := OwnSamples(os, r, at);
      h + FrameSamples(h, os, r, at) ==
      (h + own) + if r !in RegionsOf(os) && h + own != [] then [Sample(at, None)] else []
  {
    OwnIffSeen(os, r, at);
  }

  /** In any run, every region follows its own history, whatever the other regions show. */
  lemma {:induction false} RegionsRunAlone(frames: seq<Input>, b: Behaviour, states: seq<map<RegionId, Signal>>,
                                           outs: seq<seq<Change>>, r: RegionId)
    requires Local(b) && Runs(frames, b, states, outs)
    ensures Named(states[|frames|])
    ensures Tracks(Lookup(states[|frames|], r), OfRegion(H.Concat(outs), r), Samples(frames, r), b)
  {
    if frames != [] {
      var n := |frames| - 1;
      RegionsRunAlone(frames[..n], b, states[..n + 1], outs[..n], r);
      assert states[..n + 1][n] == states[n];
      LastFrameTracks(states[n], frames, b, states[n + 1], outs, r);
    }
  }

  lemma LastFrameTracks(m: map<RegionId, Signal>, frames: seq<Input>, b: Behaviour, after: map<RegionId, Signal>,
                        outs: seq<seq<Change>>, r: RegionId)
    requires frames != [] && |outs| == |frames| && Local(b) && Named(m)
    requires var n := |frames| - 1;
      && Frame(m, frames[n].observations, frames[n].at, b, after, outs[n])
      && Tracks(Lookup(m, r), OfRegion(H.Concat(outs[..n]), r), Samples(frames[..n], r), b)
    ensures Named(after)
    ensures Tracks(Lookup(after, r), OfRegion(H.Concat(outs), r), Samples(frames, r), b)
  {
    var n := |frames| - 1;
    FrameTracks(m, frames[n], b, after, outs[n], H.Concat(outs[..n]), Samples(frames[..n], r), r);
  }

  // ---------------------------------------------------------------- the object

  /** Every region neither seen nor still to do has missed the frame. */
  ghost predicate MissedSoFar(m: map<RegionId, Signal>, after: map<RegionId, Signal>, seen: set<RegionId>,
                              todo: set<RegionId>, at: H.Moment, b: Behaviour, out: seq<Change>)
  {
    && after.Keys == m.Keys
    && (forall r: RegionId | r in m ::
      after[r] == if r in seen || r in todo then m[r] else b.step(m[r], Sample(at, None)))
    && forall r: RegionId ::
         OfRegion(out, r) == if r in m && r !in seen && r !in todo then b.change(m[r], Sample(at, None)) else []
  }

  lemma AllMissed(m: map<RegionId, Signal>, after: map<RegionId, Signal>, seen: set<RegionId>,
                  at: H.Moment, b: Behaviour, out: seq<Change>)
    requires MissedSoFar(m, after, seen, {}, at, b, out)
    ensures after == MissAll(m, seen, at, b) && MissedChanges(m, seen, at, b, out)
  {
  }

  lemma OneMoreMissed(m: map<RegionId, Signal>, after: map<RegionId, Signal>, seen: set<RegionId>, todo: set<RegionId>,
                      at: H.Moment, b: Behaviour, out: seq<Change>, g: Signal, change: seq<Change>, r: RegionId)
    requires MissedSoFar(m, after, seen, todo, at, b, out)
    requires r in m && r in todo && r !in seen
    requires g == b.step(m[r], Sample(at, None)) && change == b.change(m[r], Sample(at, None))
    requires |change| <= 1 && forall i | 0 <= i < |change| :: change[i].region == r
    ensures MissedSoFar(m, after[r := g], seen, todo - {r}, at, b, out + change)
  {
    forall q: RegionId
      ensures OfRegion(out + change, q) == if q == r then change else OfRegion(out, q)
    {
      OfRegionAppend(out, change, q);
      OutRegion(change, r, q);
    }
  }

  datatype Reply = Refused | Changes(changes: seq<Change>)

  class Stabilizer {
    var states: map<RegionId, Signal>
    const settings: Settings

    ghost predicate Valid()
      reads this
    {
      settings.Valid() && Named(states)
    }

    constructor (settings: Settings)
      requires settings.Valid()
      ensures Valid() && states == map[] && this.settings == settings
    {
      this.settings := settings;
      states := map[];
    }

    /** One frame: applies every observation, then an unknown to every region without one. */
    method Update(at: H.Moment, observations: seq<Observation>) returns (reply: Reply)
      requires Valid()
      modifies this
      ensures Valid()
      ensures reply.Refused? <==> at.frame <= 0 || at.time < 0.0
      ensures reply.Refused? ==> states == old(states)
      ensures reply.Changes? ==> Frame(old(states), observations, at, Behave(settings), states, reply.changes)
    {
      if at.frame <= 0 || at.time < 0.0 {
        return Refused;
      }
      var early, seen := ApplyAll(at, observations);
      ghost var m := states;
      var missed := ApplyMisses(at, seen);
      AllMissed(m, states, seen, at, Behave(settings), missed);
      reply := Changes(early + missed);
    }

    method ApplyAll(at: H.Moment, observations: seq<Observation>) returns (out: seq<Change>, seen: set<RegionId>)
      requires Valid()
      modifies this
      ensures Valid()
      ensures states == SeeAll(old(states), observations, at, Behave(settings))
      ensures out == SeenChanges(old(states), observations, at, Behave(settings))
      ensures seen == RegionsOf(observations)
    {
      out, seen := [], {};
      for i := 0 to |observations|
        invariant Valid()
        invariant states == SeeAll(old(states), observations[..i], at, Behave(settings))
        invariant out == SeenChanges(old(states), observations[..i], at, Behave(settings))
        invariant seen == RegionsOf(observations[..i])
      {
        assert observations[..i + 1][..i] == observations[..i];
        var change := ApplyOne(at, observations[i]);
        out, seen := out + change, seen + {observations[i].region};
      }
      assert observations[..|observations|] == observations;
    }

    method ApplyOne(at: H.Moment, o: Observation) returns (out: seq<Change>)
      requires Valid()
      modifies this
      ensures Valid()
      ensures states == SeeOne(old(states), o, at, Behave(settings))
      ensures out == Behave(settings).change(Existing(old(states), o, at, Behave(settings)), Sample(at, Some(o)))
    {
      var g := if o.region in states then states[o.region] else Created(o, at.frame);
      g, out := ApplyObservation(g, o, at);
      states := states[o.region := g];
    }

    method ApplyObservation(before: Signal, o: Observation, at: H.Moment) returns (g: Signal, out: seq<Change>)
      ensures g == AfterObservation(before, o, at, settings)
      ensures out == ObservationChange(before, o, at, settings)
    {
      g := before.(name := o.name, raw := o.color, rawConfidence := o.confidence);
      g := g.(scores := o.scores, lastFrame := at.frame, observed := true);
      if o.color == Unknown {
        g, out := ApplyUnknown(g, true, at);
      } else {
        g, out := ApplyColor(g, o, at);
      }
    }

    method ApplyColor(before: Signal, o: Observation, at: H.Moment) returns (g: Signal, out: seq<Change>)
      ensures g == AfterColor(before, o, settings)
      ensures out == ColorChange(before, o, at, settings)
    {
      g, out := before.(unknowns := 0), [];
      if o.color == g.stable {
        g := Cleared(g.(stableConfidence := Smooth(settings.alpha, o.confidence, g.stableConfidence)));
        return;
      }
      if o.color == g.candidate {
        g := g.(streak := g.streak + 1);
        g := g.(candidateConfidence := Smooth(settings.alpha, o.confidence, g.candidateConfidence));
      } else {
        g := g.(candidate := o.color, candidateConfidence := o.confidence, streak := 1);
      }
      if g.streak < settings.confirmation {
        return;
      }
      out := [Change(g.region, g.name, g.stable, g.candidate, g.candidateConfidence, at, g.streak)];
      g := g.(stable := g.candidate, stableConfidence := g.candidateConfidence);
      g := Cleared(g);
    }

    method ApplyUnknown(before: Signal, seen: bool, at: H.Moment) returns (g: Signal, out: seq<Change>)
      ensures g == AfterUnknown(before, seen, settings)
      ensures out == UnknownChange(before, at, settings)
    {
      g, out := before.(raw := Unknown, rawConfidence := 0.0, observed := seen), [];
      g := Cleared(g.(unknowns := g.unknowns + 1));
      if g.unknowns <= settings.tolerance {
        return;
      }
      if g.stable != Unknown {
        out := [Change(g.region, g.name, g.stable, Unknown, 0.0, at, g.unknowns)];
      }
      g := g.(stable := Unknown, stableConfidence := 0.0);
    }

    method ApplyMisses(at: H.Moment, seen: set<RegionId>) returns (out: seq<Change>)
      requires Valid()
      modifies this
      ensures Valid()
      ensures MissedSoFar(old(states), states, seen, {}, at, Behave(settings), out)
    {
      out := [];
      var todo := states.Keys - seen;
      while todo != {}
        invariant todo <= old(states).Keys - seen
        invariant Valid() && MissedSoFar(old(states), states, seen, todo, at, Behave(settings), out)
        decreases |todo|
      {
        var r :| r in todo;
        out := MissOne(at, r, out, old(states), seen, todo);
        todo := todo - {r};
      }
    }

    method MissOne(at: H.Moment, r: RegionId, before: seq<Change>, ghost m: map<RegionId, Signal>,
                   ghost seen: set<RegionId>, ghost todo: set<RegionId>) returns (out: seq<Change>)
      requires Valid() && MissedSoFar(m, states, seen, todo, at, Behave(settings), before)
      requires r in todo && r in m && r !in seen
      modifies this
      ensures Valid() && MissedSoFar(m, states, seen, todo - {r}, at, Behave(settings), out)
    {
      var g, change := ApplyUnknown(states[r], false, at);
      OneMoreMissed(m, states, seen, todo, at, Behave(settings), before, g, change, r);
      states := states[r := g];
      out := before + change;
    }

    method Reset()
      requires Valid()
      modifies this
      ensures Valid() && states == map[]
    {
      states := map[];
    }
  }
}
