/** Crossing a stop line while the light is red. */
module RedLight {
  import opened Geometry
  import opened Norms
  import opened Collections
  import opened StopLines
  import B = Boxes
  import H = Hysteresis
  import L = LaneOccupancy
  import R = Riders
  import TL = TrafficLight

  datatype StopLine = StopLine(id: string, lane: Option<string>, light: Option<TL.RegionId>, start: Point, end: Point)

  datatype Scene = Scene(enabled: bool, lanes: seq<L.Lane>, lines: seq<StopLine>)

  datatype Settings = Settings(
    minimumSpeed: real, minimumCosine: real, tolerance: real, minimumConfidence: real, maximumMissed: nat, norm: Norm)

  datatype Key = Key(track: nat, line: string)

  datatype State = State(
    frame: int, pixel: Point, anchor: Point, distance: real, inside: bool,
    emitted: bool, missed: nat, observed: bool)

  type States = map<Key, State>

  type Signals = map<TL.RegionId, TL.Signal>

  datatype Crossing = Crossing(
    key: Key, className: string, lane: string, light: TL.RegionId, color: TL.Color, signalConfidence: real,
    previousFrame: int, at: H.Moment, previousAnchor: Point, anchor: Point,
    previousDistance: real, distance: real, depth: real, speed: real, cosine: real,
    detectionConfidence: real, ruleConfidence: real, violation: bool)

  /** The lane's direction on the image. */
  function PixelDirection(lane: L.Lane, image: L.Image): Point {
    Point(lane.direction.x * image.SpanX(), lane.direction.y * image.SpanY())
  }

  function DirectionCosine(k: Settings, t: R.Tracked, d: Point): real {
    var length := k.norm(t.velocityX, t.velocityY) * k.norm(d.x, d.y);
    if length == 0.0 then 0.0
    else B.Limit((t.velocityX * d.x + t.velocityY * d.y) / length, -1.0, 1.0)
  }

  function RuleConfidence(confidence: real, cosine: real, depth: real, tolerance: real): real {
    var strength := B.Min(depth / B.Max(2.0 * tolerance, 1.0), 1.0);
    B.Clamp01(0.50 * confidence + 0.30 * B.Max(cosine, 0.0) + 0.20 * strength)
  }

  /** From inside its lane, over the line in the legal direction, deep enough, across the segment. */
  predicate CrossesLine(k: Settings, e: State, pixel: Point, distance: real, start: Point, end: Point) {
    && e.inside && e.distance < 0.0 && distance >= 0.0
    && distance - e.distance >= 2.0 * k.tolerance
    && SegmentsIntersect(e.pixel, pixel, start, end)
  }

  /** Where a track is relative to a stop line. */
  datatype Position = Position(pixel: Point, anchor: Point, inside: bool, distance: real, crossed: bool)

  function EvaluateCrossing(k: Settings, t: R.Tracked, lane: L.Lane, key: Key, light: TL.RegionId, e: State,
                            p: Position, signal: Option<TL.Signal>, at: H.Moment, image: L.Image): Option<Crossing> {
    var speed := k.norm(t.velocityX, t.velocityY);
    var cosine := DirectionCosine(k, t, PixelDirection(lane, image));
    if !p.crossed || speed < k.minimumSpeed || cosine < k.minimumCosine then None
    else
      var color := if signal.Some? then signal.value.stable else TL.Unknown;
      var confidence := if signal.Some? then signal.value.stableConfidence else 0.0;
      var depth := p.distance - e.distance;
      Some(Crossing(key, t.className, lane.id, light, color, confidence, e.frame, at, e.anchor, p.anchor,
                    e.distance, p.distance, depth, speed, cosine, t.confidence,
                    RuleConfidence(confidence, cosine, depth, k.tolerance),
                    color == TL.Red && confidence >= k.minimumConfidence && !e.emitted))
  }

  function LaneById(lanes: seq<L.Lane>, id: string): Option<L.Lane> {
    if lanes == [] then None
    else if lanes[|lanes| - 1].id == id then Some(lanes[|lanes| - 1])
    else LaneById(lanes[..|lanes| - 1], id)
  }

  /** None if the direction of the lane runs along the line. */
  function Place(k: Settings, t: R.Tracked, lane: L.Lane, line: StopLine, e: Option<State>,
                 image: L.Image): Option<Position> {
    var pixel := L.AnchorPixel(t);
    var anchor := L.RoadAnchor(t, image);
    var start, end := ToPixel(line.start, image.width, image.height), ToPixel(line.end, image.width, image.height);
    match LegalSign(PixelDirection(lane, image), start, end)
    case None => None
    case Some(sign) =>
      var distance := SignedDistance(k.norm, pixel, start, end) * sign;
      Some(Position(pixel, anchor, Inside(anchor, lane.polygon), distance,
                    e.Some? && CrossesLine(k, e.value, pixel, distance, start, end)))
  }

  function Remembered(e: Option<State>, p: Position, frame: int, emitted: bool): State {
    State(frame, p.pixel, p.anchor, p.distance, p.inside, emitted, 0, true)
  }

  datatype Visited = Visited(states: States, out: seq<Crossing>)

  /** One track at one stop line. */
  function Visit(k: Settings, states: States, t: R.Tracked, line: StopLine, lanes: seq<L.Lane>, signals: Signals,
                 at: H.Moment, image: L.Image): Visited {
    var key := Key(t.id, line.id);
    if line.lane.None? || line.light.None? then Visited(states, [])
    else
      match LaneById(lanes, line.lane.value)
      case None => Visited(states, [])
      case Some(lane) =>
        VisitLane(k, states, key, t, line, lane, line.light.value, Lookup(signals, line.light.value), at, image)
  }

  function VisitLane(k: Settings, states: States, key: Key, t: R.Tracked, line: StopLine, lane: L.Lane,
                     light: TL.RegionId, signal: Option<TL.Signal>, at: H.Moment, image: L.Image): Visited {
    var e := Lookup(states, key);
    if e.None? && !Inside(L.RoadAnchor(t, image), lane.polygon) then Visited(states, [])
    else
      match Place(k, t, lane, line, e, image)
      case None => Visited(states, [])
      case Some(p) => Settle(k, states, key, t, lane, light, e, p, signal, at, image)
  }

  function Settle(k: Settings, states: States, key: Key, t: R.Tracked, lane: L.Lane, light: TL.RegionId,
                  e: Option<State>, p: Position, signal: Option<TL.Signal>, at: H.Moment, image: L.Image): Visited {
    match e
    case None => Visited(states[key := Remembered(e, p, at.frame, false)], [])
    case Some(old_) =>
      var c := EvaluateCrossing(k, t, lane, key, light, old_, p, signal, at, image);
      var emitted := old_.emitted || (c.Some? && c.value.violation);
      Visited(states[key := Remembered(e, p, at.frame, emitted)], if c.Some? then [c.value] else [])
  }

  // ---------------------------------------------------------------- one frame

  /** What visiting one stop line does. */
  type Visitor = (States, R.Tracked, StopLine) -> Visited

  function Visiting(k: Settings, lanes: seq<L.Lane>, signals: Signals, at: H.Moment, image: L.Image): Visitor {
    (states: States, t: R.Tracked, line: StopLine) => Visit(k, states, t, line, lanes, signals, at, image)
  }

  function VisitLines(visit: Visitor, states: States, t: R.Tracked, lines: seq<StopLine>): Visited {
    if lines == [] then Visited(states, [])
    else
      var before := VisitLines(visit, states, t, lines[..|lines| - 1]);
      var last := visit(before.states, t, lines[|lines| - 1]);
      Visited(last.states, before.out + last.out)
  }

  function VisitTracks(visit: Visitor, states: States, ts: seq<R.Tracked>, lines: seq<StopLine>): Visited {
    if ts == [] then Visited(states, [])
    else
      var before := VisitTracks(visit, states, ts[..|ts| - 1], lines);
      if !L.Eligible(ts[|ts| - 1]) then before
      else
        var last := VisitLines(visit, before.states, ts[|ts| - 1], lines);
        Visited(last.states, before.out + last.out)
  }

  function Unobserved(states: States): States {
    map key | key in states :: states[key].(observed := false)
  }

  /** Forgets what was not observed for too long. */
  function Expired(states: States, maximum: nat): States {
    map key | key in states && (states[key].observed || states[key].missed + 1 <= maximum) ::
      if states[key].observed then states[key] else states[key].(missed := states[key].missed + 1)
  }

  function Frame(visit: Visitor, states: States, ts: seq<R.Tracked>, lines: seq<StopLine>, maximum: nat): Visited {
    var v := VisitTracks(visit, Unobserved(states), ts, lines);
    Visited(Expired(v.states, maximum), v.out)
  }

  // ---------------------------------------------------------------- a violation is a crossing

  /** The sign of a stop line for the traffic of its lane, if there is one. */
  function SignOf(line: StopLine, lanes: seq<L.Lane>, image: L.Image): Option<real> {
    if line.lane.None? then None
    else
      match LaneById(lanes, line.lane.value)
      case None => None
      case Some(lane) => LegalSign(PixelDirection(lane, image), StartOf(line, image), EndOf(line, image))
  }

  function StartOf(line: StopLine, image: L.Image): Point {
    ToPixel(line.start, image.width, image.height)
  }

  function EndOf(line: StopLine, image: L.Image): Point {
    ToPixel(line.end, image.width, image.height)
  }

  /** The remembered distance and lane are those of the remembered point. */
  ghost predicate Placed(k: Settings, e: State, line: StopLine, lanes: seq<L.Lane>, image: L.Image) {
    var sign := SignOf(line, lanes, image);
    sign.Some? ==>
      && e.distance == SignedDistance(k.norm, e.pixel, StartOf(line, image), EndOf(line, image)) * sign.value
      && e.inside == Inside(e.anchor, LaneById(lanes, line.lane.value).value.polygon)
  }

  /** The movement between two points crosses the stop line in the legal direction, deep enough,
      and meets the line's segment up to the tolerance after its first and not after its last point. */
  ghost predicate Leads(k: Settings, c: Crossing, line: StopLine, lanes: seq<L.Lane>, image: L.Image,
                        from: Point, to: Point, time: real, u: real)
  {
    var start, end, sign := StartOf(line, image), EndOf(line, image), SignOf(line, lanes, image);
    && sign.Some?
    && c.previousDistance == SignedDistance(k.norm, from, start, end) * sign.value
    && c.distance == SignedDistance(k.norm, to, start, end) * sign.value
    && c.previousDistance < 0.0 <= c.distance && c.distance - c.previousDistance >= 2.0 * k.tolerance
    && 0.0 < time <= 1.0 && WithinSegment(u) && OnSegment(from, to, time) == OnSegment(start, end, u)
  }

  /** The very movement between these two points does. */
  ghost predicate Crosses(k: Settings, c: Crossing, line: StopLine, lanes: seq<L.Lane>, image: L.Image, from: Point,
                          to: Point) {
    exists time, u :: Leads(k, c, line, lanes, image, from, to, time, u)
  }

  lemma MeetingPoint(norm: Norm, a: Point, b: Point, start: Point, end: Point, sign: real, prev: real, cur: real)
    returns (time: real, u: real)
    requires IsNorm(norm) && start != end && (sign == 1.0 || sign == -1.0)
    requires prev == SignedDistance(norm, a, start, end) * sign && cur == SignedDistance(norm, b, start, end) * sign
    requires prev < 0.0 <= cur && SegmentsIntersect(a, b, start, end)
    ensures 0.0 < time <= 1.0 && WithinSegment(u) && OnSegment(a, b, time) == OnSegment(start, end, u)
  {
    LineLong(norm, start, end);
    var length := norm(end.x - start.x, end.y - start.y);
    u := SecondParameter(a, b, start, end);
    CrossingParameters(norm, a, b, start, end, sign, prev, cur, length);
    IntersectionReduces(norm, a, b, start, end, sign, prev, cur, length, u);
    time := -prev / (cur - prev);
  }

  lemma SignNeedsLine(direction: Point, start: Point, end: Point)
    ensures LegalSign(direction, start, end).Some? ==> start != end
  {
  }

  /** An evaluated crossing is the movement from the remembered point to the present one, it leads over
      the stop line, and it starts inside the lane. */
  lemma CrossingMeetsLine(k: Settings, t: R.Tracked, lane: L.Lane, line: StopLine, lanes: seq<L.Lane>,
                          light: TL.RegionId,
                          e: State, p: Position, signal: Option<TL.Signal>, at: H.Moment, image: L.Image, c: Crossing)
    requires IsNorm(k.norm) && Placed(k, e, line, lanes, image)
    requires line.lane.Some? && LaneById(lanes, line.lane.value) == Some(lane)
    requires Place(k, t, lane, line, Some(e), image) == Some(p)
    requires EvaluateCrossing(k, t, lane, Key(t.id, line.id), light, e, p, signal, at, image) == Some(c)
    ensures Crosses(k, c, line, lanes, image, e.pixel, L.AnchorPixel(t))
    ensures Inside(e.anchor, lane.polygon)
  {
    var start, end := StartOf(line, image), EndOf(line, image);
    var sign := SignOf(line, lanes, image).value;
    SignNeedsLine(PixelDirection(lane, image), start, end);
    var time, u := MeetingPoint(k.norm, e.pixel, p.pixel, start, end, sign, e.distance, p.distance);
    assert Leads(k, c, line, lanes, image, e.pixel, p.pixel, time, u);
  }

  function Swapped(line: StopLine): StopLine {
    line.(start := line.end, end := line.start)
  }

  /** Drawing the stop line from its other end changes nothing: neither what is remembered nor
      what is reported. */
  lemma {:induction false} SwapChangesNothing(k: Settings, states: States, t: R.Tracked, line: StopLine,
                                              lanes: seq<L.Lane>, signals: Signals, at: H.Moment, image: L.Image)
    requires IsNorm(k.norm)
    ensures Visit(k, states, t, Swapped(line), lanes, signals, at, image)
      == Visit(k, states, t, line, lanes, signals, at, image)
  {
    if line.lane.Some? && LaneById(lanes, line.lane.value).Some? {
      SwapKeepsPlace(k, t, LaneById(lanes, line.lane.value).value, line, Lookup(states, Key(t.id, line.id)), image);
    }
  }

  lemma SwapKeepsPlace(k: Settings, t: R.Tracked, lane: L.Lane, line: StopLine, e: Option<State>, image: L.Image)
    requires IsNorm(k.norm)
    ensures Place(k, t, lane, Swapped(line), e, image) == Place(k, t, lane, line, e, image)
  {
    var start, end := ToPixel(line.start, image.width, image.height), ToPixel(line.end, image.width, image.height);
    SwapKeepsDistance(k.norm, PixelDirection(lane, image), L.AnchorPixel(t), start, end);
    if e.Some? {
      SwapKeepsIntersection(e.value.pixel, L.AnchorPixel(t), start, end);
    }
  }

  // ---------------------------------------------------------------- at most once

  ghost predicate Emitted(states: States, key: Key) {
    key in states && states[key].emitted
  }

  function Violations(out: seq<Crossing>, key: Key): nat {
    if out == [] then 0
    else Violations(out[..|out| - 1], key) + if out[|out| - 1].key == key && out[|out| - 1].violation then 1 else 0
  }

  lemma {:induction false} ViolationsAppend(a: seq<Crossing>, b: seq<Crossing>, key: Key)
    ensures Violations(a + b, key) == Violations(a, key) + Violations(b, key)
  {
    if b == [] {
      assert a + b == a;
    } else {
      assert (a + b)[..|a + b| - 1] == a + b[..|b| - 1];
      ViolationsAppend(a, b[..|b| - 1], key);
    }
  }

  /** A key that was reported stays marked, and an unmarked one is marked by its report. */
  ghost predicate Accounts(before: States, after: States, out: seq<Crossing>, key: Key) {
    && (key in before ==> key in after)
    && Violations(out, key) == (if Emitted(after, key) then 1 else 0) - (if Emitted(before, key) then 1 else 0)
  }

  lemma VisitAccounts(k: Settings, states: States, t: R.Tracked, line: StopLine, lanes: seq<L.Lane>, signals: Signals,
                      at: H.Moment, image: L.Image, key: Key)
    ensures var v := Visit(k, states, t, line, lanes, signals, at, image); Accounts(states, v.states, v.out, key)
  {
    if line.lane.Some? && line.light.Some? && LaneById(lanes, line.lane.value).Some? {
      var lane, own := LaneById(lanes, line.lane.value).value, Key(t.id, line.id);
      var p := Place(k, t, lane, line, Lookup(states, own), image);
      if p.Some? {
        SettleAccounts(k, states, own, t, lane, line.light.value, Lookup(states, own), p.value,
                       Lookup(signals, line.light.value), at, image, key);
      }
    }
  }

  lemma SettleAccounts(k: Settings, states: States, own: Key, t: R.Tracked, lane: L.Lane, light: TL.RegionId,
                       e: Option<State>, p: Position, signal: Option<TL.Signal>, at: H.Moment, image: L.Image, key: Key)
    requires e == Lookup(states, own)
    ensures var v := Settle(k, states, own, t, lane, light, e, p, signal, at, image);
      Accounts(states, v.states, v.out, key)
  {
    var v := Settle(k, states, own, t, lane, light, e, p, signal, at, image);
    if v.out != [] {
      assert v.out[..0] == [];
    }
  }

  ghost predicate AlwaysAccounts(visit: Visitor, key: Key) {
    forall states, t, line :: Accounts(states, visit(states, t, line).states, visit(states, t, line).out, key)
  }

  lemma {:induction false} LinesAccount(visit: Visitor, states: States, t: R.Tracked, lines: seq<StopLine>, key: Key)
    requires AlwaysAccounts(visit, key)
    ensures var v := VisitLines(visit, states, t, lines); Accounts(states, v.states, v.out, key)
  {
    if lines != [] {
      var front := lines[..|lines| - 1];
      LinesAccount(visit, states, t, front, key);
      var before := VisitLines(visit, states, t, front);
      ViolationsAppend(before.out, visit(before.states, t, lines[|lines| - 1]).out, key);
    }
  }

  lemma {:induction false} TracksAccount(visit: Visitor, states: States, ts: seq<R.Tracked>, lines: seq<StopLine>,
                                         key: Key)
    requires AlwaysAccounts(visit, key)
    ensures var v := VisitTracks(visit, states, ts, lines); Accounts(states, v.states, v.out, key)
  {
    if ts != [] {
      var front := ts[..|ts| - 1];
      TracksAccount(visit, states, front, lines, key);
      var before := VisitTracks(visit, states, front, lines);
      if L.Eligible(ts[|ts| - 1]) {
        LinesAccount(visit, before.states, ts[|ts| - 1], lines, key);
        ViolationsAppend(before.out, VisitLines(visit, before.states, ts[|ts| - 1], lines).out, key);
      }
    }
  }

  /** In one frame a track is reported at a stop line at most once, never again while it is
      remembered as reported, and only when it becomes so. */
  lemma FrameReportsOnce(k: Settings, states: States, ts: seq<R.Tracked>, lines: seq<StopLine>, lanes: seq<L.Lane>,
                         signals: Signals, at: H.Moment, image: L.Image, key: Key)
    ensures var v := Frame(Visiting(k, lanes, signals, at, image), states, ts, lines, k.maximumMissed);
      && Violations(v.out, key) <= 1
      && (Emitted(states, key) ==> Violations(v.out, key) == 0 && (key in v.states ==> Emitted(v.states, key)))
      && (!Emitted(states, key) && key in v.states ==>
            Violations(v.out, key) == if Emitted(v.states, key) then 1 else 0)
  {
    var visit := Visiting(k, lanes, signals, at, image);
    forall s, t, line
      ensures Accounts(s, visit(s, t, line).states, visit(s, t, line).out, key)
    {
      VisitAccounts(k, s, t, line, lanes, signals, at, image, key);
    }
    TracksAccount(visit, Unobserved(states), ts, lines, key);
  }

  // ---------------------------------------------------------------- the object

  datatype Reply = Refused | Detected(observations: seq<Crossing>, transitions: seq<Crossing>)

  function OnlyViolations(out: seq<Crossing>): seq<Crossing> {
    if out == [] then []
    else OnlyViolations(out[..|out| - 1]) + if out[|out| - 1].violation then [out[|out| - 1]] else []
  }

  lemma {:induction false} OnlyViolationsAppend(a: seq<Crossing>, b: seq<Crossing>)
    ensures OnlyViolations(a + b) == OnlyViolations(a) + OnlyViolations(b)
  {
    if b == [] {
      assert a + b == a;
    } else {
      assert (a + b)[..|a + b| - 1] == a + b[..|b| - 1];
      OnlyViolationsAppend(a, b[..|b| - 1]);
    }
  }

  // ---------------------------------------------------------------- every run

  datatype Round = Round(at: H.Moment, tracks: seq<R.Tracked>, signals: Signals, lanes: seq<L.Lane>,
    lines: seq<StopLine>, image: L.Image)

  function FrameOf(k: Settings, states: States, x: Round): Visited {
    if x.lines == [] then Visited(map[], [])
    else Frame(Visiting(k, x.lanes, x.signals, x.at, x.image), states, x.tracks, x.lines, k.maximumMissed)
  }

  /** States before, between and after the frames, and what each frame reports. */
  ghost predicate Runs(k: Settings, rounds: seq<Round>, states: seq<States>, outs: seq<seq<Crossing>>) {
    && |states| == |rounds| + 1 && |outs| == |rounds| && states[0] == map[]
    && forall i | 0 <= i < |rounds| ::
         states[i + 1] == FrameOf(k, states[i], rounds[i]).states
           && outs[i] == OnlyViolations(FrameOf(k, states[i], rounds[i]).out)
  }

  ghost predicate AllAt(out: seq<Crossing>, at: H.Moment) {
    forall i | 0 <= i < |out| :: out[i].at == at
  }

  ghost predicate AlwaysAt(visit: Visitor, at: H.Moment) {
    forall states, t, line :: AllAt(visit(states, t, line).out, at)
  }

  lemma {:induction false} LinesAt(visit: Visitor, states: States, t: R.Tracked, lines: seq<StopLine>, at: H.Moment)
    requires AlwaysAt(visit, at)
    ensures AllAt(VisitLines(visit, states, t, lines).out, at)
  {
    if lines != [] { LinesAt(visit, states, t, lines[..|lines| - 1], at); }
  }

  lemma {:induction false} TracksAt(visit: Visitor, states: States, ts: seq<R.Tracked>, lines: seq<StopLine>,
                                    at: H.Moment)
    requires AlwaysAt(visit, at)
    ensures AllAt(VisitTracks(visit, states, ts, lines).out, at)
  {
    if ts != [] {
      var front := ts[..|ts| - 1];
      TracksAt(visit, states, front, lines, at);
      LinesAt(visit, VisitTracks(visit, states, front, lines).states, ts[|ts| - 1], lines, at);
    }
  }

  lemma {:induction false} OnlyViolationsMembers(out: seq<Crossing>)
    ensures forall c | c in OnlyViolations(out) :: c in out && c.violation
  {
    if out != [] {
      OnlyViolationsMembers(out[..|out| - 1]);
      assert out == out[..|out| - 1] + [out[|out| - 1]];
    }
  }

  lemma {:induction false} ViolationCounted(out: seq<Crossing>, c: Crossing)
    requires c in OnlyViolations(out)
    ensures Violations(out, c.key) >= 1
  {
    if c !in OnlyViolations(out[..|out| - 1]) {
    } else {
      ViolationCounted(out[..|out| - 1], c);
    }
  }

  ghost predicate NoneTwice(out: seq<Crossing>) {
    forall i, j | 0 <= i < j < |out| :: out[i].key != out[j].key || out[i].at.frame != out[j].at.frame
  }

  lemma {:induction false} CountedOnce(out: seq<Crossing>)
    requires forall key :: Violations(out, key) <= 1
    ensures NoneTwice(OnlyViolations(out))
  {
    if out != [] {
      var front, last := out[..|out| - 1], out[|out| - 1];
      forall key ensures Violations(front, key) <= 1 { assert Violations(out, key) <= 1; }
      CountedOnce(front);
      var before := OnlyViolations(front);
      if last.violation {
        forall i | 0 <= i < |before|
          ensures before[i].key != last.key
        {
          assert before[i] in before;
          ViolationCounted(front, before[i]);
          assert Violations(out, last.key) <= 1;
        }
      }
    }
  }

  lemma FrameNoneTwice(k: Settings, states: States, x: Round)
    ensures var out := OnlyViolations(FrameOf(k, states, x).out); NoneTwice(out) && AllAt(out, x.at)
  {
    if x.lines != [] {
      var visit := Visiting(k, x.lanes, x.signals, x.at, x.image);
      var out := FrameOf(k, states, x).out;
      forall key
        ensures Violations(out, key) <= 1
      {
        FrameReportsOnce(k, states, x.tracks, x.lines, x.lanes, x.signals, x.at, x.image, key);
      }
      CountedOnce(out);
      assert AlwaysAt(visit, x.at);
      TracksAt(visit, Unobserved(states), x.tracks, x.lines, x.at);
      OnlyViolationsMembers(out);
      var only := OnlyViolations(out);
      forall i | 0 <= i < |only| ensures only[i].at == x.at { assert only[i] in only; }
    }
  }

  ghost predicate UpTo(out: seq<Crossing>, last: int) {
    forall i | 0 <= i < |out| :: 0 < out[i].at.frame <= last
  }

  /** In a whole run no track is reported twice at the same stop line and frame. */
  lemma {:induction false} RunNoneTwice(k: Settings, rounds: seq<Round>, states: seq<States>, outs: seq<seq<Crossing>>,
                                        last: int)
    requires Runs(k, rounds, states, outs)
    requires forall i, j | 0 <= i < j < |rounds| :: rounds[i].at.frame < rounds[j].at.frame
    requires forall i | 0 <= i < |rounds| :: 0 < rounds[i].at.frame <= last
    ensures NoneTwice(H.Concat(outs)) && UpTo(H.Concat(outs), last)
  {
    if rounds != [] {
      var n := |rounds| - 1;
      RunNoneTwice(k, rounds[..n], states[..n + 1], outs[..n], rounds[n].at.frame - 1);
      FrameNoneTwice(k, states[n], rounds[n]);
    }
  }

  // ---------------------------------------------------------------- every reported crossing is one

  ghost predicate DistinctIds(lines: seq<StopLine>) {
    forall i, j | 0 <= i < j < |lines| :: lines[i].id != lines[j].id
  }

  ghost predicate DistinctTracks(ts: seq<R.Tracked>) {
    forall a, b | 0 <= a < b < |ts| :: ts[a].id != ts[b].id
  }

  /** What is remembered is where the track was in that round. */
  ghost predicate Remembers(e: State, x: Round, t: R.Tracked) {
    e.frame == x.at.frame && e.pixel == L.AnchorPixel(t) && e.anchor == L.RoadAnchor(t, x.image)
  }

  /** What a crossing says of the state it was evaluated from. */
  ghost predicate Continues(k: Settings, c: Crossing, e: State, x: Round, t: R.Tracked, line: StopLine) {
    && c.at == x.at && c.previousFrame == e.frame && c.previousAnchor == e.anchor
    && (Placed(k, e, line, x.lanes, x.image) ==>
          && Crosses(k, c, line, x.lanes, x.image, e.pixel, L.AnchorPixel(t))
          && StartsInLane(c, line, x.lanes))
  }

  ghost predicate StartsInLane(c: Crossing, line: StopLine, lanes: seq<L.Lane>) {
    && line.lane.Some? && LaneById(lanes, line.lane.value).Some?
    && Inside(c.previousAnchor, LaneById(lanes, line.lane.value).value.polygon)
  }

  /** Left alone, or replaced by where the track is now. */
  ghost predicate KeptOrRenewed(k: Settings, before: States, after: States, key: Key, x: Round, t: R.Tracked,
                                line: StopLine) {
    || Lookup(after, key) == Lookup(before, key)
    || (key in after && Remembers(after[key], x, t) && Placed(k, after[key], line, x.lanes, x.image))
  }

  /** What one visit does. */
  ghost predicate Visits(k: Settings, states: States, x: Round, t: R.Tracked, line: StopLine, v: Visited) {
    var own := Key(t.id, line.id);
    && (forall key | key != own :: Lookup(v.states, key) == Lookup(states, key))
    && KeptOrRenewed(k, states, v.states, own, x, t, line)
    && forall c | c in v.out :: c.key == own && own in states && Continues(k, c, states[own], x, t, line)
  }

  lemma OthersKept(k: Settings, states: States, x: Round, t: R.Tracked, line: StopLine)
    ensures forall key | key != Key(t.id, line.id) ::
      Lookup(Visit(k, states, t, line, x.lanes, x.signals, x.at, x.image).states, key) == Lookup(states, key)
  {
  }

  lemma PlaceRemembers(k: Settings, t: R.Tracked, lane: L.Lane, line: StopLine, e: Option<State>, p: Position, x: Round)
    requires line.lane.Some? && LaneById(x.lanes, line.lane.value) == Some(lane)
    requires Place(k, t, lane, line, e, x.image) == Some(p)
    ensures forall emitted: bool :: var now := Remembered(e, p, x.at.frame, emitted);
      Remembers(now, x, t) && Placed(k, now, line, x.lanes, x.image)
  {
  }

  lemma OwnRenewed(k: Settings, states: States, x: Round, t: R.Tracked, line: StopLine)
    ensures var after := Visit(k, states, t, line, x.lanes, x.signals, x.at, x.image).states;
      KeptOrRenewed(k, states, after, Key(t.id, line.id), x, t, line)
  {
    var key := Key(t.id, line.id);
    var e := Lookup(states, key);
    if line.lane.Some? && LaneById(x.lanes, line.lane.value).Some? {
      var lane := LaneById(x.lanes, line.lane.value).value;
      var p := Place(k, t, lane, line, e, x.image);
      if p.Some? {
        PlaceRemembers(k, t, lane, line, e, p.value, x);
      }
    }
  }

  lemma OutContinues(k: Settings, states: States, x: Round, t: R.Tracked, line: StopLine, c: Crossing)
    requires IsNorm(k.norm) && c in Visit(k, states, t, line, x.lanes, x.signals, x.at, x.image).out
    ensures c.key == Key(t.id, line.id) && c.key in states && Continues(k, c, states[c.key], x, t, line)
  {
    var lane, e := LaneById(x.lanes, line.lane.value).value, states[Key(t.id, line.id)];
    if Placed(k, e, line, x.lanes, x.image) {
      CrossingMeetsLine(k, t, lane, line, x.lanes, line.light.value, e, Place(k, t, lane, line, Some(e), x.image).value,
                        Lookup(x.signals, line.light.value), x.at, x.image, c);
    }
  }

  lemma VisitVisits(k: Settings, states: States, x: Round, t: R.Tracked, line: StopLine)
    requires IsNorm(k.norm)
    ensures Visits(k, states, x, t, line, Visit(k, states, t, line, x.lanes, x.signals, x.at, x.image))
  {
    OthersKept(k, states, x, t, line);
    OwnRenewed(k, states, x, t, line);
    forall c | c in Visit(k, states, t, line, x.lanes, x.signals, x.at, x.image).out
      ensures c.key == Key(t.id, line.id) && c.key in states && Continues(k, c, states[c.key], x, t, line)
    {
      OutContinues(k, states, x, t, line, c);
    }
  }

  ghost predicate AlwaysVisits(visit: Visitor, k: Settings, x: Round) {
    forall states, t, line :: Visits(k, states, x, t, line, visit(states, t, line))
  }

  /** What visiting the first m stop lines does. */
  ghost predicate VisitsAll(k: Settings, states: States, x: Round, t: R.Tracked, m: nat, v: Visited)
    requires m <= |x.lines|
  {
    && (forall key: Key | key.track != t.id || forall l | 0 <= l < m :: x.lines[l].id != key.line ::
          Lookup(v.states, key) == Lookup(states, key))
    && (forall l | 0 <= l < m :: KeptOrRenewed(k, states, v.states, Key(t.id, x.lines[l].id), x, t, x.lines[l]))
    && forall c | c in v.out :: FromLine(k, c, states, x, t, m)
  }

  ghost predicate FromLine(k: Settings, c: Crossing, states: States, x: Round, t: R.Tracked, m: nat)
    requires m <= |x.lines|
  {
    exists l :: 0 <= l < m && c.key == Key(t.id, x.lines[l].id) && c.key in states
      && Continues(k, c, states[c.key], x, t, x.lines[l])
  }

  lemma OneMoreLine(k: Settings, states: States, x: Round, t: R.Tracked, m: nat, v: Visited, w: Visited)
    requires DistinctIds(x.lines) && m < |x.lines|
    requires VisitsAll(k, states, x, t, m, v) && Visits(k, v.states, x, t, x.lines[m], w)
    ensures VisitsAll(k, states, x, t, m + 1, Visited(w.states, v.out + w.out))
  {
    var own := Key(t.id, x.lines[m].id);
    assert Lookup(v.states, own) == Lookup(states, own);
    forall c | c in v.out + w.out
      ensures FromLine(k, c, states, x, t, m + 1)
    {
      if c in v.out {
        assert FromLine(k, c, states, x, t, m);
      } else {
        assert c in w.out && c.key == own;
      }
    }
  }

  lemma {:induction false} LinesVisited(visit: Visitor, k: Settings, states: States, x: Round, t: R.Tracked, m: nat)
    requires AlwaysVisits(visit, k, x) && DistinctIds(x.lines) && m <= |x.lines|
    ensures VisitsAll(k, states, x, t, m, VisitLines(visit, states, t, x.lines[..m]))
  {
    if m > 0 {
      LinesVisited(visit, k, states, x, t, m - 1);
      assert x.lines[..m][..m - 1] == x.lines[..m - 1];
      var v := VisitLines(visit, states, t, x.lines[..m - 1]);
      OneMoreLine(k, states, x, t, m - 1, v, visit(v.states, t, x.lines[m - 1]));
    }
  }

  // ---------------------------------------------------------------- from which round to which

  ghost predicate Earlier(i: nat, a: nat, j: nat, n: nat) {
    i < j || (i == j && a < n)
  }

  /** The a-th track of round i has this id. */
  ghost predicate Sighted(rounds: seq<Round>, i: nat, a: nat, id: nat) {
    i < |rounds| && a < |rounds[i].tracks| && rounds[i].tracks[a].id == id
  }

  /** The state is where its track was seen before the n-th track of round j. */
  ghost predicate Known(rounds: seq<Round>, j: nat, n: nat, key: Key, e: State) {
    exists i: nat, a: nat ::
      Earlier(i, a, j, n) && Sighted(rounds, i, a, key.track) && Remembers(e, rounds[i], rounds[i].tracks[a])
  }

  ghost predicate AllKnown(k: Settings, states: States, rounds: seq<Round>, j: nat, n: nat,
                           lines: seq<StopLine>, lanes: seq<L.Lane>, image: L.Image)
  {
    forall key | key in states ::
      && Known(rounds, j, n, key, states[key])
      && forall l | 0 <= l < |lines| && lines[l].id == key.line :: Placed(k, states[key], lines[l], lanes, image)
  }

  /** The crossing is the movement of a track from round i to round j over the stop line it names: both
      sightings have the track's id, the frames are those it reports, the movement between the two road
      anchors leads over the line, and it starts inside the lane. */
  ghost predicate Moves(k: Settings, c: Crossing, rounds: seq<Round>, i: nat, a: nat, j: nat, n: nat, line: StopLine) {
    && Sighted(rounds, i, a, c.key.track) && Sighted(rounds, j, n, c.key.track) && line.id == c.key.line
    && rounds[i].at.frame == c.previousFrame && rounds[j].at == c.at
    && Crosses(k, c, line, rounds[j].lanes, rounds[j].image, L.AnchorPixel(rounds[i].tracks[a]),
      L.AnchorPixel(rounds[j].tracks[n]))
    && c.previousAnchor == L.RoadAnchor(rounds[i].tracks[a], rounds[i].image) && StartsInLane(c, line, rounds[j].lanes)
  }

  ghost predicate MovesTo(k: Settings, c: Crossing, rounds: seq<Round>, j: nat, n: nat, lines: seq<StopLine>) {
    exists i: nat, a: nat, l: nat :: Earlier(i, a, j, n) && l < |lines| && Moves(k, c, rounds, i, a, j, n, lines[l])
  }

  ghost predicate MovesWithin(k: Settings, c: Crossing, rounds: seq<Round>, j: nat, n: nat, lines: seq<StopLine>) {
    exists b: nat :: b < n && MovesTo(k, c, rounds, j, b, lines)
  }

  lemma KnownLater(rounds: seq<Round>, j: nat, n: nat, j': nat, n': nat, key: Key, e: State)
    requires Known(rounds, j, n, key, e) && (j < j' || (j == j' && n <= n'))
    ensures Known(rounds, j', n', key, e)
  {
    var i: nat, a: nat :| Earlier(i, a, j, n) && Sighted(rounds, i, a, key.track)
      && Remembers(e, rounds[i], rounds[i].tracks[a]);
    assert Earlier(i, a, j', n');
  }

  lemma AllKnownLater(k: Settings, states: States, rounds: seq<Round>, j: nat, n: nat, j': nat, n': nat,
                      lines: seq<StopLine>, lanes: seq<L.Lane>, image: L.Image)
    requires AllKnown(k, states, rounds, j, n, lines, lanes, image) && (j < j' || (j == j' && n <= n'))
    ensures AllKnown(k, states, rounds, j', n', lines, lanes, image)
  {
    forall key | key in states ensures Known(rounds, j', n', key, states[key]) {
      KnownLater(rounds, j, n, j', n', key, states[key]);
    }
  }

  ghost predicate OneScene(rounds: seq<Round>, lines: seq<StopLine>, lanes: seq<L.Lane>, image: L.Image) {
    forall i | 0 <= i < |rounds| :: rounds[i].lines == lines && rounds[i].lanes == lanes && rounds[i].image == image
  }

  /** The n-th track of round j visits all stop lines. */
  lemma TrackKnown(k: Settings, rounds: seq<Round>, j: nat, n: nat, states: States, v: Visited,
                   lines: seq<StopLine>, lanes: seq<L.Lane>, image: L.Image)
    requires OneScene(rounds, lines, lanes, image) && DistinctIds(lines) && j < |rounds| && n < |rounds[j].tracks|
    requires AllKnown(k, states, rounds, j, n, lines, lanes, image)
    requires VisitsAll(k, states, rounds[j], rounds[j].tracks[n], |lines|, v)
    ensures AllKnown(k, v.states, rounds, j, n + 1, lines, lanes, image)
    ensures forall c | c in v.out :: MovesTo(k, c, rounds, j, n, lines)
  {
    var x, t := rounds[j], rounds[j].tracks[n];
    forall key | key in v.states
      ensures Known(rounds, j, n + 1, key, v.states[key])
      ensures forall l | 0 <= l < |lines| && lines[l].id == key.line :: Placed(k, v.states[key], lines[l], lanes, image)
    {
      KeyKnown(k, rounds, j, n, states, v, lines, lanes, image, key);
    }
    forall c | c in v.out
      ensures MovesTo(k, c, rounds, j, n, lines)
    {
      assert FromLine(k, c, states, x, t, |lines|);
      var l :| 0 <= l < |lines| && c.key == Key(t.id, lines[l].id) && c.key in states
        && Continues(k, c, states[c.key], x, t, lines[l]);
      assert Placed(k, states[c.key], lines[l], lanes, image);
      var i: nat, a: nat :| Earlier(i, a, j, n) && Sighted(rounds, i, a, c.key.track)
        && Remembers(states[c.key], rounds[i], rounds[i].tracks[a]);
      assert Sighted(rounds, j, n, c.key.track);
      assert Moves(k, c, rounds, i, a, j, n, lines[l]);
    }
  }

  lemma KeyKnown(k: Settings, rounds: seq<Round>, j: nat, n: nat, states: States, v: Visited,
                 lines: seq<StopLine>, lanes: seq<L.Lane>, image: L.Image, key: Key)
    requires OneScene(rounds, lines, lanes, image) && DistinctIds(lines) && j < |rounds| && n < |rounds[j].tracks|
    requires AllKnown(k, states, rounds, j, n, lines, lanes, image)
    requires VisitsAll(k, states, rounds[j], rounds[j].tracks[n], |lines|, v) && key in v.states
    ensures Known(rounds, j, n + 1, key, v.states[key])
    ensures forall l | 0 <= l < |lines| && lines[l].id == key.line :: Placed(k, v.states[key], lines[l], lanes, image)
  {
    var x, t := rounds[j], rounds[j].tracks[n];
    if Lookup(v.states, key) == Lookup(states, key) {
      KnownLater(rounds, j, n, j, n + 1, key, states[key]);
    } else {
      var l :| 0 <= l < |lines| && lines[l].id == key.line && key.track == t.id;
      assert KeptOrRenewed(k, states, v.states, Key(t.id, lines[l].id), x, t, lines[l]);
      assert Earlier(j, n, j, n + 1) && Sighted(rounds, j, n, key.track) && Remembers(v.states[key], x, t);
      forall l' | 0 <= l' < |lines| && lines[l'].id == key.line ensures l' == l { assert !(l < l') && !(l' < l); }
    }
  }

  /** The n-th track of round j is visited, unless it is not eligible. */
  function AfterTrack(visit: Visitor, before: Visited, t: R.Tracked, lines: seq<StopLine>): Visited {
    if !L.Eligible(t) then before
    else
      var last := VisitLines(visit, before.states, t, lines);
      Visited(last.states, before.out + last.out)
  }

  lemma NextTrackKnown(visit: Visitor, k: Settings, rounds: seq<Round>, j: nat, n: nat, before: Visited,
                       lines: seq<StopLine>, lanes: seq<L.Lane>, image: L.Image)
    requires OneScene(rounds, lines, lanes, image) && DistinctIds(lines) && j < |rounds| && n < |rounds[j].tracks|
    requires AlwaysVisits(visit, k, rounds[j]) && AllKnown(k, before.states, rounds, j, n, lines, lanes, image)
    ensures var after := AfterTrack(visit, before, rounds[j].tracks[n], lines);
      && AllKnown(k, after.states, rounds, j, n + 1, lines, lanes, image)
      && forall c | c in after.out :: c in before.out || MovesTo(k, c, rounds, j, n, lines)
  {
    var t := rounds[j].tracks[n];
    if L.Eligible(t) {
      LinesVisited(visit, k, before.states, rounds[j], t, |lines|);
      assert lines[..|lines|] == lines;
      TrackKnown(k, rounds, j, n, before.states, VisitLines(visit, before.states, t, lines), lines, lanes, image);
    } else {
      AllKnownLater(k, before.states, rounds, j, n, j, n + 1, lines, lanes, image);
    }
  }

  lemma {:induction false} TracksKnown(visit: Visitor, k: Settings, rounds: seq<Round>, j: nat, n: nat, states: States,
                                       lines: seq<StopLine>, lanes: seq<L.Lane>, image: L.Image)
    requires OneScene(rounds, lines, lanes, image) && DistinctIds(lines) && j < |rounds| && n <= |rounds[j].tracks|
    requires AlwaysVisits(visit, k, rounds[j]) && AllKnown(k, states, rounds, j, 0, lines, lanes, image)
    ensures var v := VisitTracks(visit, states, rounds[j].tracks[..n], lines);
      && AllKnown(k, v.states, rounds, j, n, lines, lanes, image)
      && forall c | c in v.out :: MovesWithin(k, c, rounds, j, n, lines)
  {
    if n > 0 {
      var ts := rounds[j].tracks;
      TracksKnown(visit, k, rounds, j, n - 1, states, lines, lanes, image);
      assert ts[..n][..n - 1] == ts[..n - 1];
      var before := VisitTracks(visit, states, ts[..n - 1], lines);
      assert VisitTracks(visit, states, ts[..n], lines) == AfterTrack(visit, before, ts[n - 1], lines);
      NextTrackKnown(visit, k, rounds, j, n - 1, before, lines, lanes, image);
      MovesLater(k, rounds, j, n, lines, before.out, AfterTrack(visit, before, ts[n - 1], lines).out);
    }
  }

  lemma MovesLater(k: Settings, rounds: seq<Round>, j: nat, n: nat, lines: seq<StopLine>, before: seq<Crossing>,
                   after: seq<Crossing>)
    requires n > 0 && forall c | c in before :: MovesWithin(k, c, rounds, j, n - 1, lines)
    requires forall c | c in after :: c in before || MovesTo(k, c, rounds, j, n - 1, lines)
    ensures forall c | c in after :: MovesWithin(k, c, rounds, j, n, lines)
  {
    forall c | c in after
      ensures MovesWithin(k, c, rounds, j, n, lines)
    {
      if c in before {
        var b: nat :| b < n - 1 && MovesTo(k, c, rounds, j, b, lines);
        assert b < n;
      }
    }
  }

  lemma RoundKnown(k: Settings, rounds: seq<Round>, j: nat, states: States, lines: seq<StopLine>, lanes: seq<L.Lane>,
                   image: L.Image)
    requires IsNorm(k.norm) && OneScene(rounds, lines, lanes, image) && DistinctIds(lines) && j < |rounds|
    requires AllKnown(k, states, rounds, j, 0, lines, lanes, image)
    ensures var v := FrameOf(k, states, rounds[j]);
      && AllKnown(k, v.states, rounds, j + 1, 0, lines, lanes, image)
      && forall c | c in v.out :: MovesWithin(k, c, rounds, j, |rounds[j].tracks|, lines)
  {
    var x := rounds[j];
    var visit := Visiting(k, x.lanes, x.signals, x.at, x.image);
    if lines != [] {
      forall st, t, line
        ensures Visits(k, st, x, t, line, visit(st, t, line))
      {
        VisitVisits(k, st, x, t, line);
      }
      UnobservedAlike(states);
      AlikeStates(k, states, Unobserved(states), rounds, j, 0, lines, lanes, image);
      TracksKnown(visit, k, rounds, j, |x.tracks|, Unobserved(states), lines, lanes, image);
      assert x.tracks[..|x.tracks|] == x.tracks;
      var visited := VisitTracks(visit, Unobserved(states), x.tracks, lines).states;
      ExpiredAlike(visited, k.maximumMissed);
      AlikeStates(k, visited, Expired(visited, k.maximumMissed), rounds, j, |x.tracks|, lines, lanes, image);
      AllKnownLater(k, Expired(visited, k.maximumMissed), rounds, j, |x.tracks|, j + 1, 0, lines, lanes, image);
    }
  }

  /** The same place at the same time. */
  ghost predicate Alike(e: State, f: State) {
    e.frame == f.frame && e.pixel == f.pixel && e.anchor == f.anchor && e.distance == f.distance && e.inside == f.inside
  }

  lemma AlikeKnown(rounds: seq<Round>, j: nat, n: nat, key: Key, e: State, f: State)
    requires Known(rounds, j, n, key, e) && Alike(e, f)
    ensures Known(rounds, j, n, key, f)
  {
    var i: nat, a: nat :| Earlier(i, a, j, n) && Sighted(rounds, i, a, key.track)
      && Remembers(e, rounds[i], rounds[i].tracks[a]);
    assert Remembers(f, rounds[i], rounds[i].tracks[a]);
  }

  lemma AlikePlaced(k: Settings, e: State, f: State, line: StopLine, lanes: seq<L.Lane>, image: L.Image)
    requires Placed(k, e, line, lanes, image) && Alike(e, f)
    ensures Placed(k, f, line, lanes, image)
  {
  }

  lemma AlikeStates(k: Settings, before: States, after: States, rounds: seq<Round>, j: nat, n: nat,
                    lines: seq<StopLine>, lanes: seq<L.Lane>, image: L.Image)
    requires AllKnown(k, before, rounds, j, n, lines, lanes, image)
    requires forall key | key in after :: key in before && Alike(before[key], after[key])
    ensures AllKnown(k, after, rounds, j, n, lines, lanes, image)
  {
    forall key | key in after
      ensures Known(rounds, j, n, key, after[key])
    {
      AlikeKnown(rounds, j, n, key, before[key], after[key]);
    }
    forall key, l | key in after && 0 <= l < |lines| && lines[l].id == key.line
      ensures Placed(k, after[key], lines[l], lanes, image)
    {
      AlikePlaced(k, before[key], after[key], lines[l], lanes, image);
    }
  }

  lemma UnobservedAlike(states: States)
    ensures forall key | key in Unobserved(states) :: key in states && Alike(states[key], Unobserved(states)[key])
  {
  }

  lemma ExpiredAlike(states: States, maximum: nat)
    ensures forall key | key in Expired(states, maximum) ::
      key in states && Alike(states[key], Expired(states, maximum)[key])
  {
  }

  /** A crossing that some round of the run reports. */
  ghost predicate MovesInRun(k: Settings, c: Crossing, rounds: seq<Round>, upTo: nat, lines: seq<StopLine>) {
    exists j: nat :: j < upTo <= |rounds| && MovesWithin(k, c, rounds, j, |rounds[j].tracks|, lines)
  }

  lemma {:induction false} RunKnown(k: Settings, rounds: seq<Round>, states: seq<States>, outs: seq<seq<Crossing>>,
                                    m: nat, lines: seq<StopLine>, lanes: seq<L.Lane>, image: L.Image)
    requires IsNorm(k.norm) && OneScene(rounds, lines, lanes, image) && DistinctIds(lines)
      && Runs(k, rounds, states, outs)
    requires m <= |rounds|
    ensures AllKnown(k, states[m], rounds, m, 0, lines, lanes, image)
    ensures forall c | c in H.Concat(outs[..m]) :: MovesInRun(k, c, rounds, m, lines)
  {
    if m > 0 {
      RunKnown(k, rounds, states, outs, m - 1, lines, lanes, image);
      RoundKnown(k, rounds, m - 1, states[m - 1], lines, lanes, image);
      OnlyViolationsMembers(FrameOf(k, states[m - 1], rounds[m - 1]).out);
      assert outs[..m][..m - 1] == outs[..m - 1];
      forall c | c in H.Concat(outs[..m])
        ensures MovesInRun(k, c, rounds, m, lines)
      {
        if c in H.Concat(outs[..m - 1]) {
          var j: nat :| j < m - 1 && MovesWithin(k, c, rounds, j, |rounds[j].tracks|, lines);
          assert j < m;
        } else {
          assert c in outs[m - 1];
        }
      }
    }
  }

  /** From one round to a later one. */
  ghost predicate MovesBetween(k: Settings, c: Crossing, rounds: seq<Round>, lines: seq<StopLine>) {
    exists i: nat, a: nat, j: nat, n: nat, l: nat :: i < j && l < |lines| && Moves(k, c, rounds, i, a, j, n, lines[l])
  }

  /** In every run over one scene, everything reported is a movement of the track it names, from where it
      was in an earlier frame to where it is, over the stop line it names: legal, deep enough, across the
      line's segment, out of the lane. */
  lemma RunCrossingsLead(k: Settings, rounds: seq<Round>, states: seq<States>, outs: seq<seq<Crossing>>,
                         lines: seq<StopLine>, lanes: seq<L.Lane>, image: L.Image)
    requires IsNorm(k.norm) && OneScene(rounds, lines, lanes, image) && DistinctIds(lines)
      && Runs(k, rounds, states, outs)
    requires forall j | 0 <= j < |rounds| :: DistinctTracks(rounds[j].tracks)
    ensures forall c | c in H.Concat(outs) :: MovesBetween(k, c, rounds, lines)
  {
    RunKnown(k, rounds, states, outs, |rounds|, lines, lanes, image);
    assert outs[..|rounds|] == outs;
    forall c | c in H.Concat(outs)
      ensures MovesBetween(k, c, rounds, lines)
    {
      var j: nat :| j < |rounds| && MovesWithin(k, c, rounds, j, |rounds[j].tracks|, lines);
      var n: nat :| n < |rounds[j].tracks| && MovesTo(k, c, rounds, j, n, lines);
      var i: nat, a: nat, l: nat :| Earlier(i, a, j, n) && l < |lines| && Moves(k, c, rounds, i, a, j, n, lines[l]);
      OtherRound(rounds, i, a, j, n, c.key.track);
    }
  }

  lemma OtherRound(rounds: seq<Round>, i: nat, a: nat, j: nat, n: nat, id: nat)
    requires Earlier(i, a, j, n) && Sighted(rounds, i, a, id) && Sighted(rounds, j, n, id)
      && DistinctTracks(rounds[j].tracks)
    ensures i < j
  {
  }

  class RedLightDetector {
    var states: States
    const settings: Settings

    constructor (settings: Settings)
      ensures this.settings == settings && states == map[]
    {
      this.settings := settings;
      states := map[];
    }

    /** One frame; without an enabled scene everything is forgotten. */
    method Update(at: H.Moment, ts: seq<R.Tracked>, signals: Signals, scene: Option<Scene>, image: L.Image)
      returns (reply: Reply)
      modifies this
      ensures reply.Refused? <==> at.frame <= 0 || at.time < 0.0 || !image.Valid()
      ensures reply.Refused? ==> states == old(states)
      ensures reply.Detected? ==>
        if scene.None? || !scene.value.enabled || scene.value.lines == []
          then states == map[] && reply.observations == []
        else
          var visit := Visiting(settings, scene.value.lanes, signals, at, image);
          var v := Frame(visit, old(states), ts, scene.value.lines, settings.maximumMissed);
          states == v.states && reply.observations == v.out
      ensures reply.Detected? ==> reply.transitions == OnlyViolations(reply.observations)
    {
      if at.frame <= 0 || at.time < 0.0 || image.width <= 0 || image.height <= 0 {
        return Refused;
      }
      if scene.None? || !scene.value.enabled || scene.value.lines == [] {
        Reset();
        return Detected([], []);
      }
      states := map key | key in states :: states[key].(observed := false);
      var out, transitions := VisitAll(Visiting(settings, scene.value.lanes, signals, at, image), ts,
        scene.value.lines);
      ExpireMissing();
      reply := Detected(out, transitions);
    }

    method VisitAll(visit: Visitor, ts: seq<R.Tracked>, lines: seq<StopLine>)
      returns (out: seq<Crossing>, transitions: seq<Crossing>)
      modifies this
      ensures Visited(states, out) == VisitTracks(visit, old(states), ts, lines)
      ensures transitions == OnlyViolations(out)
    {
      out, transitions := [], [];
      for i := 0 to |ts|
        invariant Visited(states, out) == VisitTracks(visit, old(states), ts[..i], lines)
        invariant transitions == OnlyViolations(out)
      {
        assert ts[..i + 1][..i] == ts[..i];
        if L.Eligible(ts[i]) {
          var own := VisitEach(visit, ts[i], lines);
          OnlyViolationsAppend(out, own);
          out, transitions := out + own, transitions + OnlyViolations(own);
        }
      }
      assert ts[..|ts|] == ts;
    }

    method VisitEach(visit: Visitor, t: R.Tracked, lines: seq<StopLine>) returns (out: seq<Crossing>)
      modifies this
      ensures Visited(states, out) == VisitLines(visit, old(states), t, lines)
    {
      out := [];
      for j := 0 to |lines|
        invariant Visited(states, out) == VisitLines(visit, old(states), t, lines[..j])
      {
        assert lines[..j + 1][..j] == lines[..j];
        var visited := visit(states, t, lines[j]);
        states := visited.states;
        out := out + visited.out;
      }
      assert lines[..|lines|] == lines;
    }

    method ExpireMissing()
      modifies this
      ensures states == Expired(old(states), settings.maximumMissed)
    {
      var before := states;
      var todo := before.Keys;
      while todo != {}
        invariant forall key | key in todo :: key in before && key in states && states[key] == before[key]
        invariant forall key :: key !in todo ==>
          Lookup(states, key) == Lookup(Expired(before, settings.maximumMissed), key)
        decreases |todo|
      {
        var key :| key in todo;
        if !states[key].observed {
          var missed := states[key].missed + 1;
          if missed > settings.maximumMissed {
            states := states - {key};
          } else {
            states := states[key := states[key].(missed := missed)];
          }
        }
        todo := todo - {key};
      }
      SameMaps(states, Expired(before, settings.maximumMissed));
    }

    method Reset()
      modifies this
      ensures states == map[]
    {
      states := map[];
    }
  }
}
