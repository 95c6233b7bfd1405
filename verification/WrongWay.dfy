/** Driving against the direction of a lane. */
module WrongWay {
  import opened Norms
  import opened Collections
  import B = Boxes
  import H = Hysteresis
  import L = LaneOccupancy
  import R = Riders

  datatype Key = Key(track: nat, lane: string)

  datatype Observation = Observation(
    track: nat, className: string, lane: string, velocityX: real, velocityY: real,
    speed: real, cosine: real, opposition: real)

  datatype Settings = Settings(minimumSpeed: real, threshold: real, norm: Norm)
  {
    ghost predicate Valid() { minimumSpeed >= 0.0 && -1.0 <= threshold < 0.0 && IsNorm(norm) }
  }

  /** Undefined stands for the failed division by a speed of zero. */
  datatype Scored = Undefined | Conforming | Opposing(observation: Observation)

  /** The scalar product of velocity and direction. */
  function Dot(t: R.Tracked, lane: L.Lane): real {
    t.velocityX * lane.direction.x + t.velocityY * lane.direction.y
  }

  /** The product of their lengths. */
  function Lengths(norm: Norm, t: R.Tracked, lane: L.Lane): real {
    norm(t.velocityX, t.velocityY) * norm(lane.direction.x, lane.direction.y)
  }

  function ScoreDirection(k: Settings, t: R.Tracked, lane: L.Lane): Scored {
    ScoreBy(k, t, lane.id, k.norm(t.velocityX, t.velocityY), Lengths(k.norm, t, lane), Dot(t, lane))
  }

  /** The same from the speed, the product of the lengths and the scalar product. */
  function ScoreBy(k: Settings, t: R.Tracked, lane: string, speed: real, length: real, dot: real): Scored {
    if speed < k.minimumSpeed then Conforming
    else if length == 0.0 then Undefined
    else
      var cosine := B.Limit(dot / length, -1.0, 1.0);
      if cosine > k.threshold then Conforming
      else Opposing(Observation(t.id, t.className, lane, t.velocityX, t.velocityY, speed, cosine,
        B.Limit(-cosine, 0.0, 1.0)))
  }

  lemma QuotientOrder(a: real, l: real, x: real)
    requires l > 0.0
    ensures a / l > x <==> a > x * l
  {
    var q := a / l;
    assert q * l == a;
    if q > x { ProductPositive(q - x, l); }
    if q <= x { ProductNotNegative(x - q, l); }
  }

  /** Opposing, and with which scores. */
  ghost predicate OpposesAs(r: Scored, threshold: real, length: real, dot: real) {
    && length > 0.0
    && (r.Opposing? <==> dot <= threshold * length)
    && (r.Opposing? ==>
          && r.observation.cosine == dot / length && r.observation.opposition == -r.observation.cosine
          && 0.0 < -threshold <= r.observation.opposition <= 1.0)
  }

  lemma OpposingBy(k: Settings, t: R.Tracked, lane: string, speed: real, length: real, dot: real)
    requires k.threshold < 0.0 && speed >= k.minimumSpeed && length > 0.0 && -length <= dot <= length
    ensures OpposesAs(ScoreBy(k, t, lane, speed, length, dot), k.threshold, length, dot)
  {
    LimitsIdle(dot, length, k.threshold);
  }

  /** A moving vehicle opposes its lane exactly when the scalar product of velocity and direction is
      low enough against their lengths; neither limit on the scores ever takes effect. */
  lemma OpposingExactly(k: Settings, t: R.Tracked, lane: L.Lane)
    requires k.Valid() && lane.Valid()
    requires k.norm(t.velocityX, t.velocityY) >= k.minimumSpeed && k.norm(t.velocityX, t.velocityY) > 0.0
    ensures OpposesAs(ScoreDirection(k, t, lane), k.threshold, Lengths(k.norm, t, lane), Dot(t, lane))
  {
    LengthsBoundDot(k.norm, t, lane);
    OpposingBy(k, t, lane.id, k.norm(t.velocityX, t.velocityY), Lengths(k.norm, t, lane), Dot(t, lane));
  }

  lemma LengthsBoundDot(norm: Norm, t: R.Tracked, lane: L.Lane)
    requires IsNorm(norm) && lane.Valid() && norm(t.velocityX, t.velocityY) > 0.0
    ensures Lengths(norm, t, lane) > 0.0 && -Lengths(norm, t, lane) <= Dot(t, lane) <= Lengths(norm, t, lane)
  {
    var a, b := norm(t.velocityX, t.velocityY), norm(lane.direction.x, lane.direction.y);
    DirectionLong(norm, lane);
    ProductPositive(a, b);
    ScalarProductBound(t.velocityX, t.velocityY, lane.direction.x, lane.direction.y, a, b);
  }

  lemma DirectionLong(norm: Norm, lane: L.Lane)
    requires IsNorm(norm) && lane.Valid()
    ensures norm(lane.direction.x, lane.direction.y) > 0.0
  {
    ZeroNorm(lane.direction.x, lane.direction.y, norm(lane.direction.x, lane.direction.y));
    assert lane.direction.x != 0.0 || lane.direction.y != 0.0;
  }

  lemma LimitsIdle(dot: real, length: real, threshold: real)
    requires length > 0.0 && -length <= dot <= length && threshold < 0.0
    ensures B.Limit(dot / length, -1.0, 1.0) == dot / length
    ensures dot / length > threshold <==> dot > threshold * length
    ensures dot / length <= threshold ==>
      B.Limit(-(dot / length), 0.0, 1.0) == -(dot / length) && 0.0 < -threshold <= -(dot / length) <= 1.0
  {
    CosineInUnit(dot, length);
    QuotientOrder(dot, length, threshold);
  }

  /** The division fails exactly for a standing vehicle under a minimum speed of zero. */
  lemma UndefinedExactly(k: Settings, t: R.Tracked, lane: L.Lane)
    requires k.Valid() && lane.Valid()
    ensures ScoreDirection(k, t, lane).Undefined? <==> k.minimumSpeed == 0.0 && t.velocityX == 0.0 && t.velocityY == 0.0
  {
    var a, b := k.norm(t.velocityX, t.velocityY), k.norm(lane.direction.x, lane.direction.y);
    ZeroNorm(t.velocityX, t.velocityY, a);
    ZeroNorm(lane.direction.x, lane.direction.y, b);
    ZeroProduct(a, b);
  }

  // ---------------------------------------------------------------- over time

  function Begin(o: Observation): Observation {
    o
  }

  /** The newest motion; the strongest opposition so far. */
  function Merge(d: Observation, o: Observation): Observation {
    d.(velocityX := o.velocityX, velocityY := o.velocityY, speed := o.speed, cosine := o.cosine,
       opposition := B.Max(d.opposition, o.opposition))
  }

  function Rules(confirmation: nat, tolerance: nat): H.Rules<Observation, Observation> {
    H.Rules(confirmation, tolerance, Begin, Merge, false)
  }

  ghost predicate Covers(h: seq<H.Sample<Observation>>, d: Observation, from: nat) {
    forall i | from <= i < |h| && h[i].seen.Some? :: h[i].seen.value.opposition <= d.opposition
  }

  ghost predicate Attains(h: seq<H.Sample<Observation>>, d: Observation, from: nat) {
    exists i :: from <= i < |h| && h[i].seen.Some? && h[i].seen.value.opposition == d.opposition
  }

  /** The reported opposition is the largest of the episode: of all observations since the entry
      was opened, and one of them. */
  lemma {:induction false} OppositionIsPeak(h: seq<H.Sample<Observation>>, confirmation: nat, tolerance: nat)
    returns (from: nat)
    requires H.EntryAfter(h, Rules(confirmation, tolerance)).Some?
    ensures var e := H.EntryAfter(h, Rules(confirmation, tolerance)).value;
      from < |h| && h[from].at == e.first && Covers(h, e.data, from) && Attains(h, e.data, from)
  {
    var r := Rules(confirmation, tolerance);
    var front, last := h[..|h| - 1], h[|h| - 1];
    var before := H.EntryAfter(front, r);
    if before.None? {
      from := |h| - 1;
      assert h[from].seen.Some?;
    } else {
      from := OppositionIsPeak(front, confirmation, tolerance);
      PeakAdvances(h, before.value.data, H.EntryAfter(h, r).value.data, from);
    }
  }

  lemma PeakAdvances(h: seq<H.Sample<Observation>>, d: Observation, d': Observation, from: nat)
    requires h != [] && from < |h| - 1
    requires Covers(h[..|h| - 1], d, from) && Attains(h[..|h| - 1], d, from)
    requires d' == if h[|h| - 1].seen.Some? then Merge(d, h[|h| - 1].seen.value) else d
    ensures Covers(h, d', from) && Attains(h, d', from)
  {
    var front := h[..|h| - 1];
    forall i | from <= i < |h| && h[i].seen.Some?
      ensures h[i].seen.value.opposition <= d'.opposition
    {
      if i < |front| { assert front[i] == h[i]; }
    }
    var i :| from <= i < |front| && front[i].seen.Some? && front[i].seen.value.opposition == d.opposition;
    assert h[i] == front[i];
    if d'.opposition != d.opposition {
      assert h[|h| - 1].seen.value.opposition == d'.opposition;
    }
  }

  // ---------------------------------------------------------------- the frame

  function Judged(k: Settings, t: R.Tracked, lanes: seq<L.Lane>, image: L.Image): Scored {
    if !L.Eligible(t) then Conforming
    else
      var lane := L.ContainingLane(L.RoadAnchor(t, image), lanes);
      if lane.None? then Conforming else ScoreDirection(k, t, lane.value)
  }

  type Judge = R.Tracked -> Scored

  function Judging(k: Settings, lanes: seq<L.Lane>, image: L.Image): Judge {
    (t: R.Tracked) => Judged(k, t, lanes, image)
  }

  function Observed(judge: Judge, ts: seq<R.Tracked>): seq<(Key, Observation)> {
    if ts == [] then []
    else
      var front := Observed(judge, ts[..|ts| - 1]);
      match judge(ts[|ts| - 1])
      case Opposing(o) => front + [(Key(o.track, o.lane), o)]
      case _ => front
  }

  class WrongWayDetector {
    const settings: Settings
    const detector: H.Detector<Key, Observation, Observation>

    constructor (settings: Settings, confirmation: nat, tolerance: nat)
      requires settings.Valid() && confirmation > 0
      ensures this.settings == settings && fresh(detector)
      ensures detector.rules == Rules(confirmation, tolerance) && detector.states == map[]
    {
      this.settings := settings;
      detector := new H.Detector(Rules(confirmation, tolerance));
    }

    /** One frame; refused for bad arguments and, with everything unchanged, for a failed division. */
    method Update(at: H.Moment, ts: seq<R.Tracked>, scene: Option<L.Scene>, image: L.Image)
      returns (reply: H.Reply<Key, Observation>)
      modifies detector
      ensures var lanes := if scene.None? || !scene.value.enabled then [] else scene.value.lanes;
        var judge := Judging(settings, lanes, image);
        && (reply.Refused? <==>
              at.frame <= 0 || at.time < 0.0 || !image.Valid() || exists t :: t in ts && judge(t).Undefined?)
        && (reply.Refused? ==> detector.states == old(detector.states))
        && (reply.Reported? ==>
              H.Changes(old(detector.states), H.Latest(Observed(judge, ts)), at, detector.rules, detector.states,
                reply.transitions))
    {
      if at.frame <= 0 || at.time < 0.0 || image.width <= 0 || image.height <= 0 {
        return H.Refused;
      }
      var lanes := if scene.None? || !scene.value.enabled then [] else scene.value.lanes;
      var failed, found := FindObservations(Judging(settings, lanes, image), ts);
      if failed {
        return H.Refused;
      }
      reply := detector.Update(at, found);
    }

    static method FindObservations(judge: Judge, ts: seq<R.Tracked>)
      returns (failed: bool, found: seq<(Key, Observation)>)
      ensures failed <==> exists t :: t in ts && judge(t).Undefined?
      ensures !failed ==> found == Observed(judge, ts)
    {
      failed, found := false, [];
      for i := 0 to |ts|
        invariant found == Observed(judge, ts[..i])
        invariant forall j | 0 <= j < i :: !judge(ts[j]).Undefined?
      {
        assert ts[..i + 1][..i] == ts[..i] && ts[i] in ts;
        match judge(ts[i]) {
          case Undefined => return true, [];
          case Conforming =>
          case Opposing(o) => found := found + [(Key(o.track, o.lane), o)];
        }
      }
      assert ts[..|ts|] == ts;
    }
  }
}
