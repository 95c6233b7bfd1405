/** Where vehicles are relative to the configured lanes. */
module LaneOccupancy {
  import opened Geometry
  import opened Norms
  import opened Collections
  import B = Boxes
  import R = Riders

  /** A configured lane; its polygon has at least three corners, its direction is not zero. */
  datatype Lane = Lane(id: string, polygon: Polygon, direction: Point)
  {
    predicate Valid() { |polygon| >= 3 && direction != Point(0.0, 0.0) }
  }

  datatype Scene = Scene(enabled: bool, zone: Option<Polygon>, lanes: seq<Lane>)
  {
    predicate Valid() { forall i | 0 <= i < |lanes| :: lanes[i].Valid() }
  }

  datatype Settings = Settings(minimumSpeed: real, tolerance: real, norm: Norm)

  datatype Image = Image(width: int, height: int)
  {
    predicate Valid() { width > 0 && height > 0 }

    function SpanX(): real { B.Max((width - 1) as real, 1.0) }

    function SpanY(): real { B.Max((height - 1) as real, 1.0) }
  }

  datatype Observation = Observation(
    track: nat, className: string, lane: Option<string>, nearest: Option<string>,
    anchor: Point, distance: Option<real>, velocityX: real, velocityY: real, speed: real,
    insideZone: bool, outsideLanes: bool, withinTolerance: bool, candidate: bool)

  const VEHICLES := {"bicycle", "car", "motorcycle", "bus", "truck"}

  predicate Eligible(t: R.Tracked) {
    t.confirmed && t.missed == 0 && t.className in VEHICLES
  }

  /** The point of the road under the middle of a vehicle, in pixels. */
  function AnchorPixel(t: R.Tracked): Point {
    Point(t.box.CenterX(), t.box.y1 + t.box.Height() * 0.90)
  }

  /** The same in normalized coordinates, kept inside the image. */
  function RoadAnchor(t: R.Tracked, image: Image): Point {
    var p := AnchorPixel(t);
    Point(B.Clamp01(p.x / image.SpanX()), B.Clamp01(p.y / image.SpanY()))
  }

  /** The first lane that contains the point. */
  function ContainingLane(p: Point, lanes: seq<Lane>): Option<Lane> {
    if lanes == [] then None
    else if Inside(p, lanes[0].polygon) then Some(lanes[0])
    else ContainingLane(p, lanes[1..])
  }

  lemma {:induction false} ContainingLaneIs(p: Point, lanes: seq<Lane>)
    ensures ContainingLane(p, lanes).None? <==> forall i | 0 <= i < |lanes| :: !Inside(p, lanes[i].polygon)
    ensures ContainingLane(p, lanes).Some? ==>
      ContainingLane(p, lanes).value in lanes && Inside(p, ContainingLane(p, lanes).value.polygon)
  {
    if lanes != [] && !Inside(p, lanes[0].polygon) {
      ContainingLaneIs(p, lanes[1..]);
      assert lanes == [lanes[0]] + lanes[1..];
      if ContainingLane(p, lanes).None? {
        forall i | 0 <= i < |lanes| ensures !Inside(p, lanes[i].polygon) {
          if i > 0 { assert lanes[i] == lanes[1..][i - 1]; }
        }
      }
    }
  }

  function LaneDistance(norm: Norm, p: Point, lane: Lane, image: Image): real {
    var d := EdgeDistance(norm, p, ToPixels(lane.polygon, image.width, image.height));
    if d.TooFewPoints? then 0.0 else d.distance
  }

  datatype Nearest = Nearest(lane: Option<string>, distance: Option<real>)

  /** The distance of a lane from some fixed point. */
  type Gauge = Lane -> real

  function GaugeOf(norm: Norm, p: Point, image: Image): Gauge {
    (lane: Lane) => LaneDistance(norm, p, lane, image)
  }

  /** The first of the lanes at the least distance. */
  function NearestBy(gauge: Gauge, lanes: seq<Lane>): Nearest {
    if lanes == [] then Nearest(None, None)
    else
      var front, last := NearestBy(gauge, lanes[..|lanes| - 1]), lanes[|lanes| - 1];
      if front.distance.None? || gauge(last) < front.distance.value then
        Nearest(Some(last.id), Some(gauge(last)))
      else front
  }

  function NearestLane(norm: Norm, p: Point, lanes: seq<Lane>, image: Image): Nearest {
    NearestBy(GaugeOf(norm, p, image), lanes)
  }

  lemma {:induction false} NearestIsLeast(gauge: Gauge, lanes: seq<Lane>)
    requires lanes != []
    ensures NearestBy(gauge, lanes).distance.Some?
    ensures forall i | 0 <= i < |lanes| :: NearestBy(gauge, lanes).distance.value <= gauge(lanes[i])
    ensures exists i :: 0 <= i < |lanes| && NearestBy(gauge, lanes) == Nearest(Some(lanes[i].id), Some(gauge(lanes[i])))
  {
    var front, last := lanes[..|lanes| - 1], lanes[|lanes| - 1];
    if front != [] {
      NearestIsLeast(gauge, front);
      var i :| 0 <= i < |front| && NearestBy(gauge, front) == Nearest(Some(front[i].id), Some(gauge(front[i])));
      assert front[i] == lanes[i];
      forall k | 0 <= k < |lanes| ensures NearestBy(gauge, lanes).distance.value <= gauge(lanes[k]) {
        if k < |front| { assert front[k] == lanes[k]; }
      }
    }
    assert lanes[|lanes| - 1] == last;
  }

  function AnchorInImage(anchor: Point, image: Image): Point {
    Point(anchor.x * image.SpanX(), anchor.y * image.SpanY())
  }

  function AnalyzeTrack(k: Settings, t: R.Tracked, scene: Scene, image: Image): Observation {
    var anchor := RoadAnchor(t, image);
    var insideZone := scene.zone.None? || Inside(anchor, scene.zone.value);
    var lane := ContainingLane(anchor, scene.lanes);
    var nearest := if lane.Some? then Nearest(Some(lane.value.id), Some(0.0))
                   else NearestLane(k.norm, AnchorInImage(anchor, image), scene.lanes, image);
    var speed := k.norm(t.velocityX, t.velocityY);
    var within := lane.None? && nearest.distance.Some? && nearest.distance.value <= k.tolerance;
    Observation(t.id, t.className, if lane.Some? then Some(lane.value.id) else None, nearest.lane,
                anchor, nearest.distance, t.velocityX, t.velocityY, speed,
                insideZone, lane.None?, within,
                insideZone && lane.None? && !within && speed >= k.minimumSpeed)
  }

  /** Farther than the tolerance from every point of every edge of the lane on the image. */
  ghost predicate FarFrom(k: Settings, p: Point, lane: Lane, image: Image) {
    var pixels := ToPixels(lane.polygon, image.width, image.height);
    forall i: nat, t: real | i < |pixels| && 0.0 <= t <= 1.0 ::
      Distance(k.norm, p, OnSegment(pixels[i], EdgeEnd(pixels, i), t)) > k.tolerance
  }

  lemma FarExactly(k: Settings, p: Point, lane: Lane, image: Image)
    requires IsNorm(k.norm) && lane.Valid()
    ensures FarFrom(k, p, lane, image) <==> LaneDistance(k.norm, p, lane, image) > k.tolerance
  {
    EdgeDistanceNearest(k.norm, p, ToPixels(lane.polygon, image.width, image.height));
  }

  ghost predicate FarFromAll(k: Settings, p: Point, lanes: seq<Lane>, image: Image) {
    forall i | 0 <= i < |lanes| :: FarFrom(k, p, lanes[i], image)
  }

  lemma FarFromAllExactly(k: Settings, p: Point, lanes: seq<Lane>, image: Image)
    requires IsNorm(k.norm) && lanes != [] && forall i | 0 <= i < |lanes| :: lanes[i].Valid()
    ensures FarFromAll(k, p, lanes, image) <==> NearestLane(k.norm, p, lanes, image).distance.value > k.tolerance
  {
    var gauge := GaugeOf(k.norm, p, image);
    NearestIsLeast(gauge, lanes);
    forall i | 0 <= i < |lanes|
      ensures FarFrom(k, p, lanes[i], image) <==> gauge(lanes[i]) > k.tolerance
    {
      FarExactly(k, p, lanes[i], image);
    }
  }

  /** A vehicle is a lane-violation candidate exactly when it is in the monitored zone, inside no
      lane, farther than the tolerance from every point of every edge of every lane, and moving. */
  lemma CandidateExactly(k: Settings, t: R.Tracked, scene: Scene, image: Image)
    requires IsNorm(k.norm) && scene.Valid() && scene.lanes != []
    ensures var anchor := RoadAnchor(t, image);
      AnalyzeTrack(k, t, scene, image).candidate <==>
      && (scene.zone.None? || Inside(anchor, scene.zone.value))
      && (forall i | 0 <= i < |scene.lanes| :: !Inside(anchor, scene.lanes[i].polygon))
      && FarFromAll(k, AnchorInImage(anchor, image), scene.lanes, image)
      && k.norm(t.velocityX, t.velocityY) >= k.minimumSpeed
  {
    var anchor := RoadAnchor(t, image);
    ContainingLaneIs(anchor, scene.lanes);
    FarFromAllExactly(k, AnchorInImage(anchor, image), scene.lanes, image);
    NearestIsLeast(GaugeOf(k.norm, AnchorInImage(anchor, image), image), scene.lanes);
  }

  // ---------------------------------------------------------------- the loops

  method FindContainingLane(p: Point, lanes: seq<Lane>) returns (r: Option<Lane>)
    ensures r == ContainingLane(p, lanes)
  {
    for i := 0 to |lanes|
      invariant ContainingLane(p, lanes) == ContainingLane(p, lanes[i..])
    {
      var inside := PointInPolygon(p, lanes[i].polygon);
      if inside {
        return Some(lanes[i]);
      }
      assert lanes[i..][1..] == lanes[i + 1..];
    }
    r := None;
  }

  method FindNearestLane(norm: Norm, p: Point, lanes: seq<Lane>, image: Image) returns (r: Nearest)
    requires forall i | 0 <= i < |lanes| :: lanes[i].Valid()
    ensures r == NearestLane(norm, p, lanes, image)
  {
    r := Nearest(None, None);
    for i := 0 to |lanes|
      invariant r == NearestLane(norm, p, lanes[..i], image)
    {
      assert lanes[..i + 1][..i] == lanes[..i];
      var measured := PointToPolygonEdgeDistance(norm, p, ToPixels(lanes[i].polygon, image.width, image.height));
      var distance := measured.distance;
      if r.distance.None? || distance < r.distance.value {
        r := Nearest(Some(lanes[i].id), Some(distance));
      }
    }
    assert lanes[..|lanes|] == lanes;
  }

  function Observations(k: Settings, ts: seq<R.Tracked>, scene: Scene, image: Image): seq<Observation> {
    if ts == [] then []
    else
      var front, t := Observations(k, ts[..|ts| - 1], scene, image), ts[|ts| - 1];
      if Eligible(t) then front + [AnalyzeTrack(k, t, scene, image)] else front
  }

  datatype Reply = BadImage | Analyzed(observations: seq<Observation>)

  method Analyze(k: Settings, ts: seq<R.Tracked>, scene: Option<Scene>, image: Image) returns (r: Reply)
    requires scene.Some? ==> scene.value.Valid()
    ensures r == if !image.Valid() then BadImage
                 else if scene.None? || !scene.value.enabled || scene.value.lanes == [] then Analyzed([])
                 else Analyzed(Observations(k, ts, scene.value, image))
  {
    if image.width <= 0 || image.height <= 0 {
      return BadImage;
    }
    if scene.None? || !scene.value.enabled || scene.value.lanes == [] {
      return Analyzed([]);
    }
    var observations := [];
    for i := 0 to |ts|
      invariant observations == Observations(k, ts[..i], scene.value, image)
    {
      assert ts[..i + 1][..i] == ts[..i];
      if Eligible(ts[i]) {
        var observation := AnalyzeOne(k, ts[i], scene.value, image);
        observations := observations + [observation];
      }
    }
    assert ts[..|ts|] == ts;
    r := Analyzed(observations);
  }

  method AnalyzeOne(k: Settings, t: R.Tracked, scene: Scene, image: Image) returns (o: Observation)
    requires scene.Valid()
    ensures o == AnalyzeTrack(k, t, scene, image)
  {
    var anchor := RoadAnchor(t, image);
    var insideZone := true;
    if scene.zone.Some? {
      insideZone := PointInPolygon(anchor, scene.zone.value);
    }
    var lane := FindContainingLane(anchor, scene.lanes);
    var nearest: Nearest;
    if lane.Some? {
      nearest := Nearest(Some(lane.value.id), Some(0.0));
    } else {
      nearest := FindNearestLane(k.norm, AnchorInImage(anchor, image), scene.lanes, image);
    }
    var speed := k.norm(t.velocityX, t.velocityY);
    var within := lane.None? && nearest.distance.Some? && nearest.distance.value <= k.tolerance;
    o := Observation(t.id, t.className, if lane.Some? then Some(lane.value.id) else None, nearest.lane,
                     anchor, nearest.distance, t.velocityX, t.velocityY, speed,
                     insideZone, lane.None?, within,
                     insideZone && lane.None? && !within && speed >= k.minimumSpeed);
  }
}
