/** Sustained driving outside all lanes. */
module LaneViolation {
  import opened Collections
  import H = Hysteresis
  import L = LaneOccupancy
  import R = Riders

  /** The newest candidate observation; a gap before confirmation starts the candidate anew. */
  function Rules(confirmation: nat, tolerance: nat): H.Rules<L.Observation, L.Observation> {
    H.Rules(confirmation, tolerance, (o: L.Observation) => o, (d: L.Observation, o: L.Observation) => o, true)
  }

  /** The candidates among the observations, by track. */
  function Candidates(os: seq<L.Observation>): seq<(nat, L.Observation)> {
    if os == [] then []
    else
      var front, last := Candidates(os[..|os| - 1]), os[|os| - 1];
      if last.candidate then front + [(last.track, last)] else front
  }

  ghost function LastSeen<O>(h: seq<H.Sample<O>>): Option<O> {
    if h == [] then None else if h[|h| - 1].seen.Some? then h[|h| - 1].seen else LastSeen(h[..|h| - 1])
  }

  /** What is reported of a vehicle is its latest candidate observation. */
  lemma {:induction false} DataIsLatest(h: seq<H.Sample<L.Observation>>, confirmation: nat, tolerance: nat)
    ensures var e := H.EntryAfter(h, Rules(confirmation, tolerance)); e.Some? ==> LastSeen(h) == Some(e.value.data)
  {
    if h != [] { DataIsLatest(h[..|h| - 1], confirmation, tolerance); }
  }

  /** A violation is reported to begin at the first of the frames in a row that confirmed it. */
  lemma ReportedFromFirstFrame(track: nat, h: seq<H.Sample<L.Observation>>, confirmation: nat, tolerance: nat)
    requires confirmation > 0 && h != []
    requires var r, front := Rules(confirmation, tolerance), h[..|h| - 1];
      !H.Active(front, confirmation, tolerance) && H.Streak(h) == confirmation
    ensures var r, front, last := Rules(confirmation, tolerance), h[..|h| - 1], h[|h| - 1];
      var out := H.Emitted(track, H.EntryAfter(front, r), last.seen, last.at, r);
      && |out| == 1 && out[0].kind == H.Started
      && confirmation <= |h| && out[0].firstFrame == h[|h| - confirmation].at.frame
      && Some(out[0].data) == last.seen
  {
    var r := Rules(confirmation, tolerance);
    H.TransitionsExactly(track, h, r);
    H.FirstCandidateStartsRun(track, h, r);
  }

  class LaneViolationDetector {
    const settings: L.Settings
    const detector: H.Detector<nat, L.Observation, L.Observation>

    constructor (settings: L.Settings, confirmation: nat, tolerance: nat)
      requires confirmation > 0
      ensures this.settings == settings && fresh(detector)
      ensures detector.rules == Rules(confirmation, tolerance) && detector.states == map[]
    {
      this.settings := settings;
      detector := new H.Detector(Rules(confirmation, tolerance));
    }

    /** One frame. */
    method Update(at: H.Moment, ts: seq<R.Tracked>, scene: Option<L.Scene>, image: L.Image)
      returns (reply: H.Reply<nat, L.Observation>)
      requires scene.Some? ==> scene.value.Valid()
      modifies detector
      ensures reply.Refused? <==> at.frame <= 0 || at.time < 0.0 || !image.Valid()
      ensures reply.Refused? ==> detector.states == old(detector.states)
      ensures reply.Reported? ==>
        var os := if scene.None? || !scene.value.enabled || scene.value.lanes == [] then []
                  else L.Observations(settings, ts, scene.value, image);
        H.Changes(old(detector.states), H.Latest(Candidates(os)), at, detector.rules, detector.states,
          reply.transitions)
    {
      if at.frame <= 0 || at.time < 0.0 {
        return H.Refused;
      }
      var occupancy := L.Analyze(settings, ts, scene, image);
      if occupancy.BadImage? {
        return H.Refused;
      }
      var found := FindCandidates(occupancy.observations);
      reply := detector.Update(at, found);
    }

    static method FindCandidates(os: seq<L.Observation>) returns (found: seq<(nat, L.Observation)>)
      ensures found == Candidates(os)
    {
      found := [];
      for i := 0 to |os|
        invariant found == Candidates(os[..i])
      {
        assert os[..i + 1][..i] == os[..i];
        if os[i].candidate {
          found := found + [(os[i].track, os[i])];
        }
      }
      assert os[..|os|] == os;
    }
  }
}
