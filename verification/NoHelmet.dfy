/** Riders without a helmet, smoothed over time. */
module NoHelmet {
  import opened Collections
  import A = HelmetRider
  import opened Smoothing
  import H = Hysteresis

  datatype Data = Data(motorcycle: nat, confidence: real, score: real)

  function Begin(o: A.Candidate): Data {
    Data(o.motorcycle, o.confidence, o.score)
  }

  /** The newest motorcycle; exponentially smoothed confidence and score. */
  function Merge(alpha: real, d: Data, o: A.Candidate): Data {
    Data(o.motorcycle,
         Smooth(alpha, o.confidence, d.confidence),
         Smooth(alpha, o.score, d.score))
  }

  function Rules(confirmation: nat, tolerance: nat, alpha: real): H.Rules<A.Candidate, Data> {
    H.Rules(confirmation, tolerance, Begin, (d: Data, o: A.Candidate) => Merge(alpha, d, o), false)
  }

  /** What a frame says about each person: the last no-helmet association naming the person. */
  function Observed(a: seq<A.Candidate>): seq<(nat, A.Candidate)> {
    if a == [] then []
    else
      var front, last := Observed(a[..|a| - 1]), a[|a| - 1];
      if last.className == A.NO_HELMET then front + [(last.person, last)] else front
  }

  ghost predicate Within(d: Data, low: real, high: real) {
    low <= d.confidence <= high && low <= d.score <= high
  }

  ghost function Fits(low: real, high: real): A.Candidate -> bool {
    (o: A.Candidate) => Within(Begin(o), low, high)
  }

  ghost function Good(low: real, high: real): Data -> bool {
    (d: Data) => Within(d, low, high)
  }

  /** Whatever range the observed confidences and scores of a person lie in, the smoothed ones
      stay in it for as long as the person is tracked. */
  lemma {:induction false} SmoothedWithin(h: seq<H.Sample<A.Candidate>>, confirmation: nat, tolerance: nat, alpha: real,
                                          low: real, high: real)
    requires 0.0 < alpha <= 1.0
    requires forall i | 0 <= i < |h| && h[i].seen.Some? :: Within(Begin(h[i].seen.value), low, high)
    ensures var e := H.EntryAfter(h, Rules(confirmation, tolerance, alpha));
      e.Some? ==> Within(e.value.data, low, high)
  {
    var r := Rules(confirmation, tolerance, alpha);
    forall d, o | Good(low, high)(d) && Fits(low, high)(o)
      ensures Good(low, high)(r.merge(d, o))
    {
      SmoothWithin(alpha, o.confidence, d.confidence, low, high);
      SmoothWithin(alpha, o.score, d.score, low, high);
    }
    H.DataKept(h, r, Fits(low, high), Good(low, high));
  }

  class NoHelmetDetector {
    const detector: H.Detector<nat, A.Candidate, Data>

    constructor (confirmation: nat, tolerance: nat, alpha: real)
      requires confirmation > 0 && 0.0 < alpha <= 1.0
      ensures fresh(detector) && detector.rules == Rules(confirmation, tolerance, alpha) && detector.states == map[]
    {
      detector := new H.Detector(Rules(confirmation, tolerance, alpha));
    }

    /** One frame; only no-helmet associations count. */
    method Update(at: H.Moment, a: seq<A.Candidate>) returns (reply: H.Reply<nat, Data>)
      modifies detector
      ensures reply.Refused? <==> at.frame <= 0 || at.time < 0.0
      ensures reply.Refused? ==> detector.states == old(detector.states)
      ensures reply.Reported? ==>
        H.Changes(old(detector.states), H.Latest(Observed(a)), at, detector.rules, detector.states, reply.transitions)
    {
      var found := [];
      for i := 0 to |a|
        invariant found == Observed(a[..i])
        invariant detector.states == old(detector.states)
      {
        assert a[..i + 1][..i] == a[..i];
        if a[i].className == A.NO_HELMET {
          found := found + [(a[i].person, a[i])];
        }
      }
      assert a[..|a|] == a;
      reply := detector.Update(at, found);
    }
  }
}
