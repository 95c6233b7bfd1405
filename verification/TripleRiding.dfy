/** Too many riders on one motorcycle. */
module TripleRiding {
  import opened Collections
  import opened Riders
  import Assignment
  import T = TemporalRider
  import H = Hysteresis

  /** A relationship as the smoother reports it. */
  datatype Reported = Reported(key: Seat, state: T.State)

  type Group = seq<Reported>

  datatype Data = Data(riders: seq<nat>, count: nat, peak: nat, averageScore: real)

  predicate Counts(x: Reported, motorcycle: nat) {
    x.state.confirmed && x.state.observed && x.key.motorcycle == motorcycle
  }

  /** The confirmed riders of a motorcycle that were observed in this frame. */
  function GroupOf(a: seq<Reported>, motorcycle: nat): Group {
    if a == [] then []
    else
      var front := GroupOf(a[..|a| - 1], motorcycle);
      if Counts(a[|a| - 1], motorcycle) then front + [a[|a| - 1]] else front
  }

  function RidersOf(g: Group): seq<nat> {
    seq(|g|, i requires 0 <= i < |g| => g[i].key.person)
  }

  function ScoreSum(g: Group): real {
    if g == [] then 0.0 else ScoreSum(g[..|g| - 1]) + g[|g| - 1].state.smoothed
  }

  function Average(g: Group): real {
    if g == [] then 0.0 else ScoreSum(g) / |g| as real
  }

  function Begin(g: Group): Data {
    Data(RidersOf(g), |g|, |g|, Average(g))
  }

  function Merge(d: Data, g: Group): Data {
    Data(RidersOf(g), |g|, if d.peak >= |g| then d.peak else |g|, Average(g))
  }

  function Rules(confirmation: nat, tolerance: nat): H.Rules<Group, Data> {
    H.Rules(confirmation, tolerance, Begin, Merge, false)
  }

  // ---------------------------------------------------------------- who is counted

  /** The report names every pair of the smoother once. */
  ghost predicate Lists(a: seq<Reported>, st: T.States) {
    && (forall i | 0 <= i < |a| :: a[i].key in st && a[i].state == st[a[i].key])
    && (forall i, j | 0 <= i < j < |a| :: a[i].key != a[j].key)
    && forall k | k in st :: exists i :: 0 <= i < |a| && a[i].key == k
  }

  lemma {:induction false} GroupMembers(a: seq<Reported>, motorcycle: nat)
    ensures forall x :: x in GroupOf(a, motorcycle) <==> x in a && Counts(x, motorcycle)
  {
    if a != [] {
      GroupMembers(a[..|a| - 1], motorcycle);
      assert a == a[..|a| - 1] + [a[|a| - 1]];
    }
  }

  ghost predicate KeysOnce(a: seq<Reported>) {
    forall i, j | 0 <= i < j < |a| :: a[i].key != a[j].key
  }

  lemma {:induction false} GroupOnce(a: seq<Reported>, motorcycle: nat)
    requires KeysOnce(a)
    ensures KeysOnce(GroupOf(a, motorcycle))
  {
    if a != [] {
      var front := a[..|a| - 1];
      GroupOnce(front, motorcycle);
      GroupMembers(front, motorcycle);
      var g := GroupOf(front, motorcycle);
      forall i | 0 <= i < |g| ensures g[i].key != a[|a| - 1].key { assert g[i] in g; }
    }
  }

  /** Nobody is counted on two motorcycles in one frame, nor twice on one. */
  lemma NobodyCountedTwice(a: seq<Reported>, st: T.States, m: nat, n: nat, i: nat, j: nat)
    requires T.Exclusive(st) && Lists(a, st)
    requires i < |GroupOf(a, m)| && j < |GroupOf(a, n)|
    requires GroupOf(a, m)[i].key.person == GroupOf(a, n)[j].key.person
    ensures m == n && i == j
  {
    GroupMembers(a, m);
    GroupMembers(a, n);
    var x, y := GroupOf(a, m)[i], GroupOf(a, n)[j];
    assert x in GroupOf(a, m) && y in GroupOf(a, n);
    assert x.key == y.key;
    GroupOnce(a, m);
    assert !(i < j) && !(j < i);
  }

  // ---------------------------------------------------------------- how many

  ghost function SeatsOn(s: seq<Seat>, motorcycle: nat): set<Seat> {
    if s == [] then {}
    else SeatsOn(s[..|s| - 1], motorcycle) + if s[|s| - 1].motorcycle == motorcycle then {s[|s| - 1]} else {}
  }

  lemma {:induction false} SeatsOnSize(s: seq<Seat>, motorcycle: nat)
    ensures |SeatsOn(s, motorcycle)| <= Count(s, motorcycle)
  {
    if s != [] { SeatsOnSize(s[..|s| - 1], motorcycle); }
  }

  lemma {:induction false} SeatsOnMembers(s: seq<Seat>, motorcycle: nat, k: Seat)
    ensures k in SeatsOn(s, motorcycle) <==> k in s && k.motorcycle == motorcycle
  {
    if s != [] {
      SeatsOnMembers(s[..|s| - 1], motorcycle, k);
      assert s == s[..|s| - 1] + [s[|s| - 1]];
    }
  }

  ghost function Keys(g: Group): set<Seat> {
    if g == [] then {} else Keys(g[..|g| - 1]) + {g[|g| - 1].key}
  }

  lemma {:induction false} KeysSize(g: Group)
    requires KeysOnce(g)
    ensures |Keys(g)| == |g|
    ensures forall k :: k in Keys(g) <==> exists i :: 0 <= i < |g| && g[i].key == k
  {
    if g != [] {
      var front := g[..|g| - 1];
      KeysSize(front);
      forall k ensures k in Keys(g) <==> exists i :: 0 <= i < |g| && g[i].key == k {
        if k in Keys(front) {
          var i :| 0 <= i < |front| && front[i].key == k;
          assert g[i].key == k;
        }
        if exists i :: 0 <= i < |g| && g[i].key == k {
          var i :| 0 <= i < |g| && g[i].key == k;
          if i < |front| { assert front[i].key == k; }
        }
      }
    }
  }

  ghost function SeatsIn(frame: seq<Candidate>): seq<Seat> {
    seq(|frame|, i requires 0 <= i < |frame| => T.SeatOfCandidate(frame[i]))
  }

  /** Only pairs associated in this very frame are counted. */
  lemma ObservedIsSeated(frame: seq<Candidate>, k: Seat, m: nat)
    requires k in T.Observed(frame) && k.motorcycle == m
    ensures k in SeatsOn(SeatsIn(frame), m)
  {
    var seats := SeatsIn(frame);
    T.ObservedWasMentioned(frame, k);
    var f :| 0 <= f < |frame| && T.SeatOfCandidate(frame[f]) == k;
    assert seats[f] == k;
    SeatsOnMembers(seats, m, k);
  }

  /** So a group is no larger than what the frame assigned to the motorcycle. */
  lemma GroupWithinFrame(a: seq<Reported>, before: T.States, frame: seq<Candidate>, s: T.Settings, m: nat)
    requires s.Valid() && T.Sound(before, s)
    requires Lists(a, T.Step(before, frame, s))
    ensures |GroupOf(a, m)| <= Count(SeatsIn(frame), m)
  {
    var g, seats := GroupOf(a, m), SeatsIn(frame);
    T.StepSound(before, frame, s);
    GroupMembers(a, m);
    GroupOnce(a, m);
    KeysSize(g);
    forall k | k in Keys(g)
      ensures k in SeatsOn(seats, m)
    {
      var i :| 0 <= i < |g| && g[i].key == k;
      assert g[i] in g && g[i] in a;
      ObservedIsSeated(frame, k, m);
    }
    Assignment.SubsetSize(Keys(g), SeatsOn(seats, m));
    SeatsOnSize(seats, m);
  }

  // ---------------------------------------------------------------- every run

  /** What the detector sees of one motorcycle, frame by frame. */
  ghost function HistoryOf(reports: seq<seq<Reported>>, at: seq<H.Moment>, minimum: nat, m: nat): seq<H.Sample<Group>>
    requires |at| == |reports|
  {
    seq(|reports|, i requires 0 <= i < |reports| =>
      H.Sample(at[i], if |GroupOf(reports[i], m)| >= minimum then Some(GroupOf(reports[i], m)) else None))
  }

  /** If no frame assigns more riders to the motorcycle than its capacity, neither does any state count more. */
  lemma CountsWithinCapacity(frames: seq<seq<Candidate>>, reports: seq<seq<Reported>>, at: seq<H.Moment>,
                             s: T.Settings, r: H.Rules<Group, Data>, minimum: nat, capacity: nat, m: nat)
    requires s.Valid() && r == Rules(r.confirmation, r.tolerance)
    requires |reports| == |frames| == |at|
    requires forall i | 0 <= i < |frames| :: Lists(reports[i], T.Run(frames[..i + 1], s))
    requires forall i | 0 <= i < |frames| :: Count(SeatsIn(frames[i]), m) <= capacity
    ensures var e := H.EntryAfter(HistoryOf(reports, at, minimum, m), r);
      e.Some? ==> minimum <= e.value.data.count <= e.value.data.peak <= capacity
  {
    var h := HistoryOf(reports, at, minimum, m);
    forall i | 0 <= i < |h| && h[i].seen.Some?
      ensures Fits(minimum, capacity)(h[i].seen.value)
    {
      assert frames[..i + 1][..i] == frames[..i];
      T.RunSound(frames[..i], s);
      GroupWithinFrame(reports[i], T.Run(frames[..i], s), frames[i], s, m);
    }
    H.DataKept(h, r, Fits(minimum, capacity), Bounded(minimum, capacity));
  }

  /** What the assignment of riders makes of each frame of tracks. */
  ghost function Assigned(k: Config, solve: Assignment.Solver, tracks: seq<seq<Tracked>>): seq<seq<Candidate>> {
    seq(|tracks|, i requires 0 <= i < |tracks| => Riders.Reported(k, solve, tracks[i]))
  }

  lemma AssignedWithinCapacity(k: Config, solve: Assignment.Solver, tracks: seq<Tracked>, m: nat)
    requires Assignment.Solves(solve) && Different(Ids(tracks))
    ensures Count(SeatsIn(Riders.Reported(k, solve, tracks)), m) <= k.capacity
  {
    var frame := Riders.Reported(k, solve, tracks);
    ReportedWithinCapacity(k, solve, tracks, m);
    CountOn(frame, SeatsIn(frame), m);
  }

  /** In every reachable state of the pipeline, from tracks through the assignment of riders and the
      smoother to the detector, a motorcycle under observation has between the minimum and the
      capacity riders, and its peak lies between its present count and the capacity. */
  lemma {:induction false} RiderCountsBounded(
    tracks: seq<seq<Tracked>>, k: Config, solve: Assignment.Solver, s: T.Settings,
    reports: seq<seq<Reported>>, at: seq<H.Moment>, r: H.Rules<Group, Data>, minimum: nat, m: nat)
    requires Assignment.Solves(solve) && s.Valid() && r == Rules(r.confirmation, r.tolerance)
    requires |reports| == |tracks| == |at|
    requires forall i | 0 <= i < |tracks| :: Different(Ids(tracks[i]))
    requires forall i | 0 <= i < |tracks| :: Lists(reports[i], T.Run(Assigned(k, solve, tracks)[..i + 1], s))
    ensures var e := H.EntryAfter(HistoryOf(reports, at, minimum, m), r);
      e.Some? ==> minimum <= e.value.data.count <= e.value.data.peak <= k.capacity
  {
    var frames := Assigned(k, solve, tracks);
    forall i | 0 <= i < |frames|
      ensures Count(SeatsIn(frames[i]), m) <= k.capacity
    {
      AssignedWithinCapacity(k, solve, tracks[i], m);
    }
    CountsWithinCapacity(frames, reports, at, s, r, minimum, k.capacity, m);
  }

  ghost function Fits(minimum: nat, capacity: nat): Group -> bool {
    (g: Group) => minimum <= |g| <= capacity
  }

  ghost function Bounded(minimum: nat, capacity: nat): Data -> bool {
    (d: Data) => minimum <= d.count <= d.peak <= capacity
  }

  // ---------------------------------------------------------------- the object

  class TripleRidingDetector {
    const minimum: nat
    const detector: H.Detector<nat, Group, Data>

    constructor (minimum: nat, confirmation: nat, tolerance: nat)
      requires minimum >= 2 && confirmation > 0
      ensures this.minimum == minimum && fresh(detector)
      ensures detector.rules == Rules(confirmation, tolerance) && detector.states == map[]
    {
      this.minimum := minimum;
      detector := new H.Detector(Rules(confirmation, tolerance));
    }

    method Group(a: seq<Reported>) returns (g: map<nat, Group>)
      ensures forall m :: m in g <==> GroupOf(a, m) != []
      ensures forall m | m in g :: g[m] == GroupOf(a, m)
    {
      g := map[];
      for i := 0 to |a|
        invariant forall m :: m in g <==> GroupOf(a[..i], m) != []
        invariant forall m | m in g :: g[m] == GroupOf(a[..i], m)
      {
        assert a[..i + 1][..i] == a[..i];
        var x := a[i];
        if x.state.confirmed && x.state.observed {
          var m := x.key.motorcycle;
          g := g[m := (if m in g then g[m] else []) + [x]];
        }
      }
      assert a[..|a|] == a;
    }

    method Violating(g: map<nat, Group>) returns (found: seq<(nat, Group)>)
      ensures forall m :: Lookup(H.Latest(found), m) == if m in g && |g[m]| >= minimum then Some(g[m]) else None
    {
      found := [];
      var todo := g.Keys;
      while todo != {}
        invariant todo <= g.Keys
        invariant forall m :: Lookup(H.Latest(found), m)
                         == if m in g && m !in todo && |g[m]| >= minimum then Some(g[m]) else None
        decreases |todo|
      {
        var m :| m in todo;
        if |g[m]| >= minimum {
          assert (found + [(m, g[m])])[..|found|] == found;
          found := found + [(m, g[m])];
        }
        todo := todo - {m};
      }
    }

    /** One frame: a motorcycle is a candidate when enough riders were observed on it. */
    method Update(at: H.Moment, a: seq<Reported>) returns (reply: H.Reply<nat, Data>)
      requires minimum >= 2
      modifies detector
      ensures reply.Refused? <==> at.frame <= 0 || at.time < 0.0
      ensures reply.Refused? ==> detector.states == old(detector.states)
      ensures reply.Reported? ==> exists observed: map<nat, Group> ::
        && H.Changes(old(detector.states), observed, at, detector.rules, detector.states, reply.transitions)
        && forall m :: Lookup(observed, m) == if |GroupOf(a, m)| >= minimum then Some(GroupOf(a, m)) else None
    {
      var g := Group(a);
      var found := Violating(g);
      reply := detector.Update(at, found);
    }
  }
}
