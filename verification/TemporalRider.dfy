/** Rider relationships over time: a relationship is confirmed after some frames in a row,
    survives short gaps, and displaces the person's other relationships once confirmed. */
module TemporalRider {
  import opened Collections
  import opened Riders
  import opened Smoothing

  datatype State = State(
    latest: real, smoothed: real, consecutive: nat, total: nat, missed: nat,
    confirmed: bool, observed: bool, features: Features)

  datatype Settings = Settings(confirmation: nat, tolerance: nat, alpha: real)
  {
    predicate Valid() { confirmation > 0 && 0.0 < alpha <= 1.0 }
  }

  type States = map<Seat, State>

  function SeatOfCandidate(c: Candidate): Seat {
    Seat(c.person, c.motorcycle)
  }

  // ---------------------------------------------------------------- one frame, on values

  /** What the frame says about each pair; a repeated pair keeps its last mention. */
  function Observed(a: seq<Candidate>): map<Seat, Candidate> {
    if a == [] then map[]
    else Observed(a[..|a| - 1])[SeatOfCandidate(a[|a| - 1]) := a[|a| - 1]]
  }

  /** The pairs in the order of their first mention. */
  function Mentioned(a: seq<Candidate>): seq<Seat> {
    if a == [] then []
    else
      var front, k := Mentioned(a[..|a| - 1]), SeatOfCandidate(a[|a| - 1]);
      if k in front then front else front + [k]
  }

  function First(c: Candidate, s: Settings): State {
    State(c.score, c.score, 1, 1, 0, s.confirmation <= 1, true, c.features)
  }

  function Again(e: State, c: Candidate, s: Settings): State {
    State(c.score, Smooth(s.alpha, c.score, e.smoothed), e.consecutive + 1, e.total + 1, 0,
          e.confirmed || e.consecutive + 1 >= s.confirmation, true, c.features)
  }

  function Observe(e: Option<State>, c: Candidate, s: Settings): State {
    match e
    case None => First(c, s)
    case Some(x) => Again(x, c, s)
  }

  predicate NewlyConfirmed(e: Option<State>, c: Candidate, s: Settings) {
    Observe(e, c, s).confirmed && (e.None? || !e.value.confirmed)
  }

  function ObserveAll(st: States, keys: seq<Seat>, o: map<Seat, Candidate>, s: Settings): States {
    if keys == [] then st
    else
      var front, k := ObserveAll(st, keys[..|keys| - 1], o, s), keys[|keys| - 1];
      if k in o then front[k := Observe(Lookup(front, k), o[k], s)] else front
  }

  function NewKeys(st: States, keys: seq<Seat>, o: map<Seat, Candidate>, s: Settings): seq<Seat> {
    if keys == [] then []
    else
      var front, k := NewKeys(st, keys[..|keys| - 1], o, s), keys[|keys| - 1];
      if k in o && NewlyConfirmed(Lookup(st, k), o[k], s) then front + [k] else front
  }

  function Missed(e: State): State {
    e.(missed := e.missed + 1, consecutive := 0, observed := false)
  }

  function AgeAll(st: States, o: map<Seat, Candidate>, s: Settings): States {
    map k | k in st && (k in o || st[k].missed + 1 <= s.tolerance) :: if k in o then st[k] else Missed(st[k])
  }

  /** Keeps only this relationship of the person. */
  function Displace(st: States, k: Seat): States {
    if k in st then map j | j in st && (j.person != k.person || j == k) :: st[j] else st
  }

  function DisplaceAll(st: States, keys: seq<Seat>): States {
    if keys == [] then st else Displace(DisplaceAll(st, keys[..|keys| - 1]), keys[|keys| - 1])
  }

  function Step(st: States, a: seq<Candidate>, s: Settings): States {
    var o, keys := Observed(a), Mentioned(a);
    DisplaceAll(AgeAll(ObserveAll(st, keys, o, s), o, s), NewKeys(st, keys, o, s))
  }

  // ---------------------------------------------------------------- key by key

  lemma {:induction false} MentionedOnce(a: seq<Candidate>)
    ensures forall i, j | 0 <= i < j < |Mentioned(a)| :: Mentioned(a)[i] != Mentioned(a)[j]
    ensures forall k :: k in Mentioned(a) <==> k in Observed(a)
  {
    if a != [] { MentionedOnce(a[..|a| - 1]); }
  }

  lemma {:induction false} ObservedWasMentioned(a: seq<Candidate>, k: Seat)
    ensures k in Observed(a) <==> exists i :: 0 <= i < |a| && SeatOfCandidate(a[i]) == k
    ensures k in Observed(a) ==> Observed(a)[k] in a && SeatOfCandidate(Observed(a)[k]) == k
  {
    if a != [] {
      var front, last := a[..|a| - 1], a[|a| - 1];
      ObservedWasMentioned(front, k);
      assert a == front + [last];
      if SeatOfCandidate(last) != k && k !in Observed(front) {
        forall i | 0 <= i < |a| ensures SeatOfCandidate(a[i]) != k {
          if i < |front| { assert a[i] == front[i]; }
        }
      }
      if exists i :: 0 <= i < |front| && SeatOfCandidate(front[i]) == k {
        var i :| 0 <= i < |front| && SeatOfCandidate(front[i]) == k;
        assert SeatOfCandidate(a[i]) == k;
      }
      assert SeatOfCandidate(a[|a| - 1]) == SeatOfCandidate(last);
    }
  }

  ghost predicate Once(keys: seq<Seat>) {
    forall i, j | 0 <= i < j < |keys| :: keys[i] != keys[j]
  }

  lemma {:induction false} ObserveAllAt(st: States, keys: seq<Seat>, o: map<Seat, Candidate>, s: Settings, k: Seat)
    requires Once(keys)
    ensures Lookup(ObserveAll(st, keys, o, s), k)
         == if k in keys && k in o then Some(Observe(Lookup(st, k), o[k], s)) else Lookup(st, k)
  {
    if keys != [] {
      var front, last := keys[..|keys| - 1], keys[|keys| - 1];
      ObserveAllAt(st, front, o, s, k);
      assert keys == front + [last];
    }
  }

  lemma {:induction false} NewKeysAt(st: States, keys: seq<Seat>, o: map<Seat, Candidate>, s: Settings, k: Seat)
    ensures k in NewKeys(st, keys, o, s) <==> k in keys && k in o && NewlyConfirmed(Lookup(st, k), o[k], s)
  {
    if keys != [] {
      NewKeysAt(st, keys[..|keys| - 1], o, s, k);
      assert keys == keys[..|keys| - 1] + [keys[|keys| - 1]];
    }
  }

  /** The first of the keys that is about the person. */
  function FirstOf(keys: seq<Seat>, p: nat): Option<Seat> {
    if keys == [] then None
    else
      var front := FirstOf(keys[..|keys| - 1], p);
      if front.None? && keys[|keys| - 1].person == p then Some(keys[|keys| - 1]) else front
  }

  /** What displacement leaves: of a person without new keys everything, of another one only the first new key. */
  lemma {:induction false} DisplaceAllAt(st: States, keys: seq<Seat>, k: Seat)
    requires forall j | j in keys :: j in st
    ensures Lookup(DisplaceAll(st, keys), k)
         == if FirstOf(keys, k.person) == None || FirstOf(keys, k.person) == Some(k) then Lookup(st, k) else None
  {
    if keys != [] {
      var front, last := keys[..|keys| - 1], keys[|keys| - 1];
      assert keys == front + [last];
      DisplaceAllAt(st, front, k);
      DisplaceAllAt(st, front, last);
    }
  }

  lemma {:induction false} FirstOfKnown(keys: seq<Seat>, p: nat)
    ensures FirstOf(keys, p).None? <==> forall k | k in keys :: k.person != p
    ensures FirstOf(keys, p).Some? ==> FirstOf(keys, p).value in keys && FirstOf(keys, p).value.person == p
  {
    if keys != [] {
      FirstOfKnown(keys[..|keys| - 1], p);
      assert keys == keys[..|keys| - 1] + [keys[|keys| - 1]];
    }
  }

  /** The state of a pair after the frame, unless it was displaced. */
  function Next(e: Option<State>, c: Option<Candidate>, s: Settings): Option<State> {
    match c
    case Some(x) => Some(Observe(e, x, s))
    case None => if e.None? || e.value.missed + 1 > s.tolerance then None else Some(Missed(e.value))
  }

  lemma AgedAt(st: States, a: seq<Candidate>, s: Settings, k: Seat)
    ensures Lookup(AgeAll(ObserveAll(st, Mentioned(a), Observed(a), s), Observed(a), s), k)
         == Next(Lookup(st, k), Lookup(Observed(a), k), s)
  {
    MentionedOnce(a);
    ObserveAllAt(st, Mentioned(a), Observed(a), s, k);
  }

  /** The keys that this frame confirms, in the order of their first mention. */
  function NewlyConfirmedIn(st: States, a: seq<Candidate>, s: Settings): seq<Seat> {
    NewKeys(st, Mentioned(a), Observed(a), s)
  }

  /** A pair follows its own history unless the frame confirms another pair of the same person;
      of several pairs confirmed at once the first one mentioned stays. */
  lemma StepAt(st: States, a: seq<Candidate>, s: Settings, k: Seat)
    ensures var first := FirstOf(NewlyConfirmedIn(st, a, s), k.person);
      Lookup(Step(st, a, s), k)
      == if first == None || first == Some(k) then Next(Lookup(st, k), Lookup(Observed(a), k), s) else None
  {
    var aged, keys := AgeAll(ObserveAll(st, Mentioned(a), Observed(a), s), Observed(a), s), NewlyConfirmedIn(st, a, s);
    AgedAt(st, a, s, k);
    forall j | j in keys
      ensures j in aged
    {
      NewKeysAt(st, Mentioned(a), Observed(a), s, j);
      AgedAt(st, a, s, j);
      assert Lookup(aged, j).Some?;
    }
    DisplaceAllAt(aged, keys, k);
  }

  // ---------------------------------------------------------------- one motorcycle per person

  /** Nobody has two confirmed motorcycles. */
  ghost predicate Exclusive(st: States) {
    forall j, k | j in st && k in st && st[j].confirmed && st[k].confirmed && j.person == k.person :: j == k
  }

  /** After every frame, whatever it reports, nobody has two confirmed motorcycles. */
  lemma StepExclusive(st: States, a: seq<Candidate>, s: Settings)
    requires Exclusive(st)
    ensures Exclusive(Step(st, a, s))
  {
    var after := Step(st, a, s);
    forall j, k | j in after && k in after && after[j].confirmed && after[k].confirmed && j.person == k.person
      ensures j == k
    {
      StepAt(st, a, s, j);
      StepAt(st, a, s, k);
      FirstOfKnown(NewlyConfirmedIn(st, a, s), j.person);
      MentionedOnce(a);
      NewKeysAt(st, Mentioned(a), Observed(a), s, j);
      NewKeysAt(st, Mentioned(a), Observed(a), s, k);
    }
  }

  // ---------------------------------------------------------------- every run

  ghost predicate SoundState(e: State, s: Settings) {
    && e.consecutive <= e.total && e.missed <= s.tolerance
    && (e.observed <==> e.missed == 0) && (e.missed > 0 ==> e.consecutive == 0)
    && (!e.confirmed ==> e.consecutive < s.confirmation)
  }

  ghost predicate Sound(st: States, s: Settings) {
    Exclusive(st) && forall k | k in st :: SoundState(st[k], s)
  }

  lemma StepSound(st: States, a: seq<Candidate>, s: Settings)
    requires s.Valid() && Sound(st, s)
    ensures Sound(Step(st, a, s), s)
    ensures forall k | k in Step(st, a, s) :: Step(st, a, s)[k].observed <==> k in Observed(a)
  {
    StepExclusive(st, a, s);
    forall k | k in Step(st, a, s)
      ensures SoundState(Step(st, a, s)[k], s) && (Step(st, a, s)[k].observed <==> k in Observed(a))
    {
      StepAt(st, a, s, k);
    }
  }

  ghost function Run(frames: seq<seq<Candidate>>, s: Settings): States {
    if frames == [] then map[] else Step(Run(frames[..|frames| - 1], s), frames[|frames| - 1], s)
  }

  /** In every reachable state, for all inputs: one confirmed motorcycle per person at most, and
      the counters agree with each other. */
  lemma {:induction false} RunSound(frames: seq<seq<Candidate>>, s: Settings)
    requires s.Valid()
    ensures Sound(Run(frames, s), s)
  {
    if frames != [] {
      RunSound(frames[..|frames| - 1], s);
      StepSound(Run(frames[..|frames| - 1], s), frames[|frames| - 1], s);
    }
  }

  /** The pair was reported in each of the last n frames. */
  ghost predicate Steady(frames: seq<seq<Candidate>>, k: Seat, n: nat) {
    n <= |frames| && forall i | |frames| - n <= i < |frames| :: k in Observed(frames[i])
  }

  lemma {:induction false} ConsecutiveIsSteady(frames: seq<seq<Candidate>>, s: Settings, k: Seat)
    requires k in Run(frames, s)
    ensures Steady(frames, k, Run(frames, s)[k].consecutive)
  {
    if frames != [] {
      var front, last := frames[..|frames| - 1], frames[|frames| - 1];
      StepAt(Run(front, s), last, s, k);
      if k in Run(front, s) {
        ConsecutiveIsSteady(front, s, k);
      }
    }
  }

  /** A relationship becomes confirmed only after it was reported `confirmation` frames in a row. */
  lemma {:induction false} ConfirmationIsSteady(frames: seq<seq<Candidate>>, s: Settings, k: Seat)
    requires s.Valid() && frames != [] && k in Run(frames, s) && Run(frames, s)[k].confirmed
    requires var before := Run(frames[..|frames| - 1], s); k !in before || !before[k].confirmed
    ensures Steady(frames, k, s.confirmation)
  {
    var front := frames[..|frames| - 1];
    StepAt(Run(front, s), frames[|frames| - 1], s, k);
    ConsecutiveIsSteady(frames, s, k);
  }

  ghost predicate ScoresWithin(st: States, low: real, high: real) {
    forall k | k in st :: low <= st[k].smoothed <= high
  }

  /** Smoothed scores stay within the range of the reported ones. */
  lemma {:induction false} SmoothedWithin(frames: seq<seq<Candidate>>, s: Settings, low: real, high: real)
    requires s.Valid()
    requires forall i | 0 <= i < |frames| :: forall c | c in frames[i] :: low <= c.score <= high
    ensures ScoresWithin(Run(frames, s), low, high)
  {
    if frames != [] {
      var front, last := frames[..|frames| - 1], frames[|frames| - 1];
      SmoothedWithin(front, s, low, high);
      StepWithin(Run(front, s), last, s, low, high);
    }
  }

  lemma StepWithin(st: States, a: seq<Candidate>, s: Settings, low: real, high: real)
    requires s.Valid() && ScoresWithin(st, low, high)
    requires forall c | c in a :: low <= c.score <= high
    ensures ScoresWithin(Step(st, a, s), low, high)
  {
    forall k | k in Step(st, a, s)
      ensures low <= Step(st, a, s)[k].smoothed <= high
    {
      StepAt(st, a, s, k);
      if k in Observed(a) {
        ObservedWasMentioned(a, k);
        ObserveWithin(Lookup(st, k), Observed(a)[k], s, low, high);
      }
    }
  }

  lemma ObserveWithin(e: Option<State>, c: Candidate, s: Settings, low: real, high: real)
    requires s.Valid() && low <= c.score <= high && (e.Some? ==> low <= e.value.smoothed <= high)
    ensures low <= Observe(e, c, s).smoothed <= high
  {
    if e.Some? {
      SmoothWithin(s.alpha, c.score, e.value.smoothed, low, high);
    }
  }

  // ---------------------------------------------------------------- the object

  /** Every pair neither reported nor still to do has aged. */
  ghost predicate AgedExcept(before: States, after: States, o: map<Seat, Candidate>, todo: set<Seat>, s: Settings) {
    forall k ::
      Lookup(after, k) == if k in o || k in todo then Lookup(before, k) else Next(Lookup(before, k), None, s)
  }

  lemma OneMoreAged(before: States, mid: States, after: States, o: map<Seat, Candidate>, todo: set<Seat>, k: Seat,
                    s: Settings)
    requires AgedExcept(before, mid, o, todo, s) && k in todo && k !in o
    requires forall j ::
      Lookup(after, j) == if j == k then Next(Lookup(mid, k), None, s) else Lookup(mid, j)
    ensures AgedExcept(before, after, o, todo - {k}, s)
  {
  }

  lemma AgedAll(before: States, after: States, o: map<Seat, Candidate>, s: Settings)
    requires AgedExcept(before, after, o, {}, s)
    ensures after == AgeAll(before, o, s)
  {
    SameMaps(after, AgeAll(before, o, s));
  }

  class Smoother {
    var states: States
    const settings: Settings

    ghost predicate Valid()
      reads this
    {
      settings.Valid() && Sound(states, settings)
    }

    constructor (settings: Settings)
      requires settings.Valid()
      ensures Valid() && states == map[] && this.settings == settings
    {
      this.settings := settings;
      states := map[];
    }

    /** One frame. */
    method Update(a: seq<Candidate>) returns (removed: set<Seat>)
      requires Valid()
      modifies this
      ensures Valid()
      ensures states == Step(old(states), a, settings)
      ensures removed == old(states).Keys + Observed(a).Keys - states.Keys
    {
      StepSound(states, a, settings);
      MentionedOnce(a);
      var observed, keys := Collect(a);
      var newly := SeeAll(keys, observed);
      ghost var seen := states;
      var expired := AgeOthers(observed);
      AgedAll(seen, states, observed, settings);
      var displaced := DisplaceOthers(newly);
      removed := expired + displaced;
    }

    static method Collect(a: seq<Candidate>) returns (observed: map<Seat, Candidate>, keys: seq<Seat>)
      ensures observed == Observed(a) && keys == Mentioned(a)
    {
      observed, keys := map[], [];
      for i := 0 to |a|
        invariant observed == Observed(a[..i]) && keys == Mentioned(a[..i])
      {
        assert a[..i + 1][..i] == a[..i];
        var k := SeatOfCandidate(a[i]);
        if k !in keys {
          keys := keys + [k];
        }
        observed := observed[k := a[i]];
      }
      assert a[..|a|] == a;
    }

    method SeeAll(keys: seq<Seat>, observed: map<Seat, Candidate>) returns (newly: seq<Seat>)
      requires Once(keys) && forall k :: k in keys <==> k in observed
      modifies this
      ensures states == ObserveAll(old(states), keys, observed, settings)
      ensures newly == NewKeys(old(states), keys, observed, settings)
      ensures states.Keys == old(states).Keys + observed.Keys
    {
      newly := [];
      for i := 0 to |keys|
        invariant states == ObserveAll(old(states), keys[..i], observed, settings)
        invariant newly == NewKeys(old(states), keys[..i], observed, settings)
        invariant states.Keys == old(states).Keys + set k | k in keys[..i]
      {
        assert keys[..i + 1][..i] == keys[..i];
        var k := keys[i];
        ObserveAllAt(old(states), keys[..i], observed, settings, k);
        assert k !in keys[..i];
        var state := Observe(Lookup(states, k), observed[k], settings);
        var before := k in states && states[k].confirmed;
        states := states[k := state];
        if state.confirmed && !before {
          newly := newly + [k];
        }
      }
      assert keys[..|keys|] == keys;
    }

    method AgeOthers(observed: map<Seat, Candidate>) returns (expired: set<Seat>)
      modifies this
      ensures AgedExcept(old(states), states, observed, {}, settings)
      ensures expired <= old(states).Keys && states.Keys == old(states).Keys - expired
    {
      expired := {};
      var todo := states.Keys - observed.Keys;
      while todo != {}
        invariant todo <= old(states).Keys - observed.Keys
        invariant AgedExcept(old(states), states, observed, todo, settings)
        invariant forall j :: j in expired ==> j in old(states)
        invariant forall j :: j in states <==> j in old(states) && j !in expired
        decreases |todo|
      {
        var k :| k in todo;
        ghost var mid := states;
        var gone := AgeOne(k);
        OneMoreAged(old(states), mid, states, observed, todo, k, settings);
        expired := expired + gone;
        todo := todo - {k};
      }
    }

    method AgeOne(k: Seat) returns (expired: set<Seat>)
      requires k in states
      modifies this
      ensures forall j ::
        Lookup(states, j) == if j == k then Next(Lookup(old(states), k), None, settings) else Lookup(old(states), j)
      ensures forall j :: j in states <==> j in old(states) && j !in expired
      ensures forall j :: j in expired ==> j == k
    {
      expired := {};
      var state := Missed(states[k]);
      if state.missed > settings.tolerance {
        expired := {k};
        states := states - {k};
      } else {
        states := states[k := state];
      }
    }

    method DisplaceOthers(newly: seq<Seat>) returns (displaced: set<Seat>)
      modifies this
      ensures states == DisplaceAll(old(states), newly)
      ensures displaced <= old(states).Keys && states.Keys == old(states).Keys - displaced
    {
      displaced := {};
      for i := 0 to |newly|
        invariant states == DisplaceAll(old(states), newly[..i])
        invariant displaced <= old(states).Keys && states.Keys == old(states).Keys - displaced
      {
        assert newly[..i + 1][..i] == newly[..i];
        if newly[i] in states {
          var gone := set j | j in states && j.person == newly[i].person && j != newly[i];
          displaced := displaced + gone;
          states := states - gone;
        }
      }
      assert newly[..|newly|] == newly;
    }

    method Reset()
      requires Valid()
      modifies this
      ensures Valid() && states == map[]
    {
      states := map[];
    }
  }
}
