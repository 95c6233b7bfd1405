/** Durable violation events: what a transition does to the event of its key, and what is left
    after a job was tried several times. */
module EventStore {
  import opened Collections
  import B = Boxes
  import H = Hysteresis

  type Key = string

  datatype Velocity = Velocity(x: real, y: real)

  /** What a transition says beyond the common lifecycle fields. */
  datatype Payload =
    | WrongWay(track: int, className: string, lane: string, velocity: Velocity, speed: real, cosine: real,
      opposition: real)
    | TripleRiding(motorcycle: int, riders: seq<int>, count: int, peak: int)
    | NoHelmet(person: int, motorcycle: int, confidence: real, score: real)
    | LaneViolation(className: string, nearestLane: Option<string>, distance: Option<real>, speed: real)
    | RedLight(track: int, className: string, stopLine: string, lane: string, light: string, signal: string,
               signalConfidence: real, cosine: real, speed: real)

  datatype Change = Change(
    kind: H.Kind, frame: int, time: real, firstCandidate: int, confirmed: Option<int>, duration: real, payload: Payload)

  datatype Life = Alive | Over

  /** The part of the metadata that every transition overwrites. */
  datatype Latest = Latest(payload: Payload, firstCandidate: int, confirmed: Option<int>, kind: H.Kind, frame: int,
    time: real)

  datatype Review = Review(status: ReviewStatus, at: real, reviewer: string, note: Option<string>)

  datatype ReviewStatus = Pending | Confirmed | Rejected

  datatype Metadata = Metadata(
    latest: Option<Latest>, startTime: Option<real>, life: Option<Life>, startFrame: Option<int>,
      duration: Option<real>,
    endFrame: Option<int>, endTime: Option<real>,
    peakOpposition: Option<real>, minimumCosine: Option<real>, peakRiders: Option<int>,
    history: seq<Change>, review: Option<Review>)

  const Empty := Metadata(None, None, None, None, None, None, None, None, None, None, [], None)

  // ---------------------------------------------------------------- merging a transition

  function OrElse<T>(o: Option<T>, default_: T): T {
    match o
    case Some(x) => x
    case None => default_
  }

  /** `setdefault`. */
  function Default<T>(o: Option<T>, x: T): Option<T> {
    if o.Some? then o else Some(x)
  }

  predicate Recorded(history: seq<Change>, c: Change) {
    exists i | 0 <= i < |history| :: history[i].kind == c.kind && history[i].frame == c.frame
  }

  function Record(history: seq<Change>, c: Change): seq<Change> {
    if Recorded(history, c) then history else history + [c]
  }

  function LatestOf(c: Change): Latest {
    Latest(c.payload, c.firstCandidate, c.confirmed, c.kind, c.frame, c.time)
  }

  /** The extreme values seen so far. */
  function Extremes(m: Metadata, c: Change): Metadata {
    match c.payload
    case WrongWay(_, _, _, _, _, cosine, opposition) =>
      m.(peakOpposition := Some(B.Max(OrElse(m.peakOpposition, 0.0), opposition)),
         minimumCosine := Some(B.Min(OrElse(m.minimumCosine, 1.0), cosine)))
    case TripleRiding(_, _, _, peak) =>
      var before := OrElse(m.peakRiders, 0);
      m.(peakRiders := Some(if before >= peak then before else peak))
    case _ => m
  }

  /** Wrong way, triple riding and no helmet: an ended event is not reopened. */
  function MergeKeeping(m: Metadata, c: Change): Metadata {
    var n := Extremes(m, c).(
      history := Record(m.history, c), latest := Some(LatestOf(c)),
      startTime := Default(m.startTime, B.Max(c.time - c.duration, 0.0)));
    match c.kind
    case Started =>
      n.(life := if m.life == Some(Over) then m.life else Some(Alive),
         startFrame := Default(m.startFrame, c.frame), duration := Default(m.duration, 0.0))
    case Ended =>
      n.(life := Some(Over), endFrame := Some(c.frame), endTime := Some(c.time), duration := Some(c.duration))
  }

  /** `confirmed_frame or first_candidate_frame`: zero counts as missing. */
  function Anchor(c: Change): int {
    match c.confirmed
    case Some(f) => if f != 0 then f else c.firstCandidate
    case None => c.firstCandidate
  }

  /** Lane violations: the latest transition decides whether the event is alive. */
  function MergeLane(m: Metadata, c: Change): Metadata {
    var n := m.(
      history := Record(m.history, c), latest := Some(LatestOf(c)),
      life := Some(if c.kind == H.Ended then Over else Alive),
      startFrame := Some(Anchor(c)), startTime := Some(B.Max(c.time - c.duration, 0.0)));
    if c.kind == H.Ended then
      n.(endFrame := Some(c.frame), endTime := Some(c.time), duration := Some(c.duration))
    else n
  }

  /** Red light: a single crossing, always started. */
  function MergeRedLight(m: Metadata, c: Change): Metadata {
    m.(history := Record(m.history, c), latest := Some(LatestOf(c)), life := Some(Alive))
  }

  function Merge(m: Metadata, c: Change): Metadata {
    match c.payload
    case LaneViolation(_, _, _, _) => MergeLane(m, c)
    case RedLight(_, _, _, _, _, _, _, _, _) => MergeRedLight(m, c)
    case _ => MergeKeeping(m, c)
  }

  // ---------------------------------------------------------------- the row of an event

  datatype Geometry = Geometry(boxes: seq<(real, real, real, real)>, anchor: Option<(real, real)>)

  datatype Event = Event(
    camera: Option<int>, review: ReviewStatus, occurredAt: real, frame: int,
    detection: Option<real>, rule: Option<real>, geometry: Option<Geometry>,
    preview: Option<string>, image: Option<string>, metadata: Metadata)

  /** A transition with everything its persistence derives from the same frame. */
  datatype Item = Item(
    key: Key, change: Change, camera: Option<int>, videoCreatedAt: real,
    detection: Option<real>, rule: Option<real>, geometry: Option<Geometry>)

  /** The larger of the stored confidence, if any, and the new one, if any. */
  function Raise(old_: Option<real>, new_: Option<real>): Option<real> {
    match new_
    case None => old_
    case Some(x) => Some(B.Max(OrElse(old_, 0.0), x))
  }

  function FrameOf(c: Change): int {
    match c.confirmed
    case Some(f) => if f != 0 then f else c.frame
    case None => c.frame
  }

  function Created(x: Item): Event {
    var c := x.change;
    Event(x.camera, Pending, x.videoCreatedAt + B.Max(c.time - c.duration, 0.0), FrameOf(c),
          x.detection, x.rule, x.geometry, None, None, Merge(Empty, c))
  }

  function Updated(e: Event, x: Item): Event {
    e.(camera := if e.camera.Some? then e.camera else x.camera,
       metadata := Merge(e.metadata, x.change),
       geometry := if x.geometry.Some? then x.geometry else e.geometry,
       detection := Raise(e.detection, x.detection), rule := Raise(e.rule, x.rule))
  }

  function Persisted(e: Option<Event>, x: Item): Event {
    match e
    case None => Created(x)
    case Some(old_) => Updated(old_, x)
  }

  // ---------------------------------------------------------------- one episode

  /** The start and the end of one episode. */
  ghost predicate Episode(s: Item, e: Item) {
    && s.key == e.key && s.camera == e.camera
    && s.change.kind == H.Started && e.change.kind == H.Ended
    && SameFamily(s.change.payload, e.change.payload)
    && Confident(s) && Confident(e)
  }

  predicate SameFamily(a: Payload, b: Payload) {
    || (a.WrongWay? && b.WrongWay?) || (a.TripleRiding? && b.TripleRiding?) || (a.NoHelmet? && b.NoHelmet?)
    || (a.LaneViolation? && b.LaneViolation?) || (a.RedLight? && b.RedLight?)
  }

  /** Confidences are not negative. */
  ghost predicate Confident(x: Item) {
    && (x.detection.Some? ==> x.detection.value >= 0.0)
    && (x.rule.Some? ==> x.rule.value >= 0.0)
  }

  ghost function AfterStart(s: Item): Event {
    Created(s)
  }

  ghost function AfterEnd(s: Item, e: Item): Event {
    Updated(AfterStart(s), e)
  }

  ghost function AfterRestart(s: Item, e: Item): Event {
    Updated(AfterEnd(s, e), s)
  }

  lemma StartTwice(s: Item)
    requires Confident(s)
    ensures Updated(AfterStart(s), s) == AfterStart(s)
  {
    MergeTwice(s.change);
    RaisesSettle(s.detection, s.detection);
    RaisesSettle(s.rule, s.rule);
  }

  lemma MergeTwice(c: Change)
    ensures Merge(Merge(Empty, c), c) == Merge(Empty, c)
  {
    assert !Recorded([], c) && Record([], c) == [c];
    assert [c][0] == c && Record([c], c) == [c];
    match c.payload
    case LaneViolation(_, _, _, _) =>
    case RedLight(_, _, _, _, _, _, _, _, _) =>
    case WrongWay(_, _, _, _, _, _, _) =>
    case TripleRiding(_, _, _, _) =>
    case NoHelmet(_, _, _, _) =>
  }

  lemma Histories(a: Change, b: Change)
    requires a.kind != b.kind
    ensures Record([a], b) == [a, b] && Record([a, b], a) == [a, b] && Record([a, b], b) == [a, b]
  {
    assert !Recorded([a], b);
    assert [a, b][0] == a && [a, b][1] == b;
    assert Recorded([a, b], a) && Recorded([a, b], b);
  }

  /** Merging start, end, start, end. */
  ghost function M1(s: Change): Metadata { Merge(Empty, s) }

  ghost function M2(s: Change, e: Change): Metadata { Merge(M1(s), e) }

  ghost function M3(s: Change, e: Change): Metadata { Merge(M2(s, e), s) }

  lemma MergesSettle(s: Change, e: Change)
    requires s.kind == H.Started && e.kind == H.Ended && SameFamily(s.payload, e.payload)
    ensures Merge(M2(s, e), e) == M2(s, e)
    ensures Merge(M3(s, e), s) == M3(s, e)
    ensures Merge(M3(s, e), e) == M2(s, e)
    ensures M2(s, e).latest == Some(LatestOf(e)) && M3(s, e).latest == Some(LatestOf(s))
  {
    Histories(s, e);
    assert !Recorded([], s) && Record([], s) == [s];
    match s.payload
    case LaneViolation(_, _, _, _) =>
    case RedLight(_, _, _, _, _, _, _, _, _) =>
    case WrongWay(_, _, _, _, _, _, _) =>
    case TripleRiding(_, _, _, _) =>
    case NoHelmet(_, _, _, _) =>
  }

  lemma RaisesSettle(a: Option<real>, b: Option<real>)
    requires (a.Some? ==> a.value >= 0.0) && (b.Some? ==> b.value >= 0.0)
    ensures var r := Raise(a, b); Raise(r, b) == r && Raise(r, a) == r && Raise(a, a) == a
  {
  }

  /** Persisting start and end again, in whatever order, moves between two states only. */
  lemma EpisodeSettles(s: Item, e: Item)
    requires Episode(s, e)
    ensures Updated(AfterEnd(s, e), e) == AfterEnd(s, e)
    ensures Updated(AfterRestart(s, e), s) == AfterRestart(s, e)
    ensures Updated(AfterRestart(s, e), e) == AfterEnd(s, e)
    ensures AfterRestart(s, e) != AfterEnd(s, e)
  {
    MergesSettle(s.change, e.change);
    RaisesSettle(s.detection, e.detection);
    RaisesSettle(s.rule, e.rule);
    assert AfterEnd(s, e).metadata == M2(s.change, e.change) && AfterRestart(s, e).metadata == M3(s.change, e.change);
  }

  /** The row of one key after a sequence of its transitions. */
  ghost function RowAfter(w: seq<Item>): Option<Event> {
    if w == [] then None else Some(Persisted(RowAfter(w[..|w| - 1]), w[|w| - 1]))
  }

  /** Only these two. */
  ghost predicate Among(w: seq<Item>, s: Item, e: Item) {
    forall i | 0 <= i < |w| :: w[i] == s || w[i] == e
  }

  /** However often and in whatever interleaving the two transitions of an episode are persisted,
      start first, the row depends only on whether the end was ever persisted and which came last. */
  lemma {:induction false} RowByLast(w: seq<Item>, s: Item, e: Item)
    requires Episode(s, e) && Among(w, s, e) && w != [] && w[0] == s
    ensures RowAfter(w) == Some(if e !in w then AfterStart(s)
                                else if w[|w| - 1] == e then AfterEnd(s, e) else AfterRestart(s, e))
  {
    var front, last := w[..|w| - 1], w[|w| - 1];
    assert w == front + [last];
    if front == [] {
      assert RowAfter([]) == None;
    } else {
      RowByLast(front, s, e);
      StartTwice(s);
      EpisodeSettles(s, e);
    }
  }

  /** So a retried episode leaves the same row as an uninterrupted one exactly when the last
      transition persisted was its end. */
  lemma {:induction false} RetriedEpisodeSame(w: seq<Item>, s: Item, e: Item)
    requires Episode(s, e) && Among(w, s, e) && w != [] && w[0] == s
    ensures RowAfter(w) == RowAfter([s, e]) <==> w[|w| - 1] == e
  {
    RowByLast(w, s, e);
    RowByLast([s, e], s, e);
    EpisodeSettles(s, e);
    Histories(s.change, e.change);
    StartDiffers(s, e);
  }

  lemma StartDiffers(s: Item, e: Item)
    requires Episode(s, e)
    ensures AfterStart(s) != AfterEnd(s, e)
  {
    assert AfterStart(s).metadata.latest.value.kind == H.Started;
    assert AfterEnd(s, e).metadata.latest.value.kind == H.Ended;
  }

  /** The three families that keep an ended event ended, and the one that reopens it. */
  lemma {:induction false} EndedNeverReopened(w: seq<Item>, s: Item, e: Item)
    requires Episode(s, e) && Among(w, s, e) && w != [] && w[0] == s && e in w
    ensures var p, row := s.change.payload, RowAfter(w);
      && row.Some?
      && (p.WrongWay? || p.TripleRiding? || p.NoHelmet? ==>
            && row.value.metadata.life == Some(Over)
            && row.value.metadata.endFrame == Some(e.change.frame)
            && row.value.metadata.duration == Some(e.change.duration))
      && (p.LaneViolation? ==> (row.value.metadata.life == Some(Over) <==> w[|w| - 1] == e))
  {
    RowByLast(w, s, e);
  }

  // ---------------------------------------------------------------- the whole store

  type Events = map<Key, Event>

  function PersistOne(events: Events, x: Item): Events {
    events[x.key := Persisted(Lookup(events, x.key), x)]
  }

  function PersistAll(events: Events, items: seq<Item>): Events {
    if items == [] then events else PersistOne(PersistAll(events, items[..|items| - 1]), items[|items| - 1])
  }

  /** What a job's transitions leave in an empty store. */
  ghost function Stored(items: seq<Item>): Events {
    PersistAll(map[], items)
  }

  function OfKey(items: seq<Item>, k: Key): seq<Item> {
    if items == [] then []
    else
      var front := OfKey(items[..|items| - 1], k);
      if items[|items| - 1].key == k then front + [items[|items| - 1]] else front
  }

  /** Each event depends on the transitions of its own key alone. */
  lemma {:induction false} KeysAlone(items: seq<Item>, k: Key)
    ensures Lookup(Stored(items), k) == RowAfter(OfKey(items, k))
  {
    if items != [] {
      var front, x := items[..|items| - 1], items[|items| - 1];
      KeysAlone(front, k);
      if x.key == k {
        assert (OfKey(front, k) + [x])[..|OfKey(front, k)|] == OfKey(front, k);
      }
    }
  }

  lemma {:induction false} OfKeyAppend(a: seq<Item>, b: seq<Item>, k: Key)
    ensures OfKey(a + b, k) == OfKey(a, k) + OfKey(b, k)
  {
    if b == [] {
      assert a + b == a;
    } else {
      assert (a + b)[..|a + b| - 1] == a + b[..|b| - 1];
      OfKeyAppend(a, b[..|b| - 1], k);
    }
  }

  lemma OfKeyPrefix(items: seq<Item>, n: nat, k: Key)
    requires n <= |items|
    ensures OfKey(items[..n], k) <= OfKey(items, k)
  {
    assert items == items[..n] + items[n..];
    OfKeyAppend(items[..n], items[n..], k);
  }

  /** What interrupted attempts have persisted, each a prefix of the job's transitions. */
  ghost function Attempts(items: seq<Item>, cuts: seq<nat>): seq<Item>
    requires forall i | 0 <= i < |cuts| :: cuts[i] <= |items|
  {
    if cuts == [] then [] else Attempts(items, cuts[..|cuts| - 1]) + items[..cuts[|cuts| - 1]]
  }

  /** Every key has one episode: a start and its end, or a start alone. */
  ghost predicate Episodic(items: seq<Item>) {
    forall k | exists i :: 0 <= i < |items| && items[i].key == k :: OneEpisode(OfKey(items, k))
  }

  ghost predicate OneEpisode(w: seq<Item>) {
    || (|w| == 1 && w[0].change.kind == H.Started && Confident(w[0]))
    || (|w| == 2 && Episode(w[0], w[1]))
  }

  lemma {:induction false} OfKeyNonempty(items: seq<Item>, k: Key)
    ensures OfKey(items, k) != [] <==> exists i :: 0 <= i < |items| && items[i].key == k
  {
    if items != [] {
      var front := items[..|items| - 1];
      OfKeyNonempty(front, k);
      if exists i :: 0 <= i < |front| && front[i].key == k {
        var i :| 0 <= i < |front| && front[i].key == k;
        assert items[i].key == k;
      }
      if exists i :: 0 <= i < |items| && items[i].key == k {
        var i :| 0 <= i < |items| && items[i].key == k;
        if i < |front| { assert front[i].key == k; }
      }
    }
  }

  /** Prefixes of an episode, one after another. */
  ghost predicate Restarts(w: seq<Item>, episode: seq<Item>) {
    episode != [] && (forall i | 0 <= i < |w| :: w[i] in episode) && (w == [] || w[0] == episode[0])
  }

  lemma {:induction false} AttemptsRestart(items: seq<Item>, cuts: seq<nat>, k: Key)
    requires forall i | 0 <= i < |cuts| :: cuts[i] <= |items|
    requires OfKey(items, k) != []
    ensures Restarts(OfKey(Attempts(items, cuts), k), OfKey(items, k))
  {
    if cuts != [] {
      var front, last := cuts[..|cuts| - 1], cuts[|cuts| - 1];
      AttemptsRestart(items, front, k);
      OfKeyAppend(Attempts(items, front), items[..last], k);
      OfKeyPrefix(items, last, k);
    }
  }

  lemma AttemptsKnown(items: seq<Item>, cuts: seq<nat>, k: Key)
    requires forall i | 0 <= i < |cuts| :: cuts[i] <= |items|
    requires OfKey(items, k) == []
    ensures OfKey(Attempts(items, cuts), k) == []
  {
    if cuts != [] {
      var front, last := cuts[..|cuts| - 1], cuts[|cuts| - 1];
      AttemptsKnown(items, front, k);
      OfKeyAppend(Attempts(items, front), items[..last], k);
      OfKeyPrefix(items, last, k);
    }
  }

  lemma {:induction false} SingleSettles(w: seq<Item>, s: Item)
    requires Confident(s) && w != [] && forall i | 0 <= i < |w| :: w[i] == s
    ensures RowAfter(w) == Some(AfterStart(s))
  {
    if |w| == 1 {
      assert w[..0] == [];
    } else {
      SingleSettles(w[..|w| - 1], s);
      StartTwice(s);
    }
  }

  /** The row is that of the uninterrupted episode exactly when its last transition was written last. */
  lemma EpisodeByLast(own: seq<Item>, episode: seq<Item>)
    requires OneEpisode(episode) && Restarts(own, episode)
    ensures RowAfter(own) == RowAfter(episode) <==> own != [] && own[|own| - 1] == episode[|episode| - 1]
  {
    if own == [] {
    } else if |episode| == 1 {
      SingleSettles(own, episode[0]);
      SingleSettles(episode, episode[0]);
    } else {
      var s, e := episode[0], episode[1];
      assert episode == [s, e];
      RetriedEpisodeSame(own, s, e);
    }
  }

  lemma FullEpisodeSettles(w: seq<Item>, episode: seq<Item>)
    requires OneEpisode(episode) && Restarts(w, episode)
    ensures RowAfter(w + episode) == RowAfter(episode)
  {
    var all := w + episode;
    assert all[|all| - 1] == episode[|episode| - 1];
    assert all[0] == episode[0] by { if w != [] { assert all[0] == w[0]; } }
    forall i | 0 <= i < |all| ensures all[i] in episode {
      if i < |w| { assert all[i] == w[i]; } else { assert all[i] == episode[i - |w|]; }
    }
    EpisodeByLast(all, episode);
  }

  /** Retry idempotence: any number of interrupted attempts followed by a complete one leave the
      same events as the complete one alone, row for row. */
  lemma {:induction false} RetriesLeaveNoTrace(items: seq<Item>, cuts: seq<nat>)
    requires Episodic(items) && forall i | 0 <= i < |cuts| :: cuts[i] <= |items|
    ensures Stored(Attempts(items, cuts) + items) == Stored(items)
  {
    var all := Attempts(items, cuts) + items;
    forall k: Key
      ensures Lookup(Stored(all), k) == Lookup(Stored(items), k)
    {
      KeysAlone(all, k);
      KeysAlone(items, k);
      OfKeyAppend(Attempts(items, cuts), items, k);
      if OfKey(items, k) == [] {
        AttemptsKnown(items, cuts, k);
      } else {
        OfKeyNonempty(items, k);
        AttemptsRestart(items, cuts, k);
        FullEpisodeSettles(OfKey(Attempts(items, cuts), k), OfKey(items, k));
      }
    }
    SameMaps(Stored(all), Stored(items));
  }

  /** Writes of one job in any order, by any number of attempts at once: under every key only
      transitions of its episode, the start first. */
  ghost predicate Writes(w: seq<Item>, items: seq<Item>) {
    forall k: Key ::
      if OfKey(items, k) == [] then OfKey(w, k) == [] else Restarts(OfKey(w, k), OfKey(items, k))
  }

  /** Under every key of the job the last write is the last transition of its episode. */
  ghost predicate LastWritten(w: seq<Item>, items: seq<Item>) {
    forall k: Key | OfKey(items, k) != [] ::
      var own, episode := OfKey(w, k), OfKey(items, k);
      own != [] && own[|own| - 1] == episode[|episode| - 1]
  }

  /** Exactly what can go wrong when writes of several attempts mix, as they can after a lease was
      lost: the table is that of a single run if and only if, under every key, the last write was
      the last transition of its episode. */
  lemma {:induction false} MixedWritesExactly(w: seq<Item>, items: seq<Item>)
    requires Episodic(items) && Writes(w, items)
    ensures Stored(w) == Stored(items) <==> LastWritten(w, items)
  {
    forall k: Key
      ensures Lookup(Stored(w), k) == Lookup(Stored(items), k) <==>
        OfKey(items, k) == [] || (var own, episode := OfKey(w, k), OfKey(items, k);
                                  own != [] && own[|own| - 1] == episode[|episode| - 1])
    {
      KeysAlone(w, k);
      KeysAlone(items, k);
      if OfKey(items, k) != [] {
        OfKeyNonempty(items, k);
        EpisodeByLast(OfKey(w, k), OfKey(items, k));
      }
    }
    if LastWritten(w, items) {
      SameMaps(Stored(w), Stored(items));
    }
  }

  // ---------------------------------------------------------------- attempts side by side

  ghost predicate LastOf(w: seq<Item>, parts: seq<seq<Item>>, p: nat) {
    w != [] && p < |parts| && parts[p] != [] && parts[p][|parts[p]| - 1] == w[|w| - 1]
  }

  /** The parts without their p-th one's last item. */
  ghost function Shorter(parts: seq<seq<Item>>, p: nat): seq<seq<Item>>
    requires p < |parts| && parts[p] != []
  {
    parts[p := parts[p][..|parts[p]| - 1]]
  }

  /** w mixes the parts, each in its own order. */
  ghost predicate Interleaves(w: seq<Item>, parts: seq<seq<Item>>) {
    if w == [] then forall p | 0 <= p < |parts| :: parts[p] == []
    else exists p: nat :: LastOf(w, parts, p) && Interleaves(w[..|w| - 1], Shorter(parts, p))
  }

  /** What every attempt writes is a prefix of what the job has to write. */
  ghost predicate Prefixes(parts: seq<seq<Item>>, items: seq<Item>) {
    forall p | 0 <= p < |parts| :: parts[p] <= items
  }

  lemma {:induction false} InterleavedHas(w: seq<Item>, parts: seq<seq<Item>>, p: nat, x: Item)
    requires Interleaves(w, parts) && p < |parts| && x in parts[p]
    ensures x in w
  {
    var q: nat :| LastOf(w, parts, q) && Interleaves(w[..|w| - 1], Shorter(parts, q));
    var last := parts[q][|parts[q]| - 1];
    assert last == w[|w| - 1];
    if q != p || x != last {
      assert q == p ==> parts[p] == parts[p][..|parts[p]| - 1] + [last];
      InterleavedHas(w[..|w| - 1], Shorter(parts, q), p, x);
    }
  }

  lemma {:induction false} NoneOfKey(items: seq<Item>, k: Key, x: Item)
    requires OfKey(items, k) == [] && x in items
    ensures x.key != k
  {
    OfKeyNonempty(items, k);
  }

  lemma {:induction false} MembersOfKey(items: seq<Item>, k: Key, x: Item)
    ensures x in OfKey(items, k) <==> x in items && x.key == k
  {
    if items != [] {
      MembersOfKey(items[..|items| - 1], k, x);
      assert items == items[..|items| - 1] + [items[|items| - 1]];
    }
  }

  /** Nothing of the key before item n: then item n, if it is of the key, is the first of its episode. */
  lemma FirstOfKey(items: seq<Item>, n: nat, k: Key)
    requires n < |items| && OfKey(items[..n], k) == [] && items[n].key == k
    ensures OfKey(items, k) != [] && OfKey(items, k)[0] == items[n]
  {
    assert items[..n + 1][..n] == items[..n];
    assert OfKey(items[..n + 1], k) == [items[n]];
    OfKeyPrefix(items, n + 1, k);
  }

  /** However attempts mix, under every key the start of the episode is written first. */
  lemma {:induction false} KeyRestarts(w: seq<Item>, parts: seq<seq<Item>>, items: seq<Item>, k: Key)
    requires Interleaves(w, parts) && Prefixes(parts, items)
    ensures if OfKey(items, k) == [] then OfKey(w, k) == [] else Restarts(OfKey(w, k), OfKey(items, k))
  {
    if w != [] {
      var p: nat :| LastOf(w, parts, p) && Interleaves(w[..|w| - 1], Shorter(parts, p));
      var front, x, n := w[..|w| - 1], w[|w| - 1], |parts[p]| - 1;
      assert x == items[n] && parts[p][..n] == items[..n];
      KeyRestarts(front, Shorter(parts, p), items, k);
      MembersOfKey(items, k, x);
      if x.key == k && OfKey(front, k) == [] {
        NothingYet(front, Shorter(parts, p), p, items, n, k);
        FirstOfKey(items, n, k);
      }
    }
  }

  lemma NothingYet(w: seq<Item>, parts: seq<seq<Item>>, p: nat, items: seq<Item>, n: nat, k: Key)
    requires Interleaves(w, parts) && p < |parts| && n <= |items| && parts[p] == items[..n] && OfKey(w, k) == []
    ensures OfKey(items[..n], k) == []
  {
    OfKeyNonempty(items[..n], k);
    forall i | 0 <= i < n
      ensures items[i].key != k
    {
      assert items[..n][i] in parts[p];
      InterleavedHas(w, parts, p, items[i]);
      NoneOfKey(w, k, items[i]);
    }
  }

  /** Whatever attempts run at once and however their writes mix, the table is that of a single run if
      and only if, under every key, the last write was the last transition of its episode. */
  lemma {:induction false} MixedAttemptsExactly(w: seq<Item>, parts: seq<seq<Item>>, items: seq<Item>)
    requires Episodic(items) && Interleaves(w, parts) && Prefixes(parts, items)
    ensures Stored(w) == Stored(items) <==> LastWritten(w, items)
  {
    forall k: Key
      ensures if OfKey(items, k) == [] then OfKey(w, k) == [] else Restarts(OfKey(w, k), OfKey(items, k))
    {
      KeyRestarts(w, parts, items, k);
    }
    MixedWritesExactly(w, items);
  }

  /** One attempt goes on. */
  lemma {:induction false} GoOn(w: seq<Item>, parts: seq<seq<Item>>, p: nat, more: seq<Item>)
    requires Interleaves(w, parts) && p < |parts|
    ensures Interleaves(w + more, parts[p := parts[p] + more])
  {
    if more == [] {
      assert w + more == w && parts[p] + more == parts[p];
      assert parts[p := parts[p] + more] == parts;
    } else {
      var front := more[..|more| - 1];
      GoOn(w, parts, p, front);
      var all, longer := w + more, parts[p := parts[p] + more];
      assert all[..|all| - 1] == w + front;
      assert Shorter(longer, p) == parts[p := parts[p] + front] by {
        assert (parts[p] + more)[..|parts[p] + more| - 1] == parts[p] + front;
      }
      assert LastOf(all, longer, p);
    }
  }

  /** A stalled attempt has written the items before the i-th; another one runs to its end; then
      the stalled one writes its i-th item. */
  ghost function LateWrite(items: seq<Item>, i: nat): seq<Item>
    requires i < |items|
  {
    items[..i] + items + [items[i]]
  }

  lemma LateWriteInterleaves(items: seq<Item>, i: nat)
    requires i < |items|
    ensures Interleaves(LateWrite(items, i), [items[..i + 1], items])
  {
    var first, nothing: seq<Item> := items[..i], [];
    GoOn([], [nothing, nothing], 0, first);
    assert nothing + first == first && [nothing, nothing][0 := first] == [first, nothing];
    GoOn(first, [first, nothing], 1, items);
    assert nothing + items == items && [first, nothing][1 := items] == [first, items];
    GoOn(first + items, [first, items], 0, [items[i]]);
    assert first + [items[i]] == items[..i + 1];
    assert [first, items][0 := items[..i + 1]] == [items[..i + 1], items];
  }

  ghost predicate LastOfKey(items: seq<Item>, x: Item) {
    var own := OfKey(items, x.key);
    own != [] && own[|own| - 1] == x
  }

  /** Such a late write leaves the table alone exactly when it is the last transition of its episode. */
  lemma {:induction false} LateWriteExactly(items: seq<Item>, i: nat)
    requires Episodic(items) && i < |items|
    ensures Stored(LateWrite(items, i)) == Stored(items) <==> LastOfKey(items, items[i])
  {
    var w, x := LateWrite(items, i), items[i];
    LateWriteInterleaves(items, i);
    MixedAttemptsExactly(w, [items[..i + 1], items], items);
    forall k: Key
      ensures OfKey(w, k) == OfKey(items[..i], k) + OfKey(items, k) + (if x.key == k then [x] else [])
    {
      OfKeyAppend(items[..i] + items, [x], k);
      OfKeyAppend(items[..i], items, k);
      OfOne(x, k);
    }
    MembersOfKey(items, x.key, x);
  }

  lemma OfOne(x: Item, k: Key)
    ensures OfKey([x], k) == if x.key == k then [x] else []
  {
    assert [x][..0] == [];
  }

  /** So a start that a superseded attempt writes after the run is complete leaves a trace: the check
      on ownership does not cover events. */
  lemma {:induction false} LateStartLeavesTrace(items: seq<Item>, i: nat)
    requires Episodic(items) && i < |items|
    requires items[i].change.kind == H.Started && |OfKey(items, items[i].key)| == 2
    ensures Interleaves(LateWrite(items, i), [items[..i + 1], items])
    ensures Stored(LateWrite(items, i)) != Stored(items)
  {
    LateWriteInterleaves(items, i);
    LateWriteExactly(items, i);
    OfKeyNonempty(items, items[i].key);
  }

  // ---------------------------------------------------------------- reviews in between

  datatype Op =
    | Persist(item: Item)
    | Decide(key: Key, status: ReviewStatus, at: real, reviewer: string, note: Option<string>)
    | AttachPreview(preview: string)
    | AttachImages(evidence: seq<Evidence>)

  /** An image and the frame it shows. */
  datatype Evidence = Evidence(image: string, frame: nat)

  function Away(e: Evidence, frame: int): nat {
    if e.frame >= frame then e.frame - frame else frame - e.frame
  }

  /** The first of the images nearest to a frame. */
  function Nearest(evidence: seq<Evidence>, frame: int): (r: Evidence)
    requires evidence != []
    ensures r in evidence && forall e | e in evidence :: Away(r, frame) <= Away(e, frame)
  {
    var last := evidence[|evidence| - 1];
    if |evidence| == 1 then last
    else
      var front := evidence[..|evidence| - 1];
      assert evidence == front + [last];
      var best := Nearest(front, frame);
      if Away(last, frame) < Away(best, frame) then last else best
  }

  function Illustrated(e: Event, evidence: seq<Evidence>): Event {
    if evidence == [] then e else e.(image := Some(Nearest(evidence, e.frame).image))
  }

  function Decided(e: Event, status: ReviewStatus, at: real, reviewer: string, note: Option<string>): Event {
    e.(review := status, metadata := e.metadata.(review := Some(Review(status, at, reviewer, note))))
  }

  /** A decision on an unknown event is refused. */
  function Do(events: Events, x: Op): Events {
    match x
    case Persist(item) => PersistOne(events, item)
    case Decide(k, status, at, reviewer, note) =>
      if k in events then events[k := Decided(events[k], status, at, reviewer, note)] else events
    case AttachPreview(preview) => map k | k in events :: events[k].(preview := Some(preview))
    case AttachImages(evidence) => map k | k in events :: Illustrated(events[k], evidence)
  }

  ghost function Done(ops: seq<Op>): Events {
    if ops == [] then map[] else Do(Done(ops[..|ops| - 1]), ops[|ops| - 1])
  }

  function ItemsOf(ops: seq<Op>): seq<Item> {
    if ops == [] then []
    else ItemsOf(ops[..|ops| - 1]) + match ops[|ops| - 1] case Persist(x) => [x] case _ => []
  }

  /** The event without its review, preview and image. */
  function Bare(e: Event): Event {
    e.(review := Pending, preview := None, image := None, metadata := e.metadata.(review := None))
  }

  function BareEvent(e: Option<Event>): Option<Event> {
    match e
    case None => None
    case Some(x) => Some(Bare(x))
  }

  lemma MergeIgnoresReview(m: Metadata, c: Change)
    ensures Merge(m, c).review == m.review
    ensures Merge(m.(review := None), c) == Merge(m, c).(review := None)
  {
    match c.payload
    case LaneViolation(_, _, _, _) =>
    case RedLight(_, _, _, _, _, _, _, _, _) =>
    case WrongWay(_, _, _, _, _, _, _) =>
    case TripleRiding(_, _, _, _) =>
    case NoHelmet(_, _, _, _) =>
  }

  lemma PersistedIgnoresReview(e: Option<Event>, x: Item)
    ensures Bare(Persisted(e, x)) == Persisted(BareEvent(e), x)
    ensures e.Some? ==> Persisted(e, x).review == e.value.review
                        && Persisted(e, x).metadata.review == e.value.metadata.review
                        && Persisted(e, x).preview == e.value.preview && Persisted(e, x).image == e.value.image
    ensures e.None? ==> Persisted(e, x).review == Pending && Persisted(e, x).metadata.review == None
                        && Persisted(e, x).preview == None && Persisted(e, x).image == None
  {
    MergeIgnoresReview(if e.Some? then e.value.metadata else Empty, x.change);
  }

  /** The last decision on a key since its event exists. */
  ghost function LastDecision(ops: seq<Op>, k: Key): Option<Review> {
    if ops == [] then None
    else
      match ops[|ops| - 1]
      case Decide(j, status, at, reviewer, note) =>
        if j == k && k in Done(ops[..|ops| - 1]) then Some(Review(status, at, reviewer, note))
        else LastDecision(ops[..|ops| - 1], k)
      case _ => LastDecision(ops[..|ops| - 1], k)
  }

  ghost predicate Reviewed(e: Event, r: Option<Review>) {
    e.metadata.review == r && e.review == (if r.Some? then r.value.status else Pending)
  }

  /** Whatever is decided and attached in between, an event is the one the transitions alone
      would leave, with the last human decision on it: no later transition changes a decision. */
  lemma {:induction false} DecisionsSurvive(ops: seq<Op>, k: Key)
    ensures BareEvent(Lookup(Done(ops), k)) == Lookup(Stored(ItemsOf(ops)), k)
    ensures k in Done(ops) ==> Reviewed(Done(ops)[k], LastDecision(ops, k))
    ensures k !in Done(ops) ==> LastDecision(ops, k) == None
  {
    if ops != [] {
      var front, last := ops[..|ops| - 1], ops[|ops| - 1];
      DecisionsSurvive(front, k);
      match last
      case Persist(x) =>
        var items := ItemsOf(front);
        assert ItemsOf(ops)[..|items|] == items;
        PersistedIgnoresReview(Lookup(Done(front), x.key), x);
      case Decide(_, _, _, _, _) =>
        assert ItemsOf(ops) == ItemsOf(front);
      case AttachPreview(_) =>
        assert ItemsOf(ops) == ItemsOf(front);
      case AttachImages(_) =>
        assert ItemsOf(ops) == ItemsOf(front);
    }
  }

  /** Retries and decisions together: after any interrupted attempts and a complete one, with
      reviews at any time, every event is that of a single run under its last decision. */
  lemma {:induction false} RetriesKeepDecisions(ops: seq<Op>, items: seq<Item>, cuts: seq<nat>, k: Key)
    requires Episodic(items) && forall i | 0 <= i < |cuts| :: cuts[i] <= |items|
    requires ItemsOf(ops) == Attempts(items, cuts) + items
    ensures BareEvent(Lookup(Done(ops), k)) == Lookup(Stored(items), k)
    ensures k in Done(ops) ==> Reviewed(Done(ops)[k], LastDecision(ops, k))
  {
    RetriesLeaveNoTrace(items, cuts);
    DecisionsSurvive(ops, k);
  }

  // ---------------------------------------------------------------- the object

  /** The events that are not what they were. */
  ghost function Altered(before: Events, after: Events): set<Key> {
    set k | k in before && Lookup(after, k) != Some(before[k])
  }

  /** All but the events still to do are as they shall be. */
  ghost predicate Replaced(before: Events, after: Events, now: Events, todo: set<Key>) {
    && todo <= before.Keys && before.Keys == now.Keys && before.Keys == after.Keys
    && forall k | k in now :: now[k] == if k in todo then before[k] else after[k]
  }

  lemma OneMoreReplaced(before: Events, after: Events, now: Events, todo: set<Key>, k: Key, e: Event)
    requires Replaced(before, after, now, todo) && k in todo && e == after[k]
    ensures Replaced(before, after, now[k := e], todo - {k})
    ensures |Altered(before, after) - (todo - {k})| == |Altered(before, after) - todo| + if e != before[k] then 1 else 0
  {
    var rest := Altered(before, after) - todo;
    if e != before[k] {
      assert Altered(before, after) - (todo - {k}) == rest + {k};
    } else {
      assert Altered(before, after) - (todo - {k}) == rest;
    }
  }

  lemma NoneReplaced(before: Events, after: Events)
    requires before.Keys == after.Keys
    ensures Replaced(before, after, before, before.Keys) && |Altered(before, after) - before.Keys| == 0
  {
    assert Altered(before, after) - before.Keys == {};
  }

  lemma AllReplaced(before: Events, after: Events, now: Events)
    requires Replaced(before, after, now, {})
    ensures now == after && Altered(before, after) - {} == Altered(before, after)
  {
  }

  class ViolationEventStore {
    var events: Events

    constructor ()
      ensures events == map[]
    {
      events := map[];
    }

    /** Creates or updates one event per transition, in order. */
    method PersistTransitions(items: seq<Item>) returns (touched: seq<Event>)
      modifies this
      ensures events == PersistAll(old(events), items)
      ensures |touched| == |items|
      ensures forall i | 0 <= i < |items| :: items[i].key in events
    {
      touched := [];
      for i := 0 to |items|
        invariant events == PersistAll(old(events), items[..i]) && |touched| == i
        invariant forall j | 0 <= j < i :: items[j].key in events
      {
        assert items[..i + 1][..i] == items[..i];
        var x := items[i];
        var event: Event;
        if x.key !in events {
          event := Created(x);
        } else {
          event := events[x.key];
          if event.camera.None? {
            event := event.(camera := x.camera);
          }
          event := event.(metadata := Merge(event.metadata, x.change));
          if x.geometry.Some? {
            event := event.(geometry := x.geometry);
          }
          if x.detection.Some? {
            event := event.(detection := Some(B.Max(OrElse(event.detection, 0.0), x.detection.value)));
          }
          if x.rule.Some? {
            event := event.(rule := Some(B.Max(OrElse(event.rule, 0.0), x.rule.value)));
          }
        }
        events := events[x.key := event];
        touched := touched + [event];
      }
      assert items[..|items|] == items;
    }

    /** False if there is no such event. */
    method ReviewViolation(k: Key, status: ReviewStatus, at: real, reviewer: string, note: Option<string>)
      returns (found: bool)
      modifies this
      ensures found == (k in old(events)) && events == Do(old(events), Decide(k, status, at, reviewer, note))
    {
      found := k in events;
      if found {
        var event := events[k];
        event := event.(metadata := event.metadata.(review := Some(Review(status, at, reviewer, note))));
        event := event.(review := status);
        events := events[k := event];
      }
    }

    method PreviewOne(k: Key, preview: string) returns (changed: nat)
      requires k in events
      modifies this
      ensures var e := old(events)[k].(preview := Some(preview));
        events == old(events)[k := e] && changed == if e != old(events)[k] then 1 else 0
    {
      changed := 0;
      if events[k].preview != Some(preview) {
        events := events[k := events[k].(preview := Some(preview))];
        changed := 1;
      } else {
        assert events == events[k := events[k].(preview := Some(preview))];
      }
    }

    /** Also counts the events that had another preview before. */
    method AttachPreviewToAll(preview: string) returns (changed: nat)
      modifies this
      ensures events == Do(old(events), AttachPreview(preview))
      ensures changed == |Altered(old(events), events)|
    {
      changed := 0;
      var todo := events.Keys;
      ghost var before, after := events, Do(events, AttachPreview(preview));
      NoneReplaced(before, after);
      while todo != {}
        invariant Replaced(before, after, events, todo)
        invariant changed == |Altered(before, after) - todo|
        decreases |todo|
      {
        var k :| k in todo;
        OneMoreReplaced(before, after, events, todo, k, events[k].(preview := Some(preview)));
        var one := PreviewOne(k, preview);
        changed, todo := changed + one, todo - {k};
      }
      AllReplaced(before, after, events);
    }

    method IllustrateOne(k: Key, evidence: seq<Evidence>) returns (changed: nat)
      requires k in events
      modifies this
      ensures var e := Illustrated(old(events)[k], evidence);
        events == old(events)[k := e] && changed == if e != old(events)[k] then 1 else 0
    {
      changed := 0;
      assert events == events[k := events[k]];
      if evidence != [] {
        var nearest := NearestEvidence(evidence, events[k].frame);
        if events[k].image != Some(nearest.image) {
          events := events[k := events[k].(image := Some(nearest.image))];
          changed := 1;
        }
      }
    }

    /** Every event gets the image nearest to its frame, if there is one. */
    method AttachImagesToAll(evidence: seq<Evidence>) returns (changed: nat)
      modifies this
      ensures events == Do(old(events), AttachImages(evidence))
      ensures changed == |Altered(old(events), events)|
    {
      changed := 0;
      var todo := events.Keys;
      ghost var before, after := events, Do(events, AttachImages(evidence));
      NoneReplaced(before, after);
      while todo != {}
        invariant Replaced(before, after, events, todo)
        invariant changed == |Altered(before, after) - todo|
        decreases |todo|
      {
        var k :| k in todo;
        OneMoreReplaced(before, after, events, todo, k, Illustrated(events[k], evidence));
        var one := IllustrateOne(k, evidence);
        changed, todo := changed + one, todo - {k};
      }
      AllReplaced(before, after, events);
    }

    static method NearestEvidence(evidence: seq<Evidence>, frame: int) returns (best: Evidence)
      requires evidence != []
      ensures best == Nearest(evidence, frame)
    {
      best := evidence[0];
      for i := 1 to |evidence|
        invariant best == Nearest(evidence[..i], frame)
      {
        assert evidence[..i + 1][..i] == evidence[..i];
        if Away(evidence[i], frame) < Away(best, frame) {
          best := evidence[i];
        }
      }
      assert evidence[..|evidence|] == evidence;
    }
  }
}
