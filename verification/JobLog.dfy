/** Everything a job reports, frame by frame, and why each stored event is one episode of it. */
module JobLog {
  import opened Collections
  import H = Hysteresis
  import K = EventKeys
  import S = EventStore
  import A = HelmetRider
  import Helmets = NoHelmet
  import L = LaneOccupancy
  import Red = RedLight
  import Riding = TripleRiding
  import Wrong = WrongWay

  datatype Family = TripleRiding | NoHelmet | WrongWay | LaneViolation | RedLight

  /** What the analysis of one frame has to persist. */
  datatype Analysis = Analysis(
    tripleRiding: seq<S.Item>, noHelmet: seq<S.Item>, wrongWay: seq<S.Item>, lane: seq<S.Item>, redLight: seq<S.Item>)

  function Part(f: Family, a: Analysis): seq<S.Item> {
    match f
    case TripleRiding => a.tripleRiding
    case NoHelmet => a.noHelmet
    case WrongWay => a.wrongWay
    case LaneViolation => a.lane
    case RedLight => a.redLight
  }

  /** In the order in which the families are persisted. */
  function Row(a: Analysis): seq<S.Item> {
    a.tripleRiding + a.noHelmet + a.wrongWay + a.lane + a.redLight
  }

  function Log(frames: seq<Analysis>): seq<S.Item> {
    if frames == [] then [] else Log(frames[..|frames| - 1]) + Row(frames[|frames| - 1])
  }

  ghost function PartLog(f: Family, frames: seq<Analysis>): seq<S.Item> {
    if frames == [] then [] else PartLog(f, frames[..|frames| - 1]) + Part(f, frames[|frames| - 1])
  }

  function FamilyOf(id: K.Identity): Family {
    match id
    case WrongWay(_, _, _) => WrongWay
    case TripleRiding(_, _) => TripleRiding
    case NoHelmet(_, _) => NoHelmet
    case LaneViolation(_, _) => LaneViolation
    case RedLight(_, _, _) => RedLight
  }

  /** A key of the family, in this job. */
  ghost predicate KeyIn(key: S.Key, job: string, f: Family) {
    exists id :: K.WellNamed(id) && FamilyOf(id) == f && key == K.KeyOf(job, id)
  }

  ghost predicate KeysIn(items: seq<S.Item>, job: string, f: Family) {
    forall i | 0 <= i < |items| :: KeyIn(items[i].key, job, f)
  }

  // ---------------------------------------------------------------- one family among five

  lemma FamiliesApart(key: S.Key, job: string, f: Family, g: Family)
    requires K.Identifier(job) && KeyIn(key, job, f) && KeyIn(key, job, g)
    ensures f == g
  {
    var a :| K.WellNamed(a) && FamilyOf(a) == f && key == K.KeyOf(job, a);
    var b :| K.WellNamed(b) && FamilyOf(b) == g && key == K.KeyOf(job, b);
    K.KeysDiffer(job, a, job, b);
  }

  lemma ForeignKey(items: seq<S.Item>, key: S.Key, job: string, f: Family, g: Family)
    requires K.Identifier(job) && KeyIn(key, job, f) && KeysIn(items, job, g) && f != g
    ensures S.OfKey(items, key) == []
  {
    S.OfKeyNonempty(items, key);
    forall i | 0 <= i < |items|
      ensures items[i].key != key
    {
      if items[i].key == key { FamiliesApart(key, job, f, g); }
    }
  }

  ghost predicate AllKeysIn(frames: seq<Analysis>, job: string) {
    forall i, f: Family | 0 <= i < |frames| :: KeysIn(Part(f, frames[i]), job, f)
  }

  ghost predicate AnalysisKeysIn(a: Analysis, job: string) {
    forall f: Family :: KeysIn(Part(f, a), job, f)
  }

  lemma RowSplits(a: Analysis, key: S.Key)
    ensures S.OfKey(Row(a), key) == S.OfKey(a.tripleRiding, key) + S.OfKey(a.noHelmet, key) + S.OfKey(a.wrongWay, key)
                                    + S.OfKey(a.lane, key) + S.OfKey(a.redLight, key)
  {
    S.OfKeyAppend(a.tripleRiding, a.noHelmet, key);
    S.OfKeyAppend(a.tripleRiding + a.noHelmet, a.wrongWay, key);
    S.OfKeyAppend(a.tripleRiding + a.noHelmet + a.wrongWay, a.lane, key);
    S.OfKeyAppend(a.tripleRiding + a.noHelmet + a.wrongWay + a.lane, a.redLight, key);
  }

  lemma OnlyOne(a: seq<S.Item>, b: seq<S.Item>, c: seq<S.Item>, d: seq<S.Item>, e: seq<S.Item>)
    ensures b == c == d == e == [] ==> a + b + c + d + e == a
    ensures a == c == d == e == [] ==> a + b + c + d + e == b
    ensures a == b == d == e == [] ==> a + b + c + d + e == c
    ensures a == b == c == e == [] ==> a + b + c + d + e == d
    ensures a == b == c == d == [] ==> a + b + c + d + e == e
  {
  }

  lemma RowOfKey(a: Analysis, key: S.Key, job: string, f: Family)
    requires K.Identifier(job) && KeyIn(key, job, f) && AnalysisKeysIn(a, job)
    ensures S.OfKey(Row(a), key) == S.OfKey(Part(f, a), key)
  {
    RowSplits(a, key);
    OtherPart(a, key, job, f, TripleRiding);
    OtherPart(a, key, job, f, NoHelmet);
    OtherPart(a, key, job, f, WrongWay);
    OtherPart(a, key, job, f, LaneViolation);
    OtherPart(a, key, job, f, RedLight);
    OnlyOne(S.OfKey(a.tripleRiding, key), S.OfKey(a.noHelmet, key), S.OfKey(a.wrongWay, key), S.OfKey(a.lane, key),
      S.OfKey(a.redLight, key));
  }

  lemma OtherPart(a: Analysis, key: S.Key, job: string, f: Family, g: Family)
    requires K.Identifier(job) && KeyIn(key, job, f) && AnalysisKeysIn(a, job)
    ensures f != g ==> S.OfKey(Part(g, a), key) == []
  {
    if f != g { ForeignKey(Part(g, a), key, job, f, g); }
  }

  /** In the whole log, a key sees the transitions of its own family only, in their order. */
  lemma {:induction false} LogOfKey(frames: seq<Analysis>, key: S.Key, job: string, f: Family)
    requires K.Identifier(job) && KeyIn(key, job, f) && AllKeysIn(frames, job)
    ensures S.OfKey(Log(frames), key) == S.OfKey(PartLog(f, frames), key)
  {
    if frames != [] {
      var front, last := frames[..|frames| - 1], frames[|frames| - 1];
      assert AllKeysIn(front, job);
      assert AnalysisKeysIn(last, job);
      LogOfKey(front, key, job, f);
      RowOfKey(last, key, job, f);
      S.OfKeyAppend(Log(front), Row(last), key);
      S.OfKeyAppend(PartLog(f, front), Part(f, last), key);
    }
  }

  lemma {:induction false} LogFamily(frames: seq<Analysis>, i: nat, job: string) returns (f: Family)
    requires AllKeysIn(frames, job) && i < |Log(frames)|
    ensures KeyIn(Log(frames)[i].key, job, f)
  {
    var front, last := frames[..|frames| - 1], frames[|frames| - 1];
    if i < |Log(front)| {
      f := LogFamily(front, i, job);
    } else {
      assert AnalysisKeysIn(last, job);
      f := RowFamily(last, i - |Log(front)|, job);
    }
  }

  lemma RowFamily(a: Analysis, i: nat, job: string) returns (f: Family)
    requires AnalysisKeysIn(a, job) && i < |Row(a)|
    ensures KeyIn(Row(a)[i].key, job, f)
  {
    assert KeysIn(Part(TripleRiding, a), job, TripleRiding) && KeysIn(Part(NoHelmet, a), job, NoHelmet);
    assert KeysIn(Part(WrongWay, a), job, WrongWay) && KeysIn(Part(LaneViolation, a), job, LaneViolation);
    assert KeysIn(Part(RedLight, a), job, RedLight);
    var ends1 := |a.tripleRiding|;
    var ends2 := ends1 + |a.noHelmet|;
    var ends3 := ends2 + |a.wrongWay|;
    var ends4 := ends3 + |a.lane|;
    f := if i < ends1 then TripleRiding else if i < ends2 then NoHelmet else if i < ends3 then WrongWay
         else if i < ends4 then LaneViolation else RedLight;
  }

  /** If every family reports one episode per key, so does the job. */
  lemma {:induction false} LogEpisodic(frames: seq<Analysis>, job: string)
    requires K.Identifier(job) && AllKeysIn(frames, job)
    requires forall f: Family :: S.Episodic(PartLog(f, frames))
    ensures S.Episodic(Log(frames))
  {
    forall key | exists i :: 0 <= i < |Log(frames)| && Log(frames)[i].key == key
      ensures S.OneEpisode(S.OfKey(Log(frames), key))
    {
      var i :| 0 <= i < |Log(frames)| && Log(frames)[i].key == key;
      var f := LogFamily(frames, i, job);
      LogOfKey(frames, key, job, f);
      S.OfKeyNonempty(Log(frames), key);
      S.OfKeyNonempty(PartLog(f, frames), key);
    }
  }

  // ---------------------------------------------------------------- a detector's share

  /** How a family names the episode of a detector key that was confirmed at a frame. */
  type Naming<!Key> = (Key, nat) -> K.Identity

  ghost predicate Names<Key(!new)>(naming: Naming<Key>, f: Family) {
    && (forall k, a :: FamilyOf(naming(k, a)) == f)
    && (forall k, a, k', a' :: naming(k, a) == naming(k', a') ==> k == k' && a == a')
  }

  /** The payload is about the episode's own objects. */
  predicate About(p: S.Payload, id: K.Identity) {
    match id
    case WrongWay(track, lane, _) => p.WrongWay? && p.track == track && p.lane == lane
    case TripleRiding(motorcycle, _) => p.TripleRiding? && p.motorcycle == motorcycle
    case NoHelmet(person, _) => p.NoHelmet? && p.person == person
    case LaneViolation(_, _) => p.LaneViolation?
    case RedLight(track, stopLine, _) => p.RedLight? && p.track == track && p.stopLine == stopLine
  }

  /** What is persisted of a transition. */
  ghost predicate Describes<Key, D>(x: S.Item, t: H.Transition<Key, D>, job: string, camera: Option<int>,
                                    naming: Naming<Key>) {
    && x.change.kind == t.kind && x.change.frame == t.at.frame && x.change.time == t.at.time
    && x.change.firstCandidate == t.firstFrame && x.change.confirmed == t.confirmedFrame
    && x.change.duration == t.duration
    && x.camera == camera && S.Confident(x)
    && (K.Anchor(t) >= 0 ==>
          var id := naming(t.key, K.Anchor(t));
          K.WellNamed(id) && About(x.change.payload, id) && x.key == K.KeyOf(job, id))
  }

  ghost predicate DescribesAll<Key, D>(items: seq<S.Item>, ts: seq<H.Transition<Key, D>>, job: string,
                                       camera: Option<int>, naming: Naming<Key>) {
    |items| == |ts| && forall i | 0 <= i < |ts| :: Describes(items[i], ts[i], job, camera, naming)
  }

  /** The transitions of the episode confirmed at a frame. */
  ghost function Pick<Key, D>(ts: seq<H.Transition<Key, D>>, anchor: int): seq<H.Transition<Key, D>> {
    if ts == [] then []
    else
      var front, last := Pick(ts[..|ts| - 1], anchor), ts[|ts| - 1];
      if K.Anchor(last) == anchor then front + [last] else front
  }

  lemma {:induction false} PickAppend<Key, D>(a: seq<H.Transition<Key, D>>, b: seq<H.Transition<Key, D>>, anchor: int)
    ensures Pick(a + b, anchor) == Pick(a, anchor) + Pick(b, anchor)
  {
    if b == [] {
      assert a + b == a;
    } else {
      assert (a + b)[..|a + b| - 1] == a + b[..|b| - 1];
      PickAppend(a, b[..|b| - 1], anchor);
    }
  }

  ghost predicate AnchorsPositive<Key, D>(ts: seq<H.Transition<Key, D>>) {
    forall i | 0 <= i < |ts| :: K.Anchor(ts[i]) > 0
  }

  /** The items under one event key describe the transitions of one detector key that name one frame. */
  lemma {:induction false} ItemsOfEpisode<Key(!new), D>(items: seq<S.Item>, ts: seq<H.Transition<Key, D>>, job: string,
                                                        camera: Option<int>, naming: Naming<Key>, f: Family, k: Key,
                                                        anchor: nat)
    requires K.Identifier(job) && Names(naming, f)
    requires DescribesAll(items, ts, job, camera, naming) && AnchorsPositive(ts)
    requires K.WellNamed(naming(k, anchor))
    ensures DescribesAll(S.OfKey(items, K.KeyOf(job, naming(k, anchor))), Pick(H.OfKey(ts, k), anchor), job, camera,
      naming)
  {
    if ts != [] {
      var x, t := items[|items| - 1], ts[|ts| - 1];
      ItemsOfEpisode(items[..|items| - 1], ts[..|ts| - 1], job, camera, naming, f, k, anchor);
      assert Describes(x, t, job, camera, naming);
      SameName(x, t, job, camera, naming, f, k, anchor);
      PickLast(ts, k, anchor);
    }
  }

  /** An item has the event key exactly when its transition is of the key and names the frame. */
  lemma SameName<Key(!new), D>(x: S.Item, t: H.Transition<Key, D>, job: string, camera: Option<int>,
                               naming: Naming<Key>, f: Family, k: Key, anchor: nat)
    requires K.Identifier(job) && Names(naming, f) && Describes(x, t, job, camera, naming) && K.Anchor(t) > 0
    requires K.WellNamed(naming(k, anchor))
    ensures x.key == K.KeyOf(job, naming(k, anchor)) <==> t.key == k && K.Anchor(t) == anchor
  {
    K.KeysDiffer(job, naming(t.key, K.Anchor(t)), job, naming(k, anchor));
  }

  lemma PickLast<Key, D>(ts: seq<H.Transition<Key, D>>, k: Key, anchor: int)
    requires ts != []
    ensures var front, t := ts[..|ts| - 1], ts[|ts| - 1];
      Pick(H.OfKey(ts, k), anchor)
      == Pick(H.OfKey(front, k), anchor) + if t.key == k && K.Anchor(t) == anchor then [t] else []
  {
    var own := H.OfKey(ts[..|ts| - 1], k);
    assert (own + [ts[|ts| - 1]])[..|own|] == own;
  }

  /** Nothing before an episode names its frame. */
  lemma FramesBefore<Key, D>(front: seq<H.Transition<Key, D>>, s: H.Transition<Key, D>)
    requires H.Paired(front)
    requires forall i | 0 <= i < |front| && front[i].kind == H.Started :: 0 < front[i].at.frame < s.at.frame
    ensures Pick(front, s.at.frame) == []
  {
    forall i | 0 <= i < |front|
      ensures K.Anchor(front[i]) != s.at.frame
    {
      var b := K.ConfirmedByStart(front, i);
    }
    PickNone(front, s.at.frame);
  }

  ghost predicate PositiveStarts<Key, D>(ts: seq<H.Transition<Key, D>>) {
    forall i | 0 <= i < |ts| && ts[i].kind == H.Started :: ts[i].at.frame > 0
  }

  ghost predicate IsEpisode<Key, D>(p: seq<H.Transition<Key, D>>) {
    p == [] || (|p| == 2 && H.SameEpisode(p[0], p[1]))
  }

  /** Among paired transitions with increasing starts, at most one start and its end name a frame. */
  lemma {:induction false} PickIsEpisode<Key, D>(ts: seq<H.Transition<Key, D>>, anchor: int)
    requires H.Paired(ts) && K.StartsIncrease(ts) && PositiveStarts(ts)
    ensures IsEpisode(Pick(ts, anchor))
  {
    if ts != [] {
      var n := |ts| - 2;
      PickIsEpisode(ts[..n], anchor);
      LastEpisode(ts[..n], ts[n], ts[n + 1], anchor);
      assert ts == ts[..n] + [ts[n], ts[n + 1]];
    }
  }

  lemma LastEpisode<Key, D>(front: seq<H.Transition<Key, D>>, s: H.Transition<Key, D>, e: H.Transition<Key, D>,
                            anchor: int)
    requires H.Paired(front) && H.SameEpisode(s, e) && s.at.frame > 0
    requires forall i | 0 <= i < |front| && front[i].kind == H.Started :: 0 < front[i].at.frame < s.at.frame
    requires IsEpisode(Pick(front, anchor))
    ensures IsEpisode(Pick(front + [s, e], anchor))
  {
    PickAppend(front, [s, e], anchor);
    PickTwo(s, e, anchor);
    FramesBefore(front, s);
  }

  lemma PickTwo<Key, D>(s: H.Transition<Key, D>, e: H.Transition<Key, D>, anchor: int)
    requires K.Anchor(s) == K.Anchor(e)
    ensures Pick([s, e], anchor) == if K.Anchor(s) == anchor then [s, e] else []
  {
    assert [s, e][..1] == [s] && [s][..0] == [];
    assert Pick([s], anchor) == if K.Anchor(s) == anchor then [s] else [];
  }

  lemma {:induction false} PickNone<Key, D>(ts: seq<H.Transition<Key, D>>, anchor: int)
    requires forall i | 0 <= i < |ts| :: K.Anchor(ts[i]) != anchor
    ensures Pick(ts, anchor) == []
  {
    if ts != [] { PickNone(ts[..|ts| - 1], anchor); }
  }

  /** A flushed run of a detector: every key has its own transitions, in the order of its history. */
  ghost predicate Ran<Key(!new), O, D>(ts: seq<H.Transition<Key, D>>, histories: Key -> seq<H.Sample<O>>,
                                       r: H.Rules<O, D>, end: H.Moment) {
    forall k ::
      && H.OfKey(ts, k) == H.TransitionsAfter(k, histories(k), r) + H.Flushed(k, H.EntryAfter(histories(k), r), end)
      && H.Chronological(histories(k)) && forall n | 0 <= n < |histories(k)| :: histories(k)[n].at.frame > 0
  }

  ghost predicate InOrder<Key, O>(rounds: seq<H.Round<Key, O>>) {
    && (forall i, j | 0 <= i < j < |rounds| :: rounds[i].at.frame < rounds[j].at.frame)
    && forall i | 0 <= i < |rounds| :: rounds[i].at.frame > 0
  }

  ghost function Histories<Key(!new), O>(rounds: seq<H.Round<Key, O>>): Key -> seq<H.Sample<O>> {
    (k: Key) => H.HistoryOf(rounds, k)
  }

  /** The frames of a detector and its flush at the end make such a run. */
  lemma FramesAndFlush<Key(!new), O, D>(rounds: seq<H.Round<Key, O>>, r: H.Rules<O, D>,
                                        states: seq<map<Key, H.Entry<D>>>, outs: seq<seq<H.Transition<Key, D>>>,
                                        flushed: seq<H.Transition<Key, D>>, end: H.Moment)
    requires H.Runs(rounds, r, states, outs) && InOrder(rounds)
    requires forall k :: H.OfKey(flushed, k) == H.Flushed(k, Lookup(states[|rounds|], k), end)
    ensures Ran(H.Concat(outs) + flushed, Histories(rounds), r, end)
  {
    forall k
      ensures H.OfKey(H.Concat(outs) + flushed, k)
           == H.TransitionsAfter(k, H.HistoryOf(rounds, k), r)
             + H.Flushed(k, H.EntryAfter(H.HistoryOf(rounds, k), r), end)
    {
      H.KeyRunsAlone(rounds, r, states, outs, k);
      H.OfKeyAppend(H.Concat(outs), flushed, k);
    }
  }

  lemma {:induction false} OwnKeyHas<Key, D>(ts: seq<H.Transition<Key, D>>, i: nat)
    requires i < |ts|
    ensures ts[i] in H.OfKey(ts, ts[i].key)
  {
    var front := ts[..|ts| - 1];
    if i < |front| {
      OwnKeyHas(front, i);
    }
  }

  /** What one key's transitions are like in a flushed run. */
  lemma KeyIsPaired<Key(!new), O, D>(k: Key, h: seq<H.Sample<O>>, r: H.Rules<O, D>, end: H.Moment)
    requires H.Chronological(h) && forall n | 0 <= n < |h| :: h[n].at.frame > 0
    ensures var own := H.TransitionsAfter(k, h, r) + H.Flushed(k, H.EntryAfter(h, r), end);
      && H.Paired(own) && K.StartsIncrease(own) && AnchorsPositive(own)
      && PositiveStarts(own)
  {
    var own := H.TransitionsAfter(k, h, r) + H.Flushed(k, H.EntryAfter(h, r), end);
    var last := if h == [] then 0 else h[|h| - 1].at.frame;
    H.TransitionFramesIncrease(k, h, r, last);
    H.FlushBalances(k, h, end, r);
    K.NoStartAtEnd(k, h, r, end, last);
    K.StartsPositive(k, h, r);
    forall i | 0 <= i < |own|
      ensures K.Anchor(own[i]) > 0
    {
      var s := K.ConfirmedByStart(own, i);
    }
  }

  lemma RunAnchors<Key(!new), O, D>(ts: seq<H.Transition<Key, D>>, histories: Key -> seq<H.Sample<O>>, r: H.Rules<O, D>,
                                    end: H.Moment)
    requires Ran(ts, histories, r, end)
    ensures AnchorsPositive(ts)
  {
    forall i | 0 <= i < |ts|
      ensures K.Anchor(ts[i]) > 0
    {
      var k := ts[i].key;
      OwnKeyHas(ts, i);
      KeyIsPaired(k, histories(k), r, end);
      var own := H.OfKey(ts, k);
      var j :| 0 <= j < |own| && own[j] == ts[i];
    }
  }

  /** The items of a detector's run: every event key is one episode, and a key of its family. */
  lemma {:induction false} DetectorEpisodic<Key(!new), O, D>(items: seq<S.Item>, ts: seq<H.Transition<Key, D>>,
        histories: Key -> seq<H.Sample<O>>, r: H.Rules<O, D>, end: H.Moment, job: string, camera: Option<int>,
        naming: Naming<Key>, f: Family)
    requires K.Identifier(job) && Names(naming, f)
    requires Ran(ts, histories, r, end) && DescribesAll(items, ts, job, camera, naming)
    ensures S.Episodic(items) && KeysIn(items, job, f)
  {
    RunAnchors(ts, histories, r, end);
    forall i | 0 <= i < |items|
      ensures KeyIn(items[i].key, job, f) && S.OneEpisode(S.OfKey(items, items[i].key))
    {
      assert Describes(items[i], ts[i], job, camera, naming);
      var k, anchor := ts[i].key, K.Anchor(ts[i]);
      assert FamilyOf(naming(k, anchor)) == f;
      KeyIsPaired(k, histories(k), r, end);
      S.OfKeyNonempty(items, items[i].key);
      EpisodeOfKey(items, ts, job, camera, naming, f, k, anchor);
    }
  }

  lemma EpisodeOfKey<Key(!new), D>(items: seq<S.Item>, ts: seq<H.Transition<Key, D>>, job: string, camera: Option<int>,
                                   naming: Naming<Key>, f: Family, k: Key, anchor: nat)
    requires K.Identifier(job) && Names(naming, f)
    requires DescribesAll(items, ts, job, camera, naming) && AnchorsPositive(ts)
    requires K.WellNamed(naming(k, anchor)) && anchor > 0
    requires var own := H.OfKey(ts, k);
      && H.Paired(own) && K.StartsIncrease(own)
      && PositiveStarts(own)
    requires S.OfKey(items, K.KeyOf(job, naming(k, anchor))) != []
    ensures S.OneEpisode(S.OfKey(items, K.KeyOf(job, naming(k, anchor))))
  {
    ItemsOfEpisode(items, ts, job, camera, naming, f, k, anchor);
    PickIsEpisode(H.OfKey(ts, k), anchor);
    PickAnchors(H.OfKey(ts, k), anchor);
    EpisodeDescribed(S.OfKey(items, K.KeyOf(job, naming(k, anchor))), Pick(H.OfKey(ts, k), anchor), job, camera, naming,
      f);
  }

  lemma {:induction false} PickAnchors<Key, D>(ts: seq<H.Transition<Key, D>>, anchor: int)
    ensures forall i | 0 <= i < |Pick(ts, anchor)| :: K.Anchor(Pick(ts, anchor)[i]) == anchor
  {
    if ts != [] { PickAnchors(ts[..|ts| - 1], anchor); }
  }

  lemma EpisodeDescribed<Key(!new), D>(w: seq<S.Item>, p: seq<H.Transition<Key, D>>, job: string, camera: Option<int>,
                                       naming: Naming<Key>, f: Family)
    requires DescribesAll(w, p, job, camera, naming) && Names(naming, f)
    requires w != [] && (p == [] || (|p| == 2 && H.SameEpisode(p[0], p[1])))
    requires forall i | 0 <= i < |p| :: K.Anchor(p[i]) > 0
    ensures S.OneEpisode(w)
  {
    var s, e := w[0], w[1];
    assert Describes(s, p[0], job, camera, naming) && Describes(e, p[1], job, camera, naming);
    assert K.Anchor(p[0]) == K.Anchor(p[1]);
  }

  // ---------------------------------------------------------------- the share of red lights

  /** What is persisted of a crossing on red. */
  ghost predicate Depicts(x: S.Item, c: Red.Crossing, job: string, camera: Option<int>) {
    && x.change.kind == H.Started && x.change.frame == c.at.frame && x.change.time == c.at.time
    && x.camera == camera && S.Confident(x)
    && (c.at.frame >= 0 ==>
          var id := K.RedLight(c.key.track, c.key.line, c.at.frame);
          K.WellNamed(id) && About(x.change.payload, id) && x.key == K.KeyOf(job, id))
  }

  lemma {:induction false} OwnItemAlone(items: seq<S.Item>, i: nat)
    requires i < |items| && forall j, k | 0 <= j < k < |items| :: items[j].key != items[k].key
    ensures S.OfKey(items, items[i].key) == [items[i]]
  {
    var front := items[..|items| - 1];
    if i < |front| {
      OwnItemAlone(front, i);
    } else {
      S.OfKeyNonempty(front, items[i].key);
    }
  }

  lemma {:induction false} RedLightEpisodic(items: seq<S.Item>, cs: seq<Red.Crossing>, last: int, job: string,
                                            camera: Option<int>)
    requires K.Identifier(job) && Red.NoneTwice(cs) && Red.UpTo(cs, last)
    requires |items| == |cs| && forall i | 0 <= i < |cs| :: Depicts(items[i], cs[i], job, camera)
    ensures S.Episodic(items) && KeysIn(items, job, RedLight)
  {
    forall i, j | 0 <= i < j < |items|
      ensures items[i].key != items[j].key
    {
      K.KeysDiffer(job, K.RedLight(cs[i].key.track, cs[i].key.line, cs[i].at.frame),
                   job, K.RedLight(cs[j].key.track, cs[j].key.line, cs[j].at.frame));
    }
    forall i | 0 <= i < |items|
      ensures KeyIn(items[i].key, job, RedLight) && S.OneEpisode(S.OfKey(items, items[i].key))
    {
      OwnItemAlone(items, i);
      assert FamilyOf(K.RedLight(cs[i].key.track, cs[i].key.line, cs[i].at.frame)) == RedLight;
    }
  }

  // ---------------------------------------------------------------- the whole job

  function TripleRidingNaming(): Naming<nat> {
    (motorcycle: nat, anchor: nat) => K.TripleRiding(motorcycle, anchor)
  }

  function NoHelmetNaming(): Naming<nat> {
    (person: nat, anchor: nat) => K.NoHelmet(person, anchor)
  }

  function WrongWayNaming(): Naming<Wrong.Key> {
    (k: Wrong.Key, anchor: nat) => K.WrongWay(k.track, k.lane, anchor)
  }

  function LaneNaming(): Naming<nat> {
    (track: nat, anchor: nat) => K.LaneViolation(track, anchor)
  }

  /** The items describe some flushed run of a detector. */
  ghost predicate FromDetector<Key(!new), O(!new), D(!new)>(
    items: seq<S.Item>, r: H.Rules<O, D>, job: string, camera: Option<int>, naming: Naming<Key>)
  {
    exists ts: seq<H.Transition<Key, D>>, histories: Key -> seq<H.Sample<O>>, end ::
      Ran(ts, histories, r, end) && DescribesAll(items, ts, job, camera, naming)
  }

  /** The items depict the crossings of some run of the red-light detector. */
  ghost predicate FromCrossings(items: seq<S.Item>, job: string, camera: Option<int>) {
    exists cs, last ::
      && Red.NoneTwice(cs) && Red.UpTo(cs, last)
      && |items| == |cs| && forall i | 0 <= i < |cs| :: Depicts(items[i], cs[i], job, camera)
  }

  datatype Detectors = Detectors(
    tripleRiding: H.Rules<Riding.Group, Riding.Data>, noHelmet: H.Rules<A.Candidate, Helmets.Data>,
    wrongWay: H.Rules<Wrong.Observation, Wrong.Observation>, lane: H.Rules<L.Observation, L.Observation>)

  /** All five families of a job come from its detectors. */
  ghost predicate FromDetectors(frames: seq<Analysis>, d: Detectors, job: string, camera: Option<int>) {
    && FromDetector(PartLog(TripleRiding, frames), d.tripleRiding, job, camera, TripleRidingNaming())
    && FromDetector(PartLog(NoHelmet, frames), d.noHelmet, job, camera, NoHelmetNaming())
    && FromDetector(PartLog(WrongWay, frames), d.wrongWay, job, camera, WrongWayNaming())
    && FromDetector(PartLog(LaneViolation, frames), d.lane, job, camera, LaneNaming())
    && FromCrossings(PartLog(RedLight, frames), job, camera)
  }

  lemma FromDetectorEpisodic<Key(!new), O(!new), D(!new)>(
    items: seq<S.Item>, r: H.Rules<O, D>, job: string, camera: Option<int>, naming: Naming<Key>, f: Family)
    requires K.Identifier(job) && Names(naming, f) && FromDetector(items, r, job, camera, naming)
    ensures S.Episodic(items) && KeysIn(items, job, f)
  {
    var ts: seq<H.Transition<Key, D>>, histories: Key -> seq<H.Sample<O>>, end :|
      Ran(ts, histories, r, end) && DescribesAll(items, ts, job, camera, naming);
    DetectorEpisodic(items, ts, histories, r, end, job, camera, naming, f);
  }

  lemma FamilyEpisodic(frames: seq<Analysis>, d: Detectors, job: string, camera: Option<int>, f: Family)
    requires K.Identifier(job) && FromDetectors(frames, d, job, camera)
    ensures S.Episodic(PartLog(f, frames)) && KeysIn(PartLog(f, frames), job, f)
  {
    match f
    case TripleRiding => FromDetectorEpisodic(PartLog(f, frames), d.tripleRiding, job, camera, TripleRidingNaming(), f);
    case NoHelmet => FromDetectorEpisodic(PartLog(f, frames), d.noHelmet, job, camera, NoHelmetNaming(), f);
    case WrongWay => FromDetectorEpisodic(PartLog(f, frames), d.wrongWay, job, camera, WrongWayNaming(), f);
    case LaneViolation => FromDetectorEpisodic(PartLog(f, frames), d.lane, job, camera, LaneNaming(), f);
    case RedLight =>
      var items := PartLog(f, frames);
      var cs, last :|
        && Red.NoneTwice(cs) && Red.UpTo(cs, last)
        && |items| == |cs| && forall i | 0 <= i < |cs| :: Depicts(items[i], cs[i], job, camera);
      RedLightEpisodic(items, cs, last, job, camera);
  }

  lemma KeysSplit(a: seq<S.Item>, b: seq<S.Item>, job: string, f: Family)
    requires KeysIn(a + b, job, f)
    ensures KeysIn(a, job, f) && KeysIn(b, job, f)
  {
    forall i | 0 <= i < |a| ensures KeyIn(a[i].key, job, f) { assert (a + b)[i] == a[i]; }
    forall i | 0 <= i < |b| ensures KeyIn(b[i].key, job, f) { assert (a + b)[|a| + i] == b[i]; }
  }

  lemma {:induction false} PartKeys(frames: seq<Analysis>, job: string, f: Family, i: nat)
    requires KeysIn(PartLog(f, frames), job, f) && i < |frames|
    ensures KeysIn(Part(f, frames[i]), job, f)
  {
    var front, last := frames[..|frames| - 1], frames[|frames| - 1];
    KeysSplit(PartLog(f, front), Part(f, last), job, f);
    if i < |front| { PartKeys(front, job, f, i); }
  }

  /** Whatever is observed, everything a job persists under one key is one episode. */
  lemma {:induction false} JobEpisodic(frames: seq<Analysis>, d: Detectors, job: string, camera: Option<int>)
    requires K.Identifier(job) && FromDetectors(frames, d, job, camera)
    ensures S.Episodic(Log(frames))
  {
    forall f: Family
      ensures S.Episodic(PartLog(f, frames)) && KeysIn(PartLog(f, frames), job, f)
    {
      FamilyEpisodic(frames, d, job, camera, f);
    }
    forall i, f: Family | 0 <= i < |frames|
      ensures KeysIn(Part(f, frames[i]), job, f)
    {
      PartKeys(frames, job, f, i);
    }
    LogEpisodic(frames, job);
  }

  /** From the frames to the table: any interrupted attempts at a job, then a complete one, leave
      exactly the events of the complete one. */
  lemma JobRetriesLeaveNoTrace(frames: seq<Analysis>, d: Detectors, job: string, camera: Option<int>, cuts: seq<nat>)
    requires K.Identifier(job) && FromDetectors(frames, d, job, camera)
    requires forall i | 0 <= i < |cuts| :: cuts[i] <= |Log(frames)|
    ensures S.Stored(S.Attempts(Log(frames), cuts) + Log(frames)) == S.Stored(Log(frames))
  {
    JobEpisodic(frames, d, job, camera);
    S.RetriesLeaveNoTrace(Log(frames), cuts);
  }
}
