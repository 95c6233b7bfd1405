/** The temporal rule that all four violation detectors follow, for every key of its own:
    a violation starts once a key has been a candidate for `confirmation` frames in a row, and
    ends once it has been missing for more than `tolerance` frames in a row. */
module Hysteresis {
  import opened Collections
  import B = Boxes

  datatype Moment = Moment(frame: int, time: real)

  /** What a detector adds to the common rule: how observations build up its own data, and
      whether an unconfirmed candidate forgets its first frame after a gap. */
  datatype Rules<!O, !D> = Rules(
    confirmation: nat, tolerance: nat,
    begin: O -> D, merge: (D, O) -> D,
    restarts: bool)

  datatype Entry<+D> = Entry(
    data: D, first: Moment, confirmedAt: Option<Moment>, last: Moment,
    consecutive: nat, missed: nat, observed: bool)

  datatype Kind = Started | Ended

  datatype Transition<+K, +D> = Transition(
    kind: Kind, key: K, data: D, at: Moment,
    firstFrame: int, confirmedFrame: Option<int>, duration: real)

  // ---------------------------------------------------------------- one key, one frame

  function Opened<O, D>(o: O, at: Moment, r: Rules<O, D>): Entry<D> {
    Entry(r.begin(o), at, None, at, 1, 0, true)
  }

  function Seen<O, D>(e: Entry<D>, o: O, at: Moment, r: Rules<O, D>): Entry<D> {
    var restart := r.restarts && e.missed > 0 && e.confirmedAt.None?;
    Entry(r.merge(e.data, o), if restart then at else e.first, e.confirmedAt, at,
          if restart then 1 else e.consecutive + 1, 0, true)
  }

  predicate Due<O, D>(e: Entry<D>, r: Rules<O, D>) {
    e.confirmedAt.None? && e.consecutive >= r.confirmation
  }

  function ConfirmedIfDue<O, D>(e: Entry<D>, at: Moment, r: Rules<O, D>): Entry<D> {
    if Due(e, r) then e.(confirmedAt := Some(at)) else e
  }

  function Unseen<D>(e: Entry<D>): Entry<D> {
    e.(observed := false, missed := e.missed + 1, consecutive := 0)
  }

  function OpenedOrSeen<O, D>(e: Option<Entry<D>>, o: O, at: Moment, r: Rules<O, D>): Entry<D> {
    match e
    case None => Opened(o, at, r)
    case Some(old_) => Seen(old_, o, at, r)
  }

  function Missed<D>(e: Option<Entry<D>>, tolerance: nat): Option<Entry<D>> {
    if e.None? || e.value.missed + 1 > tolerance then None else Some(Unseen(e.value))
  }

  function Advance<O, D>(e: Option<Entry<D>>, o: Option<O>, at: Moment, r: Rules<O, D>): Option<Entry<D>> {
    match o
    case Some(x) => Some(ConfirmedIfDue(OpenedOrSeen(e, x, at, r), at, r))
    case None => Missed(e, r.tolerance)
  }

  function Frame(m: Option<Moment>): Option<int> {
    match m
    case None => None
    case Some(x) => Some(x.frame)
  }

  function Report<K, D>(kind: Kind, k: K, e: Entry<D>, at: Moment): Transition<K, D> {
    var duration := if e.confirmedAt.None? then 0.0 else B.Max(at.time - e.confirmedAt.value.time, 0.0);
    Transition(kind, k, e.data, at, e.first.frame, Frame(e.confirmedAt), duration)
  }

  function Ending<K, D>(k: K, e: Option<Entry<D>>, at: Moment, tolerance: nat): seq<Transition<K, D>> {
    if e.None? || e.value.missed + 1 <= tolerance || e.value.confirmedAt.None? then []
    else [Report(Ended, k, Unseen(e.value), at)]
  }

  function Emitted<K, O, D>(k: K, e: Option<Entry<D>>, o: Option<O>, at: Moment, r: Rules<O, D>)
    : seq<Transition<K, D>>
  {
    match o
    case Some(x) =>
      var seen := OpenedOrSeen(e, x, at, r);
      if Due(seen, r) then [Report(Started, k, ConfirmedIfDue(seen, at, r), at)] else []
    case None => Ending(k, e, at, r.tolerance)
  }

  function Flushed<K, D>(k: K, e: Option<Entry<D>>, at: Moment): seq<Transition<K, D>> {
    if e.None? || e.value.confirmedAt.None? then [] else [Report(Ended, k, e.value, at)]
  }

  // ---------------------------------------------------------------- one key, its whole history

  datatype Sample<+O> = Sample(at: Moment, seen: Option<O>)

  ghost function EntryAfter<O, D>(h: seq<Sample<O>>, r: Rules<O, D>): Option<Entry<D>> {
    if h == [] then None
    else
      var last := h[|h| - 1];
      Advance(EntryAfter(h[..|h| - 1], r), last.seen, last.at, r)
  }

  ghost function TransitionsAfter<K, O, D>(k: K, h: seq<Sample<O>>, r: Rules<O, D>): seq<Transition<K, D>> {
    if h == [] then []
    else
      var front, last := h[..|h| - 1], h[|h| - 1];
      TransitionsAfter(k, front, r) + Emitted(k, EntryAfter(front, r), last.seen, last.at, r)
  }

  /** How many frames in a row, up to the last one, the key was a candidate. */
  ghost function Streak<O>(h: seq<Sample<O>>): nat {
    if h == [] || h[|h| - 1].seen.None? then 0 else Streak(h[..|h| - 1]) + 1
  }

  /** How many frames in a row, up to the last one, it was not. */
  ghost function Misses<O>(h: seq<Sample<O>>): nat {
    if h == [] || h[|h| - 1].seen.Some? then 0 else Misses(h[..|h| - 1]) + 1
  }

  /** The specification: at some moment the key had been a candidate `confirmation` times in a
      row, and at no moment since then has it been missing more than `tolerance` times in a row. */
  ghost predicate Active<O>(h: seq<Sample<O>>, confirmation: nat, tolerance: nat) {
    exists i | 0 <= i <= |h| :: Holding(h, i, confirmation, tolerance)
  }

  ghost predicate Holding<O>(h: seq<Sample<O>>, i: nat, confirmation: nat, tolerance: nat)
    requires i <= |h|
  {
    && Streak(h[..i]) >= confirmation
    && forall j | i <= j <= |h| :: Misses(h[..j]) <= tolerance
  }

  /** A streak is a window of candidate frames. */
  lemma {:induction false} StreakIsWindow<O>(h: seq<Sample<O>>, n: nat)
    ensures Streak(h) >= n <==> n <= |h| && forall i | |h| - n <= i < |h| :: h[i].seen.Some?
  {
    if n > 0 && h != [] {
      var front := h[..|h| - 1];
      StreakIsWindow(front, n - 1);
      if h[|h| - 1].seen.Some? && n <= |h| {
        assert forall i | |front| - (n - 1) <= i < |front| :: front[i] == h[i];
      }
    }
  }

  lemma {:induction false} MissesIsWindow<O>(h: seq<Sample<O>>, n: nat)
    ensures Misses(h) >= n <==> n <= |h| && forall i | |h| - n <= i < |h| :: h[i].seen.None?
  {
    if n > 0 && h != [] {
      var front := h[..|h| - 1];
      MissesIsWindow(front, n - 1);
      if h[|h| - 1].seen.None? && n <= |h| {
        assert forall i | |front| - (n - 1) <= i < |front| :: front[i] == h[i];
      }
    }
  }

  lemma ActiveUnfolds<O>(h: seq<Sample<O>>, confirmation: nat, tolerance: nat)
    requires h != [] && confirmation > 0
    ensures Active(h, confirmation, tolerance) <==>
      || Streak(h) >= confirmation
      || (Active(h[..|h| - 1], confirmation, tolerance) && Misses(h) <= tolerance)
  {
    var front := h[..|h| - 1];
    assert h[..|h|] == h;
    forall j | 0 <= j < |h| ensures h[..j] == front[..j] {}
    if Active(h, confirmation, tolerance) {
      var i :| 0 <= i <= |h| && Holding(h, i, confirmation, tolerance);
      assert Misses(h[..|h|]) <= tolerance;
      if i < |h| {
        HoldingFront(h, i, confirmation, tolerance);
      }
    }
    if Streak(h) >= confirmation {
      assert Holding(h, |h|, confirmation, tolerance);
    } else if Active(front, confirmation, tolerance) && Misses(h) <= tolerance {
      var i :| 0 <= i <= |front| && Holding(front, i, confirmation, tolerance);
      HoldingExtends(h, i, confirmation, tolerance);
    }
  }

  lemma HoldingFront<O>(h: seq<Sample<O>>, i: nat, confirmation: nat, tolerance: nat)
    requires i < |h| && Holding(h, i, confirmation, tolerance)
    ensures Holding(h[..|h| - 1], i, confirmation, tolerance)
  {
    var front := h[..|h| - 1];
    assert front[..i] == h[..i];
    forall j | i <= j <= |front| ensures Misses(front[..j]) <= tolerance { assert front[..j] == h[..j]; }
  }

  lemma HoldingExtends<O>(h: seq<Sample<O>>, i: nat, confirmation: nat, tolerance: nat)
    requires i < |h| && Holding(h[..|h| - 1], i, confirmation, tolerance) && Misses(h) <= tolerance
    ensures Holding(h, i, confirmation, tolerance)
  {
    var front := h[..|h| - 1];
    assert front[..i] == h[..i];
    forall j | i <= j <= |h|
      ensures Misses(h[..j]) <= tolerance
    {
      if j < |h| { assert front[..j] == h[..j]; } else { assert h[..j] == h; }
    }
  }

  ghost predicate EverSeen<O>(h: seq<Sample<O>>) {
    exists i | 0 <= i < |h| :: h[i].seen.Some?
  }

  /** The entry exactly summarises the history: it is there while the key was ever seen and is
      not missing too long, and its counters and confirmation are those of the specification. */
  ghost predicate Summarises<O, D>(e: Option<Entry<D>>, h: seq<Sample<O>>, r: Rules<O, D>) {
    && (e.Some? <==> EverSeen(h) && Misses(h) <= r.tolerance)
    && (e.Some? ==>
          && e.value.consecutive == Streak(h) && e.value.missed == Misses(h)
          && (e.value.confirmedAt.Some? <==> Active(h, r.confirmation, r.tolerance))
          && (e.value.observed <==> h != [] && h[|h| - 1].seen.Some?))
    && (e.None? ==> !Active(h, r.confirmation, r.tolerance) && Streak(h) == 0)
  }

  lemma EverSeenUnfolds<O>(h: seq<Sample<O>>)
    requires h != []
    ensures EverSeen(h) <==> EverSeen(h[..|h| - 1]) || h[|h| - 1].seen.Some?
  {
    var front := h[..|h| - 1];
    if EverSeen(front) {
      var i :| 0 <= i < |front| && front[i].seen.Some?;
      assert h[i].seen.Some?;
    }
    if EverSeen(h) && h[|h| - 1].seen.None? {
      var i :| 0 <= i < |h| && h[i].seen.Some?;
      assert front[i].seen.Some?;
    }
  }

  lemma {:induction false} ActiveWasSeen<O>(h: seq<Sample<O>>, confirmation: nat, tolerance: nat)
    requires confirmation > 0 && !EverSeen(h)
    ensures !Active(h, confirmation, tolerance) && Streak(h) == 0
  {
    forall i | 0 <= i <= |h| ensures Streak(h[..i]) == 0 {
      StreakIsWindow(h[..i], 1);
    }
    assert h[..|h|] == h;
  }

  lemma {:induction false} EntrySummarises<O, D>(h: seq<Sample<O>>, r: Rules<O, D>)
    requires r.confirmation > 0
    ensures Summarises(EntryAfter(h, r), h, r)
  {
    if h == [] {
      ActiveWasSeen(h, r.confirmation, r.tolerance);
    } else {
      var front, last := h[..|h| - 1], h[|h| - 1];
      EntrySummarises(front, r);
      SummaryAdvances(EntryAfter(front, r), h, r);
    }
  }

  lemma SummaryAdvances<O, D>(e: Option<Entry<D>>, h: seq<Sample<O>>, r: Rules<O, D>)
    requires r.confirmation > 0 && h != []
    requires Summarises(e, h[..|h| - 1], r)
    ensures Summarises(Advance(e, h[|h| - 1].seen, h[|h| - 1].at, r), h, r)
  {
    EverSeenUnfolds(h);
    ActiveUnfolds(h, r.confirmation, r.tolerance);
    if !EverSeen(h) {
      ActiveWasSeen(h, r.confirmation, r.tolerance);
    }
    assert e.Some? && e.value.missed > 0 ==> e.value.consecutive == 0;
  }

  /** A violation starts exactly at the end of the confirmation-th candidate frame in a row while
      none is active, and ends exactly at the (tolerance + 1)-th missing frame in a row while
      one is; nothing else is ever reported. */
  lemma TransitionsExactly<K, O, D>(k: K, h: seq<Sample<O>>, r: Rules<O, D>)
    requires r.confirmation > 0 && h != []
    ensures var front, last := h[..|h| - 1], h[|h| - 1];
      var out := Emitted(k, EntryAfter(front, r), last.seen, last.at, r);
      var active := Active(front, r.confirmation, r.tolerance);
      && |out| == (if (!active && Streak(h) == r.confirmation) || (active && Misses(h) == r.tolerance + 1)
                   then 1 else 0)
      && (|out| == 1 ==> out[0].kind == (if active then Ended else Started) && out[0].key == k && out[0].at == last.at)
  {
    var front, last := h[..|h| - 1], h[|h| - 1];
    EntrySummarises(front, r);
    ActiveUnfolds(h, r.confirmation, r.tolerance);
    if Streak(front) >= r.confirmation {
      StreakIsActive(front, r.confirmation, r.tolerance);
    }
  }

  lemma StreakIsActive<O>(h: seq<Sample<O>>, confirmation: nat, tolerance: nat)
    requires confirmation > 0 && Streak(h) >= confirmation
    ensures Active(h, confirmation, tolerance)
  {
    ActiveUnfolds(h, confirmation, tolerance);
  }

  // ---------------------------------------------------------------- episodes

  /** Started and Ended in turn, each Ended naming the frame its Started was reported at. */
  ghost predicate Paired<K, D>(ts: seq<Transition<K, D>>) {
    ts == [] || (|ts| >= 2 && SameEpisode(ts[|ts| - 2], ts[|ts| - 1]) && Paired(ts[..|ts| - 2]))
  }

  ghost predicate SameEpisode<K, D>(a: Transition<K, D>, b: Transition<K, D>) {
    && a.kind == Started && b.kind == Ended
    && a.key == b.key && a.confirmedFrame == Some(a.at.frame) == b.confirmedFrame
    && a.firstFrame == b.firstFrame
  }

  /** One more Started that has not ended, belonging to the confirmed entry. */
  ghost predicate Open<K, D>(ts: seq<Transition<K, D>>, k: K, e: Entry<D>) {
    && ts != []
    && Starts(ts[|ts| - 1], k, e)
    && Paired(ts[..|ts| - 1])
  }

  ghost predicate Starts<K, D>(s: Transition<K, D>, k: K, e: Entry<D>) {
    && s.kind == Started && s.key == k && s.firstFrame == e.first.frame
    && s.confirmedFrame == Some(s.at.frame) == Frame(e.confirmedAt)
  }

  ghost predicate Accounted<K, D>(ts: seq<Transition<K, D>>, k: K, e: Option<Entry<D>>) {
    if e.Some? && e.value.confirmedAt.Some? then Open(ts, k, e.value) else Paired(ts)
  }

  lemma {:induction false} TransitionsAlternate<K, O, D>(k: K, h: seq<Sample<O>>, r: Rules<O, D>)
    ensures Accounted(TransitionsAfter(k, h, r), k, EntryAfter(h, r))
  {
    if h != [] {
      var front, last := h[..|h| - 1], h[|h| - 1];
      TransitionsAlternate(k, front, r);
      AccountedAdvances(TransitionsAfter(k, front, r), k, EntryAfter(front, r), last.seen, last.at, r);
    }
  }

  lemma AccountedAdvances<K, O, D>(ts: seq<Transition<K, D>>, k: K, e: Option<Entry<D>>, o: Option<O>, at: Moment,
                                   r: Rules<O, D>)
    requires Accounted(ts, k, e)
    ensures Accounted(ts + Emitted(k, e, o, at, r), k, Advance(e, o, at, r))
  {
    match o
    case Some(x) =>
      var seen := OpenedOrSeen(e, x, at, r);
      if Due(seen, r) {
        StartAccounted(ts, Report(Started, k, ConfirmedIfDue(seen, at, r), at), k, ConfirmedIfDue(seen, at, r));
      } else {
        assert ts + Emitted(k, e, o, at, r) == ts;
      }
    case None =>
      EndAccounted(ts, Ending(k, e, at, r.tolerance), k, e);
  }

  lemma StartAccounted<K, D>(ts: seq<Transition<K, D>>, s: Transition<K, D>, k: K, e: Entry<D>)
    requires Paired(ts) && Starts(s, k, e)
    ensures Open(ts + [s], k, e)
  {
    assert (ts + [s])[..|ts|] == ts;
  }

  lemma EndAccounted<K, D>(ts: seq<Transition<K, D>>, out: seq<Transition<K, D>>, k: K, e: Option<Entry<D>>)
    requires Accounted(ts, k, e)
    requires out == [] || (|out| == 1 && e.Some? && e.value.confirmedAt.Some? && out[0].kind == Ended && out[0].key == k
             && out[0].confirmedFrame == Frame(e.value.confirmedAt) && out[0].firstFrame == e.value.first.frame)
    ensures if out == [] then Accounted(ts + out, k, e) else Paired(ts + out)
  {
    if out == [] {
      assert ts + out == ts;
    } else {
      assert (ts + out)[..|ts| - 1] == ts[..|ts| - 1];
    }
  }

  /** After the final flush every start has its end. */
  lemma {:induction false} FlushBalances<K, O, D>(k: K, h: seq<Sample<O>>, at: Moment, r: Rules<O, D>)
    ensures Paired(TransitionsAfter(k, h, r) + Flushed(k, EntryAfter(h, r), at))
  {
    TransitionsAlternate(k, h, r);
    EndAccounted(TransitionsAfter(k, h, r), Flushed(k, EntryAfter(h, r), at), k, EntryAfter(h, r));
  }

  ghost predicate Chronological<O>(h: seq<Sample<O>>) {
    forall i, j | 0 <= i < j < |h| :: h[i].at.frame < h[j].at.frame
  }

  lemma EmittedAtMostOne<K, O, D>(k: K, e: Option<Entry<D>>, o: Option<O>, at: Moment, r: Rules<O, D>)
    ensures var out := Emitted(k, e, o, at, r);
      |out| <= 1 && forall i | 0 <= i < |out| :: out[i].at == at && out[i].key == k
  {
  }

  /** Reported at increasing frames, none after `last`. */
  ghost predicate Increasing<K, D>(ts: seq<Transition<K, D>>, last: int) {
    && (forall i, j | 0 <= i < j < |ts| :: ts[i].at.frame < ts[j].at.frame)
    && (forall i | 0 <= i < |ts| :: ts[i].at.frame <= last)
  }

  /** Two episodes of one key never share the frame they were confirmed at. */
  lemma {:induction false} TransitionFramesIncrease<K, O, D>(k: K, h: seq<Sample<O>>, r: Rules<O, D>, last: int)
    requires Chronological(h) && (h != [] ==> h[|h| - 1].at.frame <= last)
    ensures Increasing(TransitionsAfter(k, h, r), last)
  {
    if h != [] {
      var front, at := h[..|h| - 1], h[|h| - 1].at;
      TransitionFramesIncrease(k, front, r, at.frame - 1);
      EmittedAtMostOne(k, EntryAfter(front, r), h[|h| - 1].seen, at, r);
    }
  }

  // ---------------------------------------------------------------- the first candidate frame

  ghost predicate FirstOfRun<O, D>(e: Option<Entry<D>>, h: seq<Sample<O>>) {
    e.Some? && e.value.confirmedAt.None? && e.value.missed == 0 ==>
      0 < e.value.consecutive <= |h| && e.value.first == h[|h| - e.value.consecutive].at
  }

  lemma {:induction false} UnconfirmedFirst<O, D>(h: seq<Sample<O>>, r: Rules<O, D>)
    requires r.confirmation > 0 && r.restarts
    ensures FirstOfRun(EntryAfter(h, r), h)
  {
    if h != [] { UnconfirmedFirst(h[..|h| - 1], r); }
  }

  /** Where gaps restart a candidate, the first candidate frame reported at the start of a
      violation is the first of the `confirmation` frames in a row that confirmed it. */
  lemma FirstCandidateStartsRun<K, O, D>(k: K, h: seq<Sample<O>>, r: Rules<O, D>)
    requires r.confirmation > 0 && r.restarts && h != []
    requires var front, last := h[..|h| - 1], h[|h| - 1];
      Emitted(k, EntryAfter(front, r), last.seen, last.at, r) != [] && !Active(front, r.confirmation, r.tolerance)
    ensures var front, last := h[..|h| - 1], h[|h| - 1];
      && r.confirmation <= |h|
      && Emitted(k, EntryAfter(front, r), last.seen, last.at, r)[0].firstFrame == h[|h| - r.confirmation].at.frame
  {
    var front := h[..|h| - 1];
    TransitionsExactly(k, h, r);
    StreakIsWindow(h, r.confirmation);
    EntrySummarises(front, r);
    UnconfirmedFirst(front, r);
  }

  /** Where they do not, it is the first candidate frame after the last gap that was too long. */
  ghost function EpisodeStart<O>(h: seq<Sample<O>>, tolerance: nat): Option<Moment> {
    if h == [] then None
    else
      var front, last := EpisodeStart(h[..|h| - 1], tolerance), h[|h| - 1];
      if Misses(h) > tolerance then None
      else if front.None? && last.seen.Some? then Some(last.at)
      else front
  }

  lemma {:induction false} FirstIsEpisodeStart<O, D>(h: seq<Sample<O>>, r: Rules<O, D>)
    requires r.confirmation > 0 && !r.restarts
    ensures EpisodeStart(h, r.tolerance)
         == match EntryAfter(h, r) case None => None case Some(e) => Some(e.first)
  {
    EntrySummarises(h, r);
    if h != [] {
      FirstIsEpisodeStart(h[..|h| - 1], r);
      EntrySummarises(h[..|h| - 1], r);
    }
  }

  // ---------------------------------------------------------------- all keys

  function OfKey<K(==), D>(ts: seq<Transition<K, D>>, k: K): seq<Transition<K, D>> {
    if ts == [] then []
    else
      var front := OfKey(ts[..|ts| - 1], k);
      if ts[|ts| - 1].key == k then front + [ts[|ts| - 1]] else front
  }

  lemma {:induction false} OfKeyAppend<K, D>(a: seq<Transition<K, D>>, b: seq<Transition<K, D>>, k: K)
    ensures OfKey(a + b, k) == OfKey(a, k) + OfKey(b, k)
  {
    if b == [] {
      assert a + b == a;
    } else {
      assert (a + b)[..|a + b| - 1] == a + b[..|b| - 1];
      OfKeyAppend(a, b[..|b| - 1], k);
    }
  }

  /** Appending what is all about k, when nothing was about k before. */
  lemma OfKeyAppendOne<K(!new), D>(a: seq<Transition<K, D>>, b: seq<Transition<K, D>>, k: K)
    requires OfKey(a, k) == []
    requires forall j :: OfKey(b, j) == if j == k then b else []
    ensures forall j :: OfKey(a + b, j) == if j == k then b else OfKey(a, j)
  {
    forall j
      ensures OfKey(a + b, j) == if j == k then b else OfKey(a, j)
    {
      OfKeyAppend(a, b, j);
    }
  }

  /** One frame changes every key by the rule for one key. */
  ghost predicate Changes<K(!new), O, D>(before: map<K, Entry<D>>, observed: map<K, O>, at: Moment, r: Rules<O, D>,
                                         after: map<K, Entry<D>>, out: seq<Transition<K, D>>)
  {
    forall k ::
      && Lookup(after, k) == Advance(Lookup(before, k), Lookup(observed, k), at, r)
      && OfKey(out, k) == Emitted(k, Lookup(before, k), Lookup(observed, k), at, r)
  }

  datatype Round<K, O> = Round(at: Moment, observed: map<K, O>)

  /** A run: `states` before, between and after the frames, and what each frame reports. */
  ghost predicate Runs<K(!new), O, D>(rounds: seq<Round<K, O>>, r: Rules<O, D>,
                                      states: seq<map<K, Entry<D>>>, outs: seq<seq<Transition<K, D>>>)
  {
    && |states| == |rounds| + 1 && |outs| == |rounds| && states[0] == map[]
    && forall i | 0 <= i < |rounds| :: Changes(states[i], rounds[i].observed, rounds[i].at, r, states[i + 1], outs[i])
  }

  ghost function HistoryOf<K, O>(rounds: seq<Round<K, O>>, k: K): seq<Sample<O>> {
    seq(|rounds|, i requires 0 <= i < |rounds| => Sample(rounds[i].at, Lookup(rounds[i].observed, k)))
  }

  ghost function Concat<T>(outs: seq<seq<T>>): seq<T> {
    if outs == [] then [] else Concat(outs[..|outs| - 1]) + outs[|outs| - 1]
  }

  /** In any run, what happens to one key depends on that key's own observations alone. */
  lemma {:induction false} KeyRunsAlone<K(!new), O, D>(rounds: seq<Round<K, O>>, r: Rules<O, D>,
                                                 states: seq<map<K, Entry<D>>>, outs: seq<seq<Transition<K, D>>>, k: K)
    requires Runs(rounds, r, states, outs)
    ensures Lookup(states[|rounds|], k) == EntryAfter(HistoryOf(rounds, k), r)
    ensures OfKey(Concat(outs), k) == TransitionsAfter(k, HistoryOf(rounds, k), r)
  {
    if rounds != [] {
      var n := |rounds| - 1;
      KeyRunsAlone(rounds[..n], r, states[..n + 1], outs[..n], k);
      assert HistoryOf(rounds, k)[..n] == HistoryOf(rounds[..n], k);
      assert Changes(states[n], rounds[n].observed, rounds[n].at, r, states[n + 1], outs[n]);
      OfKeyAppend(Concat(outs[..n]), outs[n], k);
    }
  }

  // ---------------------------------------------------------------- what the data keep

  /** A property of the data that every observation establishes and keeps holds always. */
  lemma {:induction false} DataKept<O(!new), D(!new)>(h: seq<Sample<O>>, r: Rules<O, D>, fits: O -> bool,
                                                      good: D -> bool)
    requires forall o | fits(o) :: good(r.begin(o))
    requires forall d, o | good(d) && fits(o) :: good(r.merge(d, o))
    requires forall i | 0 <= i < |h| && h[i].seen.Some? :: fits(h[i].seen.value)
    ensures EntryAfter(h, r).Some? ==> good(EntryAfter(h, r).value.data)
  {
    if h != [] { DataKept(h[..|h| - 1], r, fits, good); }
  }

  // ---------------------------------------------------------------- the object

  function Latest<K, O>(observations: seq<(K, O)>): map<K, O> {
    if observations == [] then map[]
    else
      var last := observations[|observations| - 1];
      Latest(observations[..|observations| - 1])[last.0 := last.1]
  }

  /** Every key neither seen nor still to do counts one miss more. */
  ghost predicate MissedExcept<K(!new), D>(before: map<K, Entry<D>>, after: map<K, Entry<D>>,
                                           out: seq<Transition<K, D>>,
                                           seen: set<K>, todo: set<K>, at: Moment, tolerance: nat)
  {
    forall k ::
      && Lookup(after, k) == (if k in seen || k in todo then Lookup(before, k)
        else Missed(Lookup(before, k), tolerance))
      && OfKey(out, k) == (if k in seen || k in todo then [] else Ending(k, Lookup(before, k), at, tolerance))
  }

  lemma OneMoreMissed<K(!new), D>(before: map<K, Entry<D>>, mid: map<K, Entry<D>>, after: map<K, Entry<D>>,
                                  out: seq<Transition<K, D>>, one: seq<Transition<K, D>>, k: K,
                                  seen: set<K>, todo: set<K>, at: Moment, tolerance: nat)
    requires MissedExcept(before, mid, out, seen, todo, at, tolerance) && k in todo && k !in seen
    requires forall j ::
      Lookup(after, j) == if j == k then Missed(Lookup(mid, k), tolerance) else Lookup(mid, j)
    requires one == Ending(k, Lookup(mid, k), at, tolerance)
    requires forall j :: OfKey(one, j) == if j == k then one else []
    ensures MissedExcept(before, after, out + one, seen, todo - {k}, at, tolerance)
  {
    OfKeyAppendOne(out, one, k);
  }

  datatype Reply<+K, +D> = Refused | Reported(transitions: seq<Transition<K, D>>)

  class Detector<K(==, !new), O, D> {
    var states: map<K, Entry<D>>
    const rules: Rules<O, D>

    constructor (rules: Rules<O, D>)
      ensures this.rules == rules && states == map[]
    {
      this.rules := rules;
      states := map[];
    }

    /** One frame; refuses a frame number or a time that is out of range. */
    method Update(at: Moment, observations: seq<(K, O)>) returns (reply: Reply<K, D>)
      modifies this
      ensures reply.Refused? <==> at.frame <= 0 || at.time < 0.0
      ensures reply.Refused? ==> states == old(states)
      ensures reply.Reported? ==>
        Changes(old(states), Latest(observations), at, rules, states, reply.transitions)
    {
      if at.frame <= 0 || at.time < 0.0 {
        return Refused;
      }
      var observed := map[];
      for i := 0 to |observations|
        invariant states == old(states) && observed == Latest(observations[..i])
      {
        assert observations[..i + 1][..i] == observations[..i];
        observed := observed[observations[i].0 := observations[i].1];
      }
      assert observations[..|observations|] == observations;
      var started := See(at, observed);
      var ended := Miss(at, observed);
      forall k ensures OfKey(started + ended, k) == Emitted(k, Lookup(old(states), k), Lookup(observed, k), at, rules) {
        OfKeyAppend(started, ended, k);
      }
      reply := Reported(started + ended);
    }

    /** Every observed key opens or continues its entry. */
    method See(at: Moment, observed: map<K, O>) returns (out: seq<Transition<K, D>>)
      modifies this
      ensures forall k ::
        Lookup(states, k) ==
          if k in observed then Advance(Lookup(old(states), k), Some(observed[k]), at, rules)
            else Lookup(old(states), k)
      ensures forall k ::
        OfKey(out, k) ==
          if k in observed then Emitted(k, Lookup(old(states), k), Some(observed[k]), at, rules) else []
    {
      out := [];
      var todo := observed.Keys;
      while todo != {}
        invariant todo <= observed.Keys
        invariant forall k ::
          Lookup(states, k) ==
            if k in observed && k !in todo then Advance(Lookup(old(states), k), Some(observed[k]), at, rules)
          else Lookup(old(states), k)
        invariant forall k ::
          OfKey(out, k) ==
            if k in observed && k !in todo then Emitted(k, Lookup(old(states), k), Some(observed[k]), at, rules) else []
        decreases |todo|
      {
        var k :| k in todo;
        var one := SeeOne(k, observed[k], at);
        OfKeyAppendOne(out, one, k);
        out := out + one;
        todo := todo - {k};
      }
    }

    method SeeOne(k: K, o: O, at: Moment) returns (out: seq<Transition<K, D>>)
      modifies this
      ensures forall j ::
        Lookup(states, j) ==
          if j == k then Advance(Lookup(old(states), k), Some(o), at, rules) else Lookup(old(states), j)
      ensures out == Emitted(k, Lookup(old(states), k), Some(o), at, rules)
      ensures forall j :: OfKey(out, j) == if j == k then out else []
    {
      out := [];
      var entry := if k in states then Seen(states[k], o, at, rules) else Opened(o, at, rules);
      if entry.confirmedAt.None? && entry.consecutive >= rules.confirmation {
        entry := entry.(confirmedAt := Some(at));
        out := [Report(Started, k, entry, at)];
      }
      states := states[k := entry];
    }

    /** Every other key counts a miss and is forgotten after too many. */
    method Miss(at: Moment, observed: map<K, O>) returns (out: seq<Transition<K, D>>)
      modifies this
      ensures MissedExcept(old(states), states, out, observed.Keys, {}, at, rules.tolerance)
    {
      out := [];
      var todo := states.Keys - observed.Keys;
      while todo != {}
        invariant todo <= old(states).Keys - observed.Keys
        invariant MissedExcept(old(states), states, out, observed.Keys, todo, at, rules.tolerance)
        decreases |todo|
      {
        var k :| k in todo;
        ghost var mid := states;
        var one := MissOne(k, at);
        OneMoreMissed(old(states), mid, states, out, one, k, observed.Keys, todo, at, rules.tolerance);
        out := out + one;
        todo := todo - {k};
      }
    }

    method MissOne(k: K, at: Moment) returns (out: seq<Transition<K, D>>)
      requires k in states
      modifies this
      ensures forall j ::
        Lookup(states, j) ==
          if j == k then Missed(Lookup(old(states), k), rules.tolerance) else Lookup(old(states), j)
      ensures out == Ending(k, Lookup(old(states), k), at, rules.tolerance)
      ensures forall j :: OfKey(out, j) == if j == k then out else []
    {
      out := [];
      var entry := Unseen(states[k]);
      if entry.missed <= rules.tolerance {
        states := states[k := entry];
        return;
      }
      if entry.confirmedAt.Some? {
        out := [Report(Ended, k, entry, at)];
      }
      states := states - {k};
    }

    /** Ends what is confirmed and forgets everything. */
    method Flush(at: Moment) returns (reply: Reply<K, D>)
      modifies this
      ensures reply.Refused? <==> at.frame <= 0 || at.time < 0.0
      ensures reply.Refused? ==> states == old(states)
      ensures reply.Reported? ==>
        && states == map[]
        && forall k :: OfKey(reply.transitions, k) == Flushed(k, Lookup(old(states), k), at)
    {
      if at.frame <= 0 || at.time < 0.0 {
        return Refused;
      }
      var out: seq<Transition<K, D>> := [];
      var todo := states.Keys;
      while todo != {}
        invariant todo <= states.Keys && states == old(states)
        invariant forall k :: OfKey(out, k) == if k in todo then [] else Flushed(k, Lookup(states, k), at)
        decreases |todo|
      {
        var k :| k in todo;
        if states[k].confirmedAt.Some? {
          var one := [Report(Ended, k, states[k], at)];
          OfKeyAppendOne(out, one, k);
          out := out + one;
        }
        todo := todo - {k};
      }
      states := map[];
      reply := Reported(out);
    }

    method Reset()
      modifies this
      ensures states == map[]
    {
      states := map[];
    }
  }
}
