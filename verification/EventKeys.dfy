/** The keys under which events are stored: one per episode, none shared. */
module EventKeys {
  import opened Collections
  import H = Hysteresis

  // ---------------------------------------------------------------- writing and reading keys

  /** No separator inside. */
  predicate Plain(s: string) {
    ':' !in s
  }

  ghost predicate AllPlain(parts: seq<string>) {
    forall i | 0 <= i < |parts| :: Plain(parts[i])
  }

  function Join(parts: seq<string>): string {
    if |parts| == 0 then ""
    else if |parts| == 1 then parts[0]
    else parts[0] + ":" + Join(parts[1..])
  }

  /** A part that is longer than another one reaches past the other's separator. */
  lemma SeparatorReached(a: string, b: string, restA: string, restB: string)
    requires a + ":" + restA == b + ":" + restB && |a| < |b|
    ensures ':' in b
  {
    assert (a + ":" + restA)[|a|] == ':';
    assert (b + ":" + restB)[|a|] == b[|a|];
  }

  /** Two plain parts that are followed by a separator agree when the texts agree. */
  lemma HeadsAgree(a: string, b: string, restA: string, restB: string)
    requires Plain(a) && Plain(b) && a + ":" + restA == b + ":" + restB
    ensures a == b && restA == restB
  {
    if |a| < |b| {
      SeparatorReached(a, b, restA, restB);
    } else if |b| < |a| {
      SeparatorReached(b, a, restB, restA);
    } else {
      var x, y := a + ":" + restA, b + ":" + restB;
      assert a == x[..|a|] && b == y[..|b|];
      assert restA == x[|a| + 1..] && restB == y[|b| + 1..];
    }
  }

  lemma SeparatorInside(a: string, b: string, rest: string)
    requires Plain(a)
    ensures a != b + ":" + rest
  {
    assert (b + ":" + rest)[|b|] == ':';
  }

  /** Joined plain parts can be told apart again. */
  lemma {:induction false} JoinInjective(a: seq<string>, b: seq<string>)
    requires AllPlain(a) && AllPlain(b) && |a| > 0 && |b| > 0 && Join(a) == Join(b)
    ensures a == b
  {
    if |a| == 1 && |b| == 1 {
    } else if |a| == 1 {
      SeparatorInside(a[0], b[0], Join(b[1..]));
    } else if |b| == 1 {
      SeparatorInside(b[0], a[0], Join(a[1..]));
    } else {
      HeadsAgree(a[0], b[0], Join(a[1..]), Join(b[1..]));
      JoinInjective(a[1..], b[1..]);
      assert a == [a[0]] + a[1..] && b == [b[0]] + b[1..];
    }
  }

  function Digit(n: nat): char
    requires n < 10
  {
    '0' + n as char
  }

  function Decimal(n: nat): string {
    if n < 10 then [Digit(n)] else Decimal(n / 10) + [Digit(n % 10)]
  }

  lemma {:induction false} DecimalPlain(n: nat)
    ensures Decimal(n) != [] && Plain(Decimal(n))
  {
    if n >= 10 { DecimalPlain(n / 10); }
  }

  lemma {:induction false} DecimalLength(n: nat)
    requires n >= 10
    ensures |Decimal(n)| >= 2
  {
    DecimalPlain(n / 10);
  }

  lemma {:induction false} DecimalInjective(m: nat, n: nat)
    requires Decimal(m) == Decimal(n)
    ensures m == n
  {
    if m >= 10 { DecimalLength(m); }
    if n >= 10 { DecimalLength(n); }
    var a, b := Decimal(m), Decimal(n);
    if m >= 10 && n >= 10 {
      assert a[|a| - 1] == Digit(m % 10) && b[|b| - 1] == Digit(n % 10);
      assert a[..|a| - 1] == Decimal(m / 10) && b[..|b| - 1] == Decimal(n / 10);
      DecimalInjective(m / 10, n / 10);
    } else {
      assert a[0] == b[0];
    }
  }

  // ---------------------------------------------------------------- the five families

  /** What identifies an episode within a job. */
  datatype Identity =
    | WrongWay(track: nat, lane: string, anchor: nat)
    | TripleRiding(motorcycle: nat, anchor: nat)
    | NoHelmet(person: nat, anchor: nat)
    | LaneViolation(track: nat, anchor: nat)
    | RedLight(track: nat, stopLine: string, frame: nat)

  function PartsOf(job: string, id: Identity): seq<string> {
    match id
    case WrongWay(track, lane, anchor) => ["wrong_way", job, Decimal(track), lane, Decimal(anchor)]
    case TripleRiding(motorcycle, anchor) => ["triple_riding", job, Decimal(motorcycle), Decimal(anchor)]
    case NoHelmet(person, anchor) => ["no_helmet", job, Decimal(person), Decimal(anchor)]
    case LaneViolation(track, anchor) => ["lane_violation", job, Decimal(track), Decimal(anchor)]
    case RedLight(track, stopLine, frame) => ["red_light", job, Decimal(track), stopLine, Decimal(frame)]
  }

  function KeyOf(job: string, id: Identity): string {
    Join(PartsOf(job, id))
  }

  /** Letters, digits, underscore and hyphen, as the scene configuration demands of identifiers. */
  predicate Identifier(s: string) {
    s != [] && forall i | 0 <= i < |s| ::
      'A' <= s[i] <= 'Z' || 'a' <= s[i] <= 'z' || '0' <= s[i] <= '9' || s[i] == '_' || s[i] == '-'
  }

  predicate WellNamed(id: Identity) {
    && (id.WrongWay? ==> Identifier(id.lane))
    && (id.RedLight? ==> Identifier(id.stopLine))
  }

  lemma {:induction false} IdentifierPlain(s: string)
    requires Identifier(s)
    ensures Plain(s)
  {
  }

  lemma PartsPlain(job: string, id: Identity)
    requires Identifier(job) && WellNamed(id)
    ensures AllPlain(PartsOf(job, id))
  {
    IdentifierPlain(job);
    match id
    case WrongWay(track, lane, anchor) =>
      IdentifierPlain(lane); DecimalPlain(track); DecimalPlain(anchor);
    case TripleRiding(motorcycle, anchor) =>
      DecimalPlain(motorcycle); DecimalPlain(anchor);
    case NoHelmet(person, anchor) =>
      DecimalPlain(person); DecimalPlain(anchor);
    case LaneViolation(track, anchor) =>
      DecimalPlain(track); DecimalPlain(anchor);
    case RedLight(track, stopLine, frame) =>
      IdentifierPlain(stopLine); DecimalPlain(track); DecimalPlain(frame);
  }

  lemma FamilyDecides(job: string, id: Identity, job': string, id': Identity)
    requires PartsOf(job, id) == PartsOf(job', id')
    ensures job == job' && id == id'
  {
    var a, b := PartsOf(job, id), PartsOf(job', id');
    assert a[0] == b[0] && a[1] == b[1] && a[2] == b[2] && a[3] == b[3];
    match id
    case WrongWay(track, lane, anchor) =>
      DecimalInjective(track, id'.track); assert a[4] == b[4]; DecimalInjective(anchor, id'.anchor);
    case TripleRiding(motorcycle, anchor) =>
      DecimalInjective(motorcycle, id'.motorcycle); DecimalInjective(anchor, id'.anchor);
    case NoHelmet(person, anchor) =>
      DecimalInjective(person, id'.person); DecimalInjective(anchor, id'.anchor);
    case LaneViolation(track, anchor) =>
      DecimalInjective(track, id'.track); DecimalInjective(anchor, id'.anchor);
    case RedLight(track, stopLine, frame) =>
      DecimalInjective(track, id'.track); assert a[4] == b[4]; DecimalInjective(frame, id'.frame);
  }

  /** No two episodes share a key, within a job, across jobs, or across families. */
  lemma KeysDiffer(job: string, id: Identity, job': string, id': Identity)
    requires Identifier(job) && WellNamed(id) && Identifier(job') && WellNamed(id')
    ensures KeyOf(job, id) == KeyOf(job', id') <==> job == job' && id == id'
  {
    if KeyOf(job, id) == KeyOf(job', id') {
      PartsPlain(job, id);
      PartsPlain(job', id');
      JoinInjective(PartsOf(job, id), PartsOf(job', id'));
      FamilyDecides(job, id, job', id');
    }
  }

  // ---------------------------------------------------------------- episodes of one detector key

  /** `confirmed_frame or first_candidate_frame`. */
  function Anchor<K, D>(t: H.Transition<K, D>): int {
    match t.confirmedFrame
    case Some(f) => if f != 0 then f else t.firstFrame
    case None => t.firstFrame
  }

  ghost predicate StartsIncrease<K, D>(ts: seq<H.Transition<K, D>>) {
    forall i, j | 0 <= i < j < |ts| && ts[i].kind == H.Started && ts[j].kind == H.Started ::
      ts[i].at.frame < ts[j].at.frame
  }

  ghost predicate ConfirmedAt<K, D>(ts: seq<H.Transition<K, D>>, i: nat, s: nat) {
    s <= i < |ts| && ts[s].kind == H.Started && ts[i].confirmedFrame == Some(ts[s].at.frame)
  }

  /** Every transition names the frame of some start at or before it. */
  lemma {:induction false} ConfirmedByStart<K, D>(ts: seq<H.Transition<K, D>>, i: nat) returns (s: nat)
    requires H.Paired(ts) && i < |ts|
    ensures ConfirmedAt(ts, i, s)
  {
    var front := ts[..|ts| - 2];
    if i < |front| {
      s := ConfirmedByStart(front, i);
      assert front[s] == ts[s] && front[i] == ts[i];
    } else {
      assert H.SameEpisode(ts[|ts| - 2], ts[|ts| - 1]);
      s := |ts| - 2;
    }
  }

  /** In a paired sequence, two transitions name the same frame exactly when they are the start
      and the end of one episode. */
  lemma {:induction false} EpisodesByFrame<K, D>(ts: seq<H.Transition<K, D>>, i: nat, j: nat)
    requires H.Paired(ts) && StartsIncrease(ts) && i < j < |ts|
    ensures ts[i].confirmedFrame == ts[j].confirmedFrame <==> j == i + 1 && H.SameEpisode(ts[i], ts[j])
  {
    var n := |ts| - 2;
    assert H.SameEpisode(ts[n], ts[n + 1]);
    if j < n {
      assert ts[..n][i] == ts[i] && ts[..n][j] == ts[j];
      EpisodesByFrame(ts[..n], i, j);
    } else if i < n {
      var s := ConfirmedByStart(ts[..n], i);
      assert ts[..n][s] == ts[s] && ts[..n][i] == ts[i];
      assert ts[s].at.frame < ts[n].at.frame;
    }
  }

  lemma NoStartAtEnd<K, O, D>(k: K, h: seq<H.Sample<O>>, r: H.Rules<O, D>, at: H.Moment, last: int)
    requires H.Increasing(H.TransitionsAfter(k, h, r), last)
    ensures StartsIncrease(H.TransitionsAfter(k, h, r) + H.Flushed(k, H.EntryAfter(h, r), at))
  {
  }

  /** In a whole run of a detector, flushed at its end, two transitions of one key get the same
      event key exactly when they start and end the same episode. */
  lemma EpisodesHaveOwnKeys<K, O, D>(k: K, h: seq<H.Sample<O>>, r: H.Rules<O, D>, at: H.Moment, i: nat, j: nat)
    requires H.Chronological(h) && forall n | 0 <= n < |h| :: h[n].at.frame > 0
    requires i < j < |H.TransitionsAfter(k, h, r) + H.Flushed(k, H.EntryAfter(h, r), at)|
    ensures var ts := H.TransitionsAfter(k, h, r) + H.Flushed(k, H.EntryAfter(h, r), at);
      && Anchor(ts[i]) > 0
      && (Anchor(ts[i]) == Anchor(ts[j]) <==> j == i + 1 && H.SameEpisode(ts[i], ts[j]))
  {
    var last := if h == [] then 0 else h[|h| - 1].at.frame;
    var ts := H.TransitionsAfter(k, h, r) + H.Flushed(k, H.EntryAfter(h, r), at);
    H.TransitionFramesIncrease(k, h, r, last);
    H.FlushBalances(k, h, at, r);
    NoStartAtEnd(k, h, r, at, last);
    EpisodesByFrame(ts, i, j);
    StartsPositive(k, h, r);
    var s := ConfirmedByStart(ts, i);
    var t := ConfirmedByStart(ts, j);
  }

  lemma {:induction false} StartsPositive<K, O, D>(k: K, h: seq<H.Sample<O>>, r: H.Rules<O, D>)
    requires forall n | 0 <= n < |h| :: h[n].at.frame > 0
    ensures forall i | 0 <= i < |H.TransitionsAfter(k, h, r)| :: H.TransitionsAfter(k, h, r)[i].at.frame > 0
  {
    if h != [] {
      StartsPositive(k, h[..|h| - 1], r);
      H.EmittedAtMostOne(k, H.EntryAfter(h[..|h| - 1], r), h[|h| - 1].seen, h[|h| - 1].at, r);
    }
  }
}
