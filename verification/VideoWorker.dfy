/** One attempt at a job: the frame loop of a worker, and what any number of attempts leave. */
module VideoWorker {
  import opened Collections
  import opened JobLog
  import B = Boxes
  import K = EventKeys
  import S = EventStore
  import Lease = JobLease
  import P = JobProtocol

  /** What the pipeline finds in a frame; no metrics if it skipped the frame. */
  datatype Processed = Processed(analysis: Analysis, metrics: Option<Lease.Metrics>)

  /** A job as every attempt finds it.  The pipeline is deterministic: what it finds in a frame depends
      on the frames so far. */
  datatype Job<!Image> = Job(
    frames: seq<Image>, process: seq<Image> -> Processed, finish: seq<Image> -> Option<Analysis>,
    expected: Option<nat>, interval: int, preview: Option<string>, evidence: seq<S.Evidence>)

  /** What happens to one attempt from outside: `breaks(n)` is the number of items of frame n that
      were stored before an exception ended the work on it, if one did, and `owned(n)` tells
      whether the ownership check after frame n passes.  With N frames, N + 1 stands for the end
      of the job, and N + 2 and N + 3 for the times after preview and images were attached. */
  datatype Luck = Luck(breaks: nat -> Option<nat>, owned: nat -> bool)

  datatype Fate = Going | Broken(at: nat, stored: nat) | Lost(at: nat) | Completed

  datatype Call = Heartbeat(frame: nat, percent: real, metrics: Lease.Metrics) | Success | Failure

  const NoTransitions := Analysis([], [], [], [], [])

  // ---------------------------------------------------------------- the loop

  function AnalysisAt<Image>(job: Job<Image>, n: nat): Analysis
    requires 0 < n <= |job.frames|
  {
    job.process(job.frames[..n]).analysis
  }

  function FinalAnalysis<Image>(job: Job<Image>): Analysis {
    match job.finish(job.frames)
    case None => NoTransitions
    case Some(a) => a
  }

  /** All that the job has to persist: frame by frame, then at the end. */
  ghost function Work<Image>(job: Job<Image>): seq<Analysis> {
    seq(|job.frames|, i requires 0 <= i < |job.frames| => AnalysisAt(job, i + 1)) + [FinalAnalysis(job)]
  }

  ghost function FullLog<Image>(job: Job<Image>): seq<S.Item> {
    Log(Work(job))
  }

  function Least(a: nat, b: nat): nat {
    if a <= b then a else b
  }

  /** Every so many frames, and from the expected last frame on. */
  predicate Due<Image>(job: Job<Image>, n: nat) {
    job.interval != 0 && (n % job.interval == 0 || (job.expected.Some? && n >= job.expected.value))
  }

  function Percent(n: nat, expected: Option<nat>): real {
    if expected.None? || expected.value == 0 then 0.0
    else B.Min(n as real / expected.value as real * 100.0, 99.0)
  }

  /** How the work on frame n goes, if it was reached; an interval of zero fails once the frame is stored. */
  function FrameFate<Image>(job: Job<Image>, luck: Luck, n: nat): Fate
    requires 0 < n <= |job.frames|
  {
    var all := |Row(AnalysisAt(job, n))|;
    if luck.breaks(n).Some? then Broken(n, Least(luck.breaks(n).value, all))
    else if job.interval == 0 then Broken(n, all)
    else if Due(job, n) && !luck.owned(n) then Lost(n)
    else Going
  }

  function FateAfter<Image>(job: Job<Image>, luck: Luck, n: nat): Fate
    requires n <= |job.frames|
  {
    if n == 0 then Going
    else if FateAfter(job, luck, n - 1).Going? then FrameFate(job, luck, n)
    else FateAfter(job, luck, n - 1)
  }

  function FinalFate<Image>(job: Job<Image>, luck: Luck): Fate {
    var n := |job.frames|;
    if n == 0 then Broken(0, 0)
    else if luck.breaks(n + 1).Some? then Broken(n + 1, Least(luck.breaks(n + 1).value, |Row(FinalAnalysis(job))|))
    else if luck.breaks(n + 2).Some? then Broken(n + 2, 0)
    else if luck.breaks(n + 3).Some? then Broken(n + 3, 0)
    else if !luck.owned(n + 1) then Lost(n + 1)
    else Completed
  }

  function FateOf<Image>(job: Job<Image>, luck: Luck): Fate {
    var fate := FateAfter(job, luck, |job.frames|);
    if fate.Going? then FinalFate(job, luck) else fate
  }

  predicate FateFits<Image>(job: Job<Image>, fate: Fate) {
    match fate
    case Going => false
    case Broken(n, stored) =>
      || (n == 0 && stored == 0 && |job.frames| == 0)
      || (0 < n <= |job.frames| && stored <= |Row(AnalysisAt(job, n))|)
      || (n == |job.frames| + 1 > 1 && stored <= |Row(FinalAnalysis(job))|)
      || (|job.frames| + 2 <= n <= |job.frames| + 3 && |job.frames| > 0 && stored == 0)
    case Lost(n) => 0 < n <= |job.frames| + 1
    case Completed => |job.frames| > 0
  }

  /** The items that an attempt of this fate has persisted. */
  ghost function Persisted<Image>(job: Job<Image>, fate: Fate): seq<S.Item>
    requires FateFits(job, fate)
  {
    match fate
    case Going => []
    case Broken(n, stored) =>
      if n == 0 then [] else if n <= |job.frames| + 1 then FirstItems(job, n, stored) else FullLog(job)
    case Lost(n) => FirstFrames(job, n)
    case Completed => FullLog(job)
  }

  ghost function FirstFrames<Image>(job: Job<Image>, n: nat): seq<S.Item>
    requires n <= |job.frames| + 1
  {
    Log(Work(job)[..n])
  }

  /** The items of all frames before the n-th and some of that one. */
  ghost function FirstItems<Image>(job: Job<Image>, n: nat, stored: nat): seq<S.Item>
    requires 0 < n <= |job.frames| + 1 && stored <= |Row(Work(job)[n - 1])|
  {
    FirstFrames(job, n - 1) + Row(Work(job)[n - 1])[..stored]
  }

  /** Whether an attempt of this fate came so far as to attach the preview. */
  predicate PreviewAttached<Image>(job: Job<Image>, fate: Fate) {
    fate.Completed? || (fate.Lost? && fate.at > |job.frames|) || (fate.Broken? && fate.at > |job.frames| + 1)
  }

  predicate ImagesAttached<Image>(job: Job<Image>, fate: Fate) {
    fate.Completed? || (fate.Lost? && fate.at > |job.frames|) || (fate.Broken? && fate.at > |job.frames| + 2)
  }

  function WithPreview(events: S.Events, preview: Option<string>): S.Events {
    if preview.None? then events else S.Do(events, S.AttachPreview(preview.value))
  }

  function WithImages(events: S.Events, evidence: seq<S.Evidence>): S.Events {
    if evidence == [] then events else S.Do(events, S.AttachImages(evidence))
  }

  /** The table of events after an attempt of this fate. */
  ghost function After<Image>(events: S.Events, job: Job<Image>, fate: Fate): S.Events
    requires FateFits(job, fate)
  {
    Attached(S.PersistAll(events, Persisted(job, fate)), job, fate)
  }

  function Attached<Image>(events: S.Events, job: Job<Image>, fate: Fate): S.Events {
    var previewed := if PreviewAttached(job, fate) then WithPreview(events, job.preview) else events;
    if ImagesAttached(job, fate) then WithImages(previewed, job.evidence) else previewed
  }

  function LatestMetrics<Image>(job: Job<Image>, n: nat): Lease.Metrics
    requires n <= |job.frames|
  {
    if n == 0 then map[]
    else
      match job.process(job.frames[..n]).metrics
      case Some(m) => m
      case None => LatestMetrics(job, n - 1)
  }

  function Report<Image>(job: Job<Image>, n: nat): Call
    requires n <= |job.frames|
  {
    Heartbeat(n, Percent(n, job.expected), LatestMetrics(job, n))
  }

  function Reports<Image>(job: Job<Image>, n: nat): seq<Call>
    requires n <= |job.frames|
  {
    if n == 0 then [] else Reports(job, n - 1) + if Due(job, n) then [Report(job, n)] else []
  }

  /** The transactions of an attempt on its job row, in order. */
  function Calls<Image>(job: Job<Image>, fate: Fate): seq<Call> {
    match fate
    case Going => []
    case Broken(n, _) => (if n == 0 then [] else Reports(job, Least(n - 1, |job.frames|))) + [Failure]
    case Lost(n) => if n <= |job.frames| then Reports(job, n) else Reports(job, |job.frames|) + [Success]
    case Completed => Reports(job, |job.frames|) + [Success]
  }

  // ---------------------------------------------------------------- prefixes

  lemma {:induction false} LogPrefix(frames: seq<Analysis>, n: nat)
    requires n <= |frames|
    ensures Log(frames[..n]) <= Log(frames)
  {
    if n == |frames| {
      assert frames[..n] == frames;
    } else {
      var front := frames[..|frames| - 1];
      assert front[..n] == frames[..n];
      LogPrefix(front, n);
    }
  }

  /** The items of the first frames, and some of those of the next one, are a prefix of all. */
  lemma PartialRow(frames: seq<Analysis>, n: nat, stored: nat)
    requires 0 < n <= |frames| && stored <= |Row(frames[n - 1])|
    ensures var before := Log(frames[..n - 1]);
      |before| + stored <= |Log(frames)| && Log(frames)[..|before| + stored] == before + Row(frames[n - 1])[..stored]
  {
    LogPrefix(frames, n);
    assert frames[..n][..n - 1] == frames[..n - 1];
    assert Log(frames[..n]) == Log(frames[..n - 1]) + Row(frames[n - 1]);
  }

  lemma {:induction false} FateAfterFits<Image>(job: Job<Image>, luck: Luck, n: nat)
    requires n <= |job.frames|
    ensures var fate := FateAfter(job, luck, n);
      fate.Going? || (FateFits(job, fate) && !fate.Completed? && 0 < fate.at <= n)
  {
    if n > 0 { FateAfterFits(job, luck, n - 1); }
  }

  lemma FateOfFits<Image>(job: Job<Image>, luck: Luck)
    ensures FateFits(job, FateOf(job, luck))
  {
    FateAfterFits(job, luck, |job.frames|);
  }

  /** What an attempt persists is a prefix of what the job has to persist, and all of it once the
      preview is attached. */
  lemma PersistedIsPrefix<Image>(job: Job<Image>, fate: Fate)
    requires FateFits(job, fate)
    ensures Persisted(job, fate) <= FullLog(job)
    ensures fate.Completed? || PreviewAttached(job, fate) ==> Persisted(job, fate) == FullLog(job)
  {
    var work := Work(job);
    match fate
    case Going =>
    case Broken(n, stored) =>
      if 0 < n <= |work| { PartialRow(work, n, stored); }
    case Lost(n) =>
      LogPrefix(work, n);
      assert work[..|work|] == work;
    case Completed =>
  }

  lemma {:induction false} PersistAppend(events: S.Events, a: seq<S.Item>, b: seq<S.Item>)
    ensures S.PersistAll(events, a + b) == S.PersistAll(S.PersistAll(events, a), b)
  {
    if b == [] {
      assert a + b == a;
    } else {
      assert (a + b)[..|a + b| - 1] == a + b[..|b| - 1];
      PersistAppend(events, a, b[..|b| - 1]);
    }
  }

  lemma {:induction false} FateSticks<Image>(job: Job<Image>, luck: Luck, n: nat, m: nat)
    requires n <= m <= |job.frames| && !FateAfter(job, luck, n).Going?
    ensures FateAfter(job, luck, m) == FateAfter(job, luck, n)
  {
    if n < m { FateSticks(job, luck, n, m - 1); }
  }

  /** The loop ends in the middle of frame n. */
  lemma EndsInFrame<Image>(job: Job<Image>, luck: Luck, n: nat, fate: Fate)
    requires 0 < n <= |job.frames| && FateAfter(job, luck, n - 1).Going? && fate == FrameFate(job, luck, n)
      && !fate.Going?
    ensures fate == FateOf(job, luck) && FateFits(job, fate) && !PreviewAttached(job, fate)
    ensures (fate.Broken? && fate.at == n && fate.stored <= |Row(AnalysisAt(job, n))|) || fate == Lost(n)
  {
    FateSticks(job, luck, n, |job.frames|);
  }

  lemma FirstFramesGrow<Image>(job: Job<Image>, n: nat)
    requires 0 < n <= |job.frames| + 1
    ensures FirstFrames(job, n) == FirstFrames(job, n - 1) + Row(Work(job)[n - 1])
    ensures n == |job.frames| + 1 ==> FirstFrames(job, n) == FullLog(job)
  {
    assert Work(job)[..n][..n - 1] == Work(job)[..n - 1];
    if n == |job.frames| + 1 { assert Work(job)[..n] == Work(job); }
  }

  function StoredOf(row: seq<S.Item>, fate: Fate): seq<S.Item>
    requires fate.Broken? ==> fate.stored <= |row|
  {
    if fate.Broken? then row[..fate.stored] else row
  }

  /** What is stored once the work on frame n is over and the loop goes on. */
  lemma GoesOn<Image>(events: S.Events, job: Job<Image>, n: nat)
    requires 0 < n <= |job.frames|
    ensures S.PersistAll(S.PersistAll(events, FirstFrames(job, n - 1)), StoredOf(Row(AnalysisAt(job, n)), Going))
         == S.PersistAll(events, FirstFrames(job, n))
  {
    FirstFramesGrow(job, n);
    PersistAppend(events, FirstFrames(job, n - 1), Row(AnalysisAt(job, n)));
  }

  lemma PersistedInFrame<Image>(job: Job<Image>, n: nat, fate: Fate)
    requires 0 < n <= |job.frames|
    requires (fate.Broken? && fate.at == n && fate.stored <= |Row(AnalysisAt(job, n))|) || fate == Lost(n)
    ensures FateFits(job, fate)
      && Persisted(job, fate) == FirstFrames(job, n - 1) + StoredOf(Row(AnalysisAt(job, n)), fate)
  {
    FirstFramesGrow(job, n);
  }

  /** What is stored once the work on frame n is over and the loop is left. */
  lemma Stops<Image>(events: S.Events, job: Job<Image>, luck: Luck, n: nat, fate: Fate)
    requires 0 < n <= |job.frames| && FateAfter(job, luck, n - 1).Going? && fate == FrameFate(job, luck, n)
      && !fate.Going?
    ensures fate == FateOf(job, luck) && FateFits(job, fate)
    ensures After(events, job, fate)
         == S.PersistAll(S.PersistAll(events, FirstFrames(job, n - 1)), StoredOf(Row(AnalysisAt(job, n)), fate))
  {
    EndsInFrame(job, luck, n, fate);
    PersistedInFrame(job, n, fate);
    PersistAppend(events, FirstFrames(job, n - 1), StoredOf(Row(AnalysisAt(job, n)), fate));
  }

  lemma CallsInFrame<Image>(job: Job<Image>, luck: Luck, n: nat, fate: Fate, calls: seq<Call>)
    requires 0 < n <= |job.frames| && fate == FrameFate(job, luck, n)
    requires calls == if !fate.Broken? && Due(job, n) then [Report(job, n)] else []
    ensures fate.Going? ==> Reports(job, n - 1) + calls == Reports(job, n)
    ensures fate.Lost? ==> Reports(job, n - 1) + calls + [] == Calls(job, fate)
    ensures fate.Broken? ==> Reports(job, n - 1) + calls + [Failure] == Calls(job, fate)
  {
    assert Reports(job, n - 1) + [] == Reports(job, n - 1);
    assert Reports(job, n - 1) + calls + [] == Reports(job, n - 1) + calls;
  }

  function FinalItems<Image>(job: Job<Image>, fate: Fate): seq<S.Item>
    requires fate.Broken? && fate.at == |job.frames| + 1 ==> fate.stored <= |Row(FinalAnalysis(job))|
  {
    if |job.frames| == 0 then []
    else if fate.Broken? && fate.at == |job.frames| + 1 then Row(FinalAnalysis(job))[..fate.stored]
    else Row(FinalAnalysis(job))
  }

  /** The fates that are possible once the loop ran to its end. */
  predicate AtEnd<Image>(job: Job<Image>, fate: Fate) {
    var n := |job.frames|;
    if n == 0 then fate == Broken(0, 0)
    else
      || fate.Completed? || fate == Lost(n + 1) || fate == Broken(n + 2, 0) || fate == Broken(n + 3, 0)
      || (fate.Broken? && fate.at == n + 1 && fate.stored <= |Row(FinalAnalysis(job))|)
  }

  ghost predicate Ends<Image>(job: Job<Image>, luck: Luck, fate: Fate) {
    FateAfter(job, luck, |job.frames|).Going? && fate == FinalFate(job, luck)
  }

  lemma EndIsFate<Image>(job: Job<Image>, luck: Luck, fate: Fate)
    requires Ends(job, luck, fate)
    ensures fate == FateOf(job, luck) && FateFits(job, fate) && AtEnd(job, fate)
  {
  }

  lemma NothingFirst<Image>(job: Job<Image>)
    ensures FirstFrames(job, 0) == []
  {
    assert Work(job)[..0] == [];
  }

  lemma FinalRow<Image>(job: Job<Image>)
    ensures Work(job)[|job.frames|] == FinalAnalysis(job)
    ensures FullLog(job) == FirstFrames(job, |job.frames|) + Row(FinalAnalysis(job))
  {
    FirstFramesGrow(job, |job.frames| + 1);
  }

  lemma BrokenAtEnd<Image>(job: Job<Image>, fate: Fate)
    requires fate.Broken? && fate.at == |job.frames| + 1 > 1 && fate.stored <= |Row(FinalAnalysis(job))|
    ensures FateFits(job, fate)
    ensures Persisted(job, fate) == FirstFrames(job, |job.frames|) + Row(FinalAnalysis(job))[..fate.stored]
  {
    assert Work(job)[|job.frames|] == FinalAnalysis(job);
  }

  lemma AllPersisted<Image>(job: Job<Image>, fate: Fate)
    requires |job.frames| > 0
    requires fate.Completed? || fate == Lost(|job.frames| + 1)
             || fate == Broken(|job.frames| + 2, 0) || fate == Broken(|job.frames| + 3, 0)
    ensures FateFits(job, fate) && Persisted(job, fate) == FullLog(job)
  {
    if fate.Lost? { FirstFramesGrow(job, |job.frames| + 1); }
  }

  lemma PersistedAtEnd<Image>(job: Job<Image>, fate: Fate)
    requires AtEnd(job, fate)
    ensures FateFits(job, fate)
    ensures Persisted(job, fate) == FirstFrames(job, |job.frames|) + FinalItems(job, fate)
  {
    if |job.frames| == 0 {
      NothingFirst(job);
    } else if fate.Broken? && fate.at == |job.frames| + 1 {
      BrokenAtEnd(job, fate);
    } else {
      AllPersisted(job, fate);
      FinalRow(job);
    }
  }

  /** What is stored after the loop ran to its end. */
  lemma StoredAtEnd<Image>(events: S.Events, job: Job<Image>, luck: Luck, fate: Fate)
    requires Ends(job, luck, fate)
    ensures FateFits(job, fate)
    ensures S.PersistAll(events, Persisted(job, fate))
         == S.PersistAll(S.PersistAll(events, FirstFrames(job, |job.frames|)), FinalItems(job, fate))
  {
    EndIsFate(job, luck, fate);
    PersistedAtEnd(job, fate);
    PersistAppend(events, FirstFrames(job, |job.frames|), FinalItems(job, fate));
  }

  lemma CallsAtEnd<Image>(job: Job<Image>, luck: Luck, fate: Fate)
    requires Ends(job, luck, fate)
    ensures Reports(job, |job.frames|) + (if fate.Broken? then [Failure] else [Success]) == Calls(job, fate)
  {
    EndIsFate(job, luck, fate);
    var reports := Reports(job, |job.frames|);
    assert reports + [] == reports && reports + [Success] + [] == reports + [Success];
    if |job.frames| == 0 { assert reports == []; }
  }

  class VideoProcessingWorker {
    const store: S.ViolationEventStore

    constructor (store: S.ViolationEventStore)
      ensures this.store == store
    {
      this.store := store;
    }

    method PersistViolationTransitions(items: seq<S.Item>)
      modifies store
      ensures store.events == S.PersistAll(old(store.events), items)
    {
      if items != [] {
        var touched := store.PersistTransitions(items);
      }
    }

    /** The work on one frame, from its analysis to the report. */
    method ProcessFrame<Image>(job: Job<Image>, luck: Luck, n: nat, latest: Lease.Metrics)
      returns (fate: Fate, metrics: Lease.Metrics, calls: seq<Call>)
      requires 0 < n <= |job.frames| && latest == LatestMetrics(job, n - 1)
      modifies store
      ensures fate == FrameFate(job, luck, n)
      ensures store.events == S.PersistAll(old(store.events), StoredOf(Row(AnalysisAt(job, n)), fate))
      ensures fate.Broken? ==> calls == []
      ensures !fate.Broken? ==> metrics == LatestMetrics(job, n) && calls == if Due(job, n) then [Report(job, n)]
        else []
    {
      calls, metrics := [], latest;
      var processed := job.process(job.frames[..n]);
      var row := Row(processed.analysis);
      if luck.breaks(n).Some? {
        var stored := Least(luck.breaks(n).value, |row|);
        PersistViolationTransitions(row[..stored]);
        return Broken(n, stored), metrics, calls;
      }
      assert row[..|row|] == row;
      PersistViolationTransitions(row);
      if processed.metrics.Some? {
        metrics := processed.metrics.value;
      }
      if job.interval == 0 {
        return Broken(n, |row|), metrics, calls;
      }
      if n % job.interval == 0 || (job.expected.Some? && n >= job.expected.value) {
        calls := [Heartbeat(n, Percent(n, job.expected), metrics)];
        if !luck.owned(n) {
          return Lost(n), metrics, calls;
        }
      }
      fate := Going;
    }

    /** What is left to do after the last frame. */
    method Finish<Image>(job: Job<Image>, luck: Luck) returns (fate: Fate, calls: seq<Call>)
      modifies store
      ensures fate == FinalFate(job, luck)
      ensures var persisted := S.PersistAll(old(store.events), FinalItems(job, fate));
        store.events == Attached(persisted, job, fate)
      ensures calls == if fate.Broken? then [] else [Success]
    {
      var n := |job.frames|;
      calls := [];
      if n == 0 {
        return Broken(0, 0), calls;
      }
      var row := Row(FinalAnalysis(job));
      if luck.breaks(n + 1).Some? {
        var stored := Least(luck.breaks(n + 1).value, |row|);
        PersistViolationTransitions(row[..stored]);
        return Broken(n + 1, stored), calls;
      }
      PersistViolationTransitions(row);
      if job.preview.Some? {
        var changed := store.AttachPreviewToAll(job.preview.value);
      }
      if luck.breaks(n + 2).Some? {
        return Broken(n + 2, 0), calls;
      }
      if job.evidence != [] {
        var illustrated := store.AttachImagesToAll(job.evidence);
      }
      if luck.breaks(n + 3).Some? {
        return Broken(n + 3, 0), calls;
      }
      calls := [Success];
      fate := if luck.owned(n + 1) then Completed else Lost(n + 1);
    }

    /** One round of the loop, after n - 1 frames. */
    method Advance<Image>(ghost start: S.Events, job: Job<Image>, luck: Luck, n: nat, latest: Lease.Metrics)
      returns (fate: Fate, metrics: Lease.Metrics, calls: seq<Call>)
      requires 0 < n <= |job.frames| && latest == LatestMetrics(job, n - 1)
      requires FateAfter(job, luck, n - 1).Going? && store.events == S.PersistAll(start, FirstFrames(job, n - 1))
      modifies store
      ensures fate.Going? ==> FateAfter(job, luck, n).Going? && store.events == S.PersistAll(start, FirstFrames(job, n))
      ensures fate.Going? ==> metrics == LatestMetrics(job, n) && Reports(job, n - 1) + calls == Reports(job, n)
      ensures !fate.Going? ==>
        fate == FateOf(job, luck) && FateFits(job, fate) && store.events == After(start, job, fate)
      ensures !fate.Going? ==>
        Reports(job, n - 1) + calls + (if fate.Broken? then [Failure] else []) == Calls(job, fate)
    {
      fate, metrics, calls := ProcessFrame(job, luck, n, latest);
      if fate.Going? {
        GoesOn(start, job, n);
      } else {
        Stops(start, job, luck, n, fate);
      }
      CallsInFrame(job, luck, n, fate, calls);
    }

    /** The frame loop. */
    method DecodeAndProcess<Image>(job: Job<Image>, luck: Luck) returns (fate: Fate, calls: seq<Call>)
      modifies store
      ensures fate == FateOf(job, luck) && FateFits(job, fate)
      ensures store.events == After(old(store.events), job, fate)
      ensures calls + (if fate.Broken? then [Failure] else []) == Calls(job, fate)
    {
      calls := [];
      var n, metrics := 0, map[];
      while n < |job.frames|
        invariant n <= |job.frames| && FateAfter(job, luck, n).Going?
        invariant store.events == S.PersistAll(old(store.events), FirstFrames(job, n))
        invariant metrics == LatestMetrics(job, n) && calls == Reports(job, n)
      {
        var report;
        fate, metrics, report := Advance(old(store.events), job, luck, n + 1, metrics);
        calls := calls + report;
        if !fate.Going? {
          return;
        }
        n := n + 1;
      }
      var last;
      fate, last := Finish(job, luck);
      calls := calls + last;
      EndIsFate(job, luck, fate);
      StoredAtEnd(old(store.events), job, luck, fate);
      CallsAtEnd(job, luck, fate);
    }

    /** One attempt; an exception is recorded as a failure. */
    method ProcessJob<Image>(job: Job<Image>, luck: Luck) returns (fate: Fate, calls: seq<Call>)
      modifies store
      ensures fate == FateOf(job, luck) && FateFits(job, fate)
      ensures store.events == After(old(store.events), job, fate)
      ensures calls == Calls(job, fate)
    {
      fate, calls := DecodeAndProcess(job, luck);
      if fate.Broken? {
        calls := calls + [Failure];
      }
    }
  }

  // ---------------------------------------------------------------- what completes

  /** No exception, and the job is never lost. */
  ghost predicate Undisturbed(luck: Luck) {
    forall n: nat :: luck.breaks(n).None? && luck.owned(n)
  }

  lemma {:induction false} UndisturbedGoes<Image>(job: Job<Image>, luck: Luck, n: nat)
    requires Undisturbed(luck) && n <= |job.frames|
    ensures FateAfter(job, luck, n)
         == if n > 0 && job.interval == 0 then Broken(1, |Row(AnalysisAt(job, 1))|) else Going
  {
    if n > 0 { UndisturbedGoes(job, luck, n - 1); }
  }

  /** An undisturbed attempt completes if and only if there are frames and the progress interval is not
      zero.  With an interval of zero it always breaks off at the first frame, with that frame stored. */
  lemma {:induction false} CompletesExactly<Image>(job: Job<Image>, luck: Luck)
    requires Undisturbed(luck)
    ensures FateOf(job, luck).Completed? <==> |job.frames| > 0 && job.interval != 0
    ensures |job.frames| > 0 && job.interval == 0 ==> FateOf(job, luck) == Broken(1, |Row(AnalysisAt(job, 1))|)
    ensures |job.frames| == 0 ==> FateOf(job, luck) == Broken(0, 0)
  {
    UndisturbedGoes(job, luck, |job.frames|);
  }

  /** And no attempt at all completes with an interval of zero, whatever happens to it. */
  lemma {:induction false} ZeroIntervalNeverCompletes<Image>(job: Job<Image>, luck: Luck)
    requires job.interval == 0
    ensures FateOf(job, luck).Broken? && FateOf(job, luck).at <= 1
  {
    if |job.frames| > 0 { ZeroIntervalStops(job, luck, |job.frames|); }
  }

  lemma {:induction false} ZeroIntervalStops<Image>(job: Job<Image>, luck: Luck, n: nat)
    requires job.interval == 0 && 0 < n <= |job.frames|
    ensures FateAfter(job, luck, n).Broken? && FateAfter(job, luck, n).at == 1
  {
    if n > 1 { ZeroIntervalStops(job, luck, n - 1); }
  }

  // ---------------------------------------------------------------- reports

  lemma PercentInRange(n: nat, expected: Option<nat>)
    ensures 0.0 <= Percent(n, expected) <= 99.0
  {
    if expected.Some? && expected.value > 0 {
      assert n as real / expected.value as real >= 0.0;
    }
  }

  /** The reports on the first n frames: in order of their frames, on exactly the frames that are due,
      with a percentage that never reaches one hundred. */
  lemma {:induction false} ReportsExactly<Image>(job: Job<Image>, n: nat)
    requires n <= |job.frames|
    ensures var rs := Reports(job, n);
      && (forall i | 0 <= i < |rs| ::
            rs[i].Heartbeat? && 0 < rs[i].frame <= n && Due(job, rs[i].frame) && 0.0 <= rs[i].percent <= 99.0)
      && (forall i, j | 0 <= i < j < |rs| :: rs[i].frame < rs[j].frame)
      && forall m | 0 < m <= n && Due(job, m) :: Report(job, m) in rs
  {
    if n > 0 {
      ReportsExactly(job, n - 1);
      PercentInRange(n, job.expected);
    }
  }

  /** No `interval` frames go by without a report, so the lease is extended that often. */
  lemma LeaseExtended<Image>(job: Job<Image>, n: nat, m: nat) returns (k: nat)
    requires job.interval > 0 && job.interval <= m <= n <= |job.frames|
    ensures m - job.interval < k <= m && Report(job, k) in Reports(job, n)
  {
    k := m - m % job.interval;
    MultipleDivides(m, job.interval);
    ReportsExactly(job, n);
  }

  lemma MultipleDivides(m: nat, interval: int)
    requires interval > 0
    ensures (m - m % interval) % interval == 0 && (m >= interval ==> m - m % interval > 0)
  {
    var x, q := m - m % interval, m / interval;
    assert x == q * interval;
    var d := q - x / interval;
    assert x == x / interval * interval + x % interval;
    RemainderZero(d, interval, x % interval);
  }

  lemma RemainderZero(d: int, interval: int, r: int)
    requires 0 <= r < interval && d * interval == r
    ensures r == 0
  {
    ProductOutgrows(d, interval);
  }

  lemma ProductOutgrows(d: int, interval: int)
    requires interval > 0
    ensures d >= 1 ==> d * interval >= interval
    ensures d <= -1 ==> d * interval <= -interval
  {
    if d >= 1 {
      assert (d - 1) * interval >= 0;
    } else if d <= -1 {
      assert (-d - 1) * interval >= 0;
    }
  }

  /** The frame that the calls before the i-th one have reached. */
  ghost function FrameBefore(calls: seq<Call>, i: nat): nat
    requires i <= |calls|
  {
    if i > 0 && calls[i - 1].Heartbeat? then calls[i - 1].frame else 0
  }

  ghost function StepOf(c: Call, w: Lease.WorkerId, now: real, lease: real, version: string, metrics: Lease.Metrics,
                        error: string): P.Step {
    match c
    case Heartbeat(frame, percent, m) => P.Report(w, frame, now, lease, percent, version, m)
    case Success => P.Succeed(w, now, version, metrics)
    case Failure => P.Fail(w, now, error)
  }

  /** The transactions of an attempt are steps of the protocol: reports move forward within the video,
      and at most one final transaction follows them. */
  lemma {:induction false} CallsFollowProtocol<Image>(job: Job<Image>, fate: Fate, i: nat, s: P.System,
                                                      w: Lease.WorkerId, maximum: nat, now: real, lease: real,
                                                      version: string, metrics: Lease.Metrics, error: string)
    requires FateFits(job, fate) && i < |Calls(job, fate)|
    requires P.BusyWorker(s, w) && s.workers[w].frame == FrameBefore(Calls(job, fate), i)
    requires s.workers[w].job in s.db.jobs ==>
      var v := s.db.jobs[s.workers[w].job].video; v in s.lengths && s.lengths[v] == |job.frames|
    ensures P.Enabled(s, StepOf(Calls(job, fate)[i], w, now, lease, version, metrics, error), maximum)
    ensures Calls(job, fate)[i].Heartbeat? || i == |Calls(job, fate)| - 1
  {
    var n := match fate
      case Broken(n, _) => if n == 0 then 0 else Least(n - 1, |job.frames|)
      case Lost(n) => Least(n, |job.frames|)
      case _ => |job.frames|;
    ReportsExactly(job, n);
    assert Reports(job, n) <= Calls(job, fate);
    if i < |Reports(job, n)| { assert Calls(job, fate)[i] == Reports(job, n)[i]; }
  }

  /** A job is declared successful only after everything it found was stored and given its preview. */
  lemma SuccessMeansStored<Image>(job: Job<Image>, fate: Fate)
    requires FateFits(job, fate) && Success in Calls(job, fate)
    ensures Persisted(job, fate) == FullLog(job)
    ensures PreviewAttached(job, fate) && ImagesAttached(job, fate)
  {
    PersistedIsPrefix(job, fate);
    NoSuccessYet(job, match fate case Broken(n, _) => if n == 0 then 0 else Least(n - 1, |job.frames|)
                                 case Lost(n) => Least(n, |job.frames|)
                                 case _ => |job.frames|);
    if fate.Lost? && fate.at > |job.frames| {
      FirstFramesGrow(job, |job.frames| + 1);
    }
  }

  lemma NoSuccessYet<Image>(job: Job<Image>, n: nat)
    requires n <= |job.frames|
    ensures Success !in Reports(job, n)
  {
    ReportsExactly(job, n);
  }

  // ---------------------------------------------------------------- any number of attempts

  ghost predicate AllFit<Image>(job: Job<Image>, fates: seq<Fate>) {
    forall i | 0 <= i < |fates| :: FateFits(job, fates[i])
  }

  /** The table after attempts of these fates, one after another. */
  ghost function AfterAttempts<Image>(job: Job<Image>, fates: seq<Fate>): S.Events
    requires AllFit(job, fates)
  {
    if fates == [] then map[] else After(AfterAttempts(job, fates[..|fates| - 1]), job, fates[|fates| - 1])
  }

  ghost function Cuts<Image>(job: Job<Image>, fates: seq<Fate>): seq<nat>
    requires AllFit(job, fates)
  {
    seq(|fates|, i requires 0 <= i < |fates| => |Persisted(job, fates[i])|)
  }

  /** The events without previews and images. */
  function Plain(events: S.Events): S.Events {
    map k | k in events :: events[k].(preview := None, image := None)
  }

  lemma {:induction false} PersistIgnoresAttachments(events: S.Events, items: seq<S.Item>)
    ensures Plain(S.PersistAll(events, items)) == S.PersistAll(Plain(events), items)
  {
    if items != [] {
      var front, x := items[..|items| - 1], items[|items| - 1];
      PersistIgnoresAttachments(events, front);
      var before := S.PersistAll(events, front);
      S.PersistedIgnoresReview(Lookup(before, x.key), x);
      assert Lookup(Plain(before), x.key)
          == if x.key in before then Some(before[x.key].(preview := None, image := None)) else None;
    }
  }

  lemma PreviewHidden(events: S.Events, preview: Option<string>)
    ensures Plain(WithPreview(events, preview)) == Plain(events)
  {
  }

  lemma ImagesHidden(events: S.Events, evidence: seq<S.Evidence>)
    ensures Plain(WithImages(events, evidence)) == Plain(events)
  {
  }

  lemma AttachedIsPlain<Image>(events: S.Events, job: Job<Image>, fate: Fate)
    ensures Plain(Attached(events, job, fate)) == Plain(events)
  {
    PreviewHidden(events, job.preview);
    ImagesHidden(events, job.evidence);
    ImagesHidden(WithPreview(events, job.preview), job.evidence);
  }

  /** Nothing is attached that the job does not have. */
  ghost predicate Fitting(events: S.Events, preview: Option<string>, evidence: seq<S.Evidence>) {
    forall k | k in events ::
      (preview.None? ==> events[k].preview.None?) && (evidence == [] ==> events[k].image.None?)
  }

  lemma {:induction false} PersistFits(events: S.Events, items: seq<S.Item>, preview: Option<string>,
                                       evidence: seq<S.Evidence>)
    requires Fitting(events, preview, evidence)
    ensures Fitting(S.PersistAll(events, items), preview, evidence)
  {
    if items != [] {
      var front, x := items[..|items| - 1], items[|items| - 1];
      PersistFits(events, front, preview, evidence);
      S.PersistedIgnoresReview(Lookup(S.PersistAll(events, front), x.key), x);
    }
  }

  lemma AttachedFits<Image>(events: S.Events, job: Job<Image>, fate: Fate)
    requires Fitting(events, job.preview, job.evidence)
    ensures Fitting(Attached(events, job, fate), job.preview, job.evidence)
  {
  }

  lemma {:induction false} AttemptsFit<Image>(job: Job<Image>, fates: seq<Fate>)
    requires AllFit(job, fates)
    ensures Fitting(AfterAttempts(job, fates), job.preview, job.evidence)
  {
    if fates != [] {
      var front, last := fates[..|fates| - 1], fates[|fates| - 1];
      AttemptsFit(job, front);
      PersistFits(AfterAttempts(job, front), Persisted(job, last), job.preview, job.evidence);
      AttachedFits(S.PersistAll(AfterAttempts(job, front), Persisted(job, last)), job, last);
    }
  }

  /** What a completed attempt attaches covers everything attached before. */
  lemma CoversAll<Image>(events: S.Events, job: Job<Image>)
    requires Fitting(events, job.preview, job.evidence)
    ensures Attached(Plain(events), job, Completed) == Attached(events, job, Completed)
  {
  }

  lemma CutsFit<Image>(job: Job<Image>, fates: seq<Fate>)
    requires AllFit(job, fates)
    ensures forall i | 0 <= i < |fates| ::
      Cuts(job, fates)[i] <= |FullLog(job)| && FullLog(job)[..Cuts(job, fates)[i]] == Persisted(job, fates[i])
  {
    forall i | 0 <= i < |fates|
      ensures Cuts(job, fates)[i] <= |FullLog(job)| && FullLog(job)[..Cuts(job, fates)[i]] == Persisted(job, fates[i])
    {
      PersistedIsPrefix(job, fates[i]);
    }
  }

  ghost predicate CutsWithin(cuts: seq<nat>, items: seq<S.Item>) {
    forall i | 0 <= i < |cuts| :: cuts[i] <= |items|
  }

  lemma OneMoreAttempt(items: seq<S.Item>, cuts: seq<nat>)
    requires cuts != [] && CutsWithin(cuts, items)
    ensures S.Stored(S.Attempts(items, cuts))
         == S.PersistAll(S.Stored(S.Attempts(items, cuts[..|cuts| - 1])), items[..cuts[|cuts| - 1]])
  {
    PersistAppend(map[], S.Attempts(items, cuts[..|cuts| - 1]), items[..cuts[|cuts| - 1]]);
  }

  /** Attempts persist prefixes, one after another. */
  lemma {:induction false} AttemptsAreCuts<Image>(job: Job<Image>, fates: seq<Fate>)
    requires AllFit(job, fates) && CutsWithin(Cuts(job, fates), FullLog(job))
    ensures Plain(AfterAttempts(job, fates)) == S.Stored(S.Attempts(FullLog(job), Cuts(job, fates)))
  {
    if fates != [] {
      var front, last := fates[..|fates| - 1], fates[|fates| - 1];
      CutsFit(job, fates);
      assert Cuts(job, fates)[..|fates| - 1] == Cuts(job, front);
      AttemptsAreCuts(job, front);
      PersistIgnoresAttachments(AfterAttempts(job, front), Persisted(job, last));
      AttachedIsPlain(S.PersistAll(AfterAttempts(job, front), Persisted(job, last)), job, last);
      OneMoreAttempt(FullLog(job), Cuts(job, fates));
    }
  }

  /** A completed attempt settles the table: it is that of the full log, with preview and images. */
  lemma CompletedSettles<Image>(job: Job<Image>, fates: seq<Fate>)
    requires AllFit(job, fates) && FateFits(job, Completed)
    requires Plain(AfterAttempts(job, fates + [Completed])) == S.Stored(FullLog(job))
    ensures AfterAttempts(job, fates + [Completed]) == Attached(S.Stored(FullLog(job)), job, Completed)
  {
    var all := fates + [Completed];
    assert all[..|fates|] == fates;
    var persisted := S.PersistAll(AfterAttempts(job, fates), FullLog(job));
    AttemptsFit(job, fates);
    PersistFits(AfterAttempts(job, fates), FullLog(job), job.preview, job.evidence);
    AttachedIsPlain(persisted, job, Completed);
    CoversAll(persisted, job);
  }

  /** However many attempts at a job were broken off, by exceptions at any point of any frame or
      by a lost lease, after one complete attempt the table of events is that of a single one. */
  lemma {:induction false} AttemptsLeaveNoTrace<Image>(job: Job<Image>, fates: seq<Fate>, d: Detectors, name: string,
                                                       camera: Option<int>)
    requires AllFit(job, fates) && FateFits(job, Completed)
    requires K.Identifier(name) && FromDetectors(Work(job), d, name, camera)
    ensures AfterAttempts(job, fates + [Completed]) == AfterAttempts(job, [Completed])
  {
    SettledBy(job, fates, d, name, camera);
    SettledBy(job, [], d, name, camera);
    assert [] + [Completed] == [Completed];
    CompletedSettles(job, fates);
    CompletedSettles(job, []);
  }

  lemma CutsOfCompleted<Image>(job: Job<Image>, fates: seq<Fate>)
    requires AllFit(job, fates) && FateFits(job, Completed)
    ensures AllFit(job, fates + [Completed])
    ensures Cuts(job, fates + [Completed]) == Cuts(job, fates) + [|FullLog(job)|]
  {
  }

  lemma CompletedCut(items: seq<S.Item>, cuts: seq<nat>)
    requires CutsWithin(cuts, items)
    ensures CutsWithin(cuts + [|items|], items)
    ensures S.Attempts(items, cuts + [|items|]) == S.Attempts(items, cuts) + items
  {
    assert (cuts + [|items|])[..|cuts|] == cuts && items[..|items|] == items;
  }

  lemma SettledBy<Image>(job: Job<Image>, fates: seq<Fate>, d: Detectors, name: string, camera: Option<int>)
    requires AllFit(job, fates) && FateFits(job, Completed)
    requires K.Identifier(name) && FromDetectors(Work(job), d, name, camera)
    ensures AllFit(job, fates + [Completed])
    ensures Plain(AfterAttempts(job, fates + [Completed])) == S.Stored(FullLog(job))
  {
    CutsFit(job, fates);
    CutsOfCompleted(job, fates);
    CompletedCut(FullLog(job), Cuts(job, fates));
    AttemptsAreCuts(job, fates + [Completed]);
    JobRetriesLeaveNoTrace(Work(job), d, name, camera, Cuts(job, fates));
  }
}
