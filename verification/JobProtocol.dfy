/** Every interleaving of workers claiming, processing, losing and recovering jobs.

    A worker is a process with an id of its own that handles one job at a time.  Every step
    below is one transaction on the job table or a change inside one process. */
module JobProtocol {
  import opened Collections
  import opened JobLease

  /** A busy worker believes to be in a certain attempt at its job, some frames into the video. */
  datatype Worker = Idle | Busy(job: JobId, attempt: nat, frame: nat)

  datatype System = System(
    db: Db, workers: map<WorkerId, Worker>, usedWorkers: set<WorkerId>,
    usedJobs: set<JobId>, usedVideos: set<VideoId>, lengths: map<VideoId, nat>)

  datatype Step =
    | Start(w: WorkerId)
    | Crash(w: WorkerId)
    | Ingest(id: JobId, video: VideoId, priority: int, length: nat)
    | Claim(w: WorkerId, id: JobId, now: real, lease: real)
    | ClaimUnheard(w: WorkerId, id: JobId, now: real, lease: real)
    | Report(w: WorkerId, frame: nat, now: real, lease: real, progress: real, version: string, metrics: Metrics)
    | Succeed(w: WorkerId, now: real, version: string, metrics: Metrics)
    | Fail(w: WorkerId, now: real, error: string)
    | Abandon(w: WorkerId)
    | Recover(ids: seq<JobId>, now: real)
    | Delete(video: VideoId)

  predicate IdleWorker(s: System, w: WorkerId) {
    w in s.workers && s.workers[w].Idle?
  }

  predicate BusyWorker(s: System, w: WorkerId) {
    w in s.workers && s.workers[w].Busy?
  }

  /** No job of the video is queued or running. */
  ghost predicate Inactive(s: System, video: VideoId) {
    forall id | id in s.db.jobs && s.db.jobs[id].video == video ::
      s.db.jobs[id].status != Queued && s.db.jobs[id].status != Running
  }

  ghost predicate Enabled(s: System, x: Step, maximum: nat) {
    match x
    case Start(w) => w !in s.usedWorkers
    case Crash(w) => w in s.workers
    case Ingest(id, video, _, _) => id !in s.usedJobs && video !in s.usedVideos
    case Claim(w, id, _, _) => IdleWorker(s, w) && Claimable(s.db, id, maximum)
    case ClaimUnheard(w, id, _, _) => IdleWorker(s, w) && Claimable(s.db, id, maximum)
    case Report(w, frame, _, _, _, _, _) =>
      && BusyWorker(s, w) && s.workers[w].frame < frame
      && (s.workers[w].job in s.db.jobs ==>
            var v := s.db.jobs[s.workers[w].job].video; v in s.lengths && frame <= s.lengths[v])
    case Succeed(w, _, _, _) => BusyWorker(s, w)
    case Fail(w, _, _) => BusyWorker(s, w)
    case Abandon(w) => BusyWorker(s, w)
    case Recover(ids, now) => Distinct(ids) && forall i | 0 <= i < |ids| :: Expired(s.db, ids[i], now)
    case Delete(video) => video in s.db.videos && Inactive(s, video)
  }

  /** What a busy worker writes goes to the row only if the ownership check passes. */
  function Write(s: System, w: WorkerId, change: Job -> Job, next: Worker): System
    requires BusyWorker(s, w)
  {
    var id := s.workers[w].job;
    if Owned(s.db, id, w) then
      s.(db := Store(s.db, id, change(s.db.jobs[id])), workers := s.workers[w := next])
    else
      s.(workers := s.workers[w := Idle])
  }

  ghost function Next(s: System, x: Step, maximum: nat): System
    requires Enabled(s, x, maximum)
  {
    match x
    case Start(w) => s.(workers := s.workers[w := Idle], usedWorkers := s.usedWorkers + {w})
    case Crash(w) => s.(workers := s.workers - {w})
    case Ingest(id, video, priority, length) =>
      s.(db := Db(s.db.jobs[id := NewJob(video, priority)], s.db.videos[video := VideoQueued]),
         usedJobs := s.usedJobs + {id}, usedVideos := s.usedVideos + {video}, lengths := s.lengths[video := length])
    case Claim(w, id, now, lease) =>
      var j := Claimed(s.db.jobs[id], w, now, lease);
      s.(db := Store(s.db, id, j), workers := s.workers[w := Busy(id, j.attempts, 0)])
    case ClaimUnheard(w, id, now, lease) =>
      s.(db := Store(s.db, id, Claimed(s.db.jobs[id], w, now, lease)))
    case Report(w, frame, now, lease, progress, version, metrics) =>
      Write(s, w, (j: Job) => Progressed(j, now, lease, progress, frame, version, metrics),
        s.workers[w].(frame := frame))
    case Succeed(w, now, version, metrics) =>
      Write(s, w, (j: Job) => Finished(j, now, version, metrics), Idle)
    case Fail(w, now, error) =>
      Write(s, w, (j: Job) => FailedOrRequeued(j, now, error, maximum), Idle)
    case Abandon(w) => s.(workers := s.workers[w := Idle])
    case Recover(ids, now) => s.(db := RecoverAll(s.db, ids, now, maximum))
    case Delete(video) =>
      s.(db := Db(map id | id in s.db.jobs && s.db.jobs[id].video != video :: s.db.jobs[id],
                  map v | v in s.db.videos && v != video :: s.db.videos[v]))
  }

  // ---------------------------------------------------------------- what every step keeps

  predicate Terminal(st: Status) {
    st == Succeeded || st == Failed
  }

  /** A row agrees with itself, with the bounds on attempts and frames, and with its video. */
  ghost predicate RowSound(j: Job, videos: map<VideoId, VideoStatus>, lengths: map<VideoId, nat>, maximum: nat) {
    && j.video in videos && videos[j.video] == VideoOf(j.status) && j.status != Cancelled
    && j.video in lengths && 0 <= j.lastFrame <= lengths[j.video]
    && j.attempts <= maximum
    && (j.leaseExpiresAt.Some? <==> j.status == Running)
    && (j.completedAt.Some? <==> Terminal(j.status))
    && (if j.status == Succeeded then j.progress == 100.0 else 0.0 <= j.progress <= 99.0)
    && (j.status == Queued ==>
          && j.attempts < maximum && j.worker.None? && j.claimedAt.None? && j.heartbeatAt.None?
          && j.progress == 0.0 && j.lastFrame == 0)
    && (j.status == Running ==> j.worker.Some? && j.claimedAt.Some? && j.heartbeatAt.Some? && j.attempts > 0)
    && (j.status == Failed ==> j.attempts == maximum)
  }

  /** Lease fencing: a worker that still passes the ownership check is in the row's own attempt. */
  ghost predicate Fenced(s: System, w: WorkerId) {
    w in s.workers && s.workers[w].Busy? && Owned(s.db, s.workers[w].job, w) ==>
      && s.workers[w].attempt == s.db.jobs[s.workers[w].job].attempts
      && s.workers[w].frame == s.db.jobs[s.workers[w].job].lastFrame
  }

  ghost predicate RowsSound(s: System, maximum: nat) {
    && (forall id | id in s.db.jobs :: RowSound(s.db.jobs[id], s.db.videos, s.lengths, maximum))
    && (forall id | id in s.db.jobs :: id in s.usedJobs)
    && (forall v | v in s.db.videos :: v in s.usedVideos)
    && (forall id | id in s.db.jobs && s.db.jobs[id].worker.Some? :: s.db.jobs[id].worker.value in s.usedWorkers)
    && (forall a, b | a in s.db.jobs && b in s.db.jobs && a != b :: s.db.jobs[a].video != s.db.jobs[b].video)
  }

  ghost predicate WorkersSound(s: System) {
    && (forall w | w in s.workers :: w in s.usedWorkers)
    && (forall w | w in s.workers && s.workers[w].Busy? :: s.workers[w].job in s.usedJobs)
    && forall w | w in s.workers :: Fenced(s, w)
  }

  ghost predicate Sound(s: System, maximum: nat) {
    RowsSound(s, maximum) && WorkersSound(s)
  }

  /** Replacing one row by a sound one with the same video and a known worker. */
  lemma StoreRowsSound(s: System, id: JobId, j: Job, maximum: nat)
    requires RowsSound(s, maximum) && id in s.db.jobs && j.video == s.db.jobs[id].video
    requires RowSound(j, s.db.videos[j.video := VideoOf(j.status)], s.lengths, maximum)
    requires j.worker.Some? ==> j.worker.value in s.usedWorkers
    ensures RowsSound(s.(db := Store(s.db, id, j)), maximum)
  {
    var t := s.(db := Store(s.db, id, j));
    forall k | k in t.db.jobs
      ensures RowSound(t.db.jobs[k], t.db.videos, t.lengths, maximum)
    {
      if k != id { assert s.db.jobs[k].video != s.db.jobs[id].video; }
    }
  }

  lemma RecoveredRowSound(j: Job, videos: map<VideoId, VideoStatus>, lengths: map<VideoId, nat>, now: real,
                          maximum: nat)
    requires RowSound(j, videos, lengths, maximum) && j.status == Running
    ensures var k := Recovered(j, now, maximum);
      RowSound(k, videos[k.video := VideoOf(k.status)], lengths, maximum)
  {
  }

  lemma ClaimedRowSound(j: Job, videos: map<VideoId, VideoStatus>, lengths: map<VideoId, nat>, w: WorkerId,
                        now: real, lease: real, maximum: nat)
    requires RowSound(j, videos, lengths, maximum) && j.status == Queued
    ensures var k := Claimed(j, w, now, lease);
      RowSound(k, videos[k.video := VideoOf(k.status)], lengths, maximum)
  {
  }

  lemma ProgressedRowSound(j: Job, videos: map<VideoId, VideoStatus>, lengths: map<VideoId, nat>, now: real,
                           lease: real, progress: real, frame: nat, version: string, metrics: Metrics, maximum: nat)
    requires RowSound(j, videos, lengths, maximum) && j.status == Running && frame <= lengths[j.video]
    ensures var k := Progressed(j, now, lease, progress, frame, version, metrics);
      RowSound(k, videos[k.video := VideoOf(k.status)], lengths, maximum)
  {
  }

  lemma FinishedRowSound(j: Job, videos: map<VideoId, VideoStatus>, lengths: map<VideoId, nat>, now: real,
                         version: string, metrics: Metrics, maximum: nat)
    requires RowSound(j, videos, lengths, maximum) && j.status == Running
    ensures var k := Finished(j, now, version, metrics);
      RowSound(k, videos[k.video := VideoOf(k.status)], lengths, maximum)
  {
  }

  lemma FailedRowSound(j: Job, videos: map<VideoId, VideoStatus>, lengths: map<VideoId, nat>, now: real,
                       error: string, maximum: nat)
    requires RowSound(j, videos, lengths, maximum) && j.status == Running
    ensures var k := FailedOrRequeued(j, now, error, maximum);
      RowSound(k, videos[k.video := VideoOf(k.status)], lengths, maximum)
  {
  }

  /** A row that is not running, or belongs to another worker, fences a worker out. */
  lemma StoreFences(s: System, id: JobId, j: Job, w: WorkerId)
    requires Fenced(s, w) && (j.status != Running || j.worker != Some(w))
    ensures Fenced(s.(db := Store(s.db, id, j)), w)
  {
  }

  lemma RecoverOneSound(s: System, id: JobId, now: real, maximum: nat)
    requires Sound(s, maximum) && id in s.db.jobs && s.db.jobs[id].status == Running
    ensures Sound(s.(db := RecoverOne(s.db, id, now, maximum)), maximum)
  {
    var j := s.db.jobs[id];
    RecoveredRowSound(j, s.db.videos, s.lengths, now, maximum);
    StoreRowsSound(s, id, Recovered(j, now, maximum), maximum);
    forall w | w in s.workers
      ensures Fenced(s.(db := RecoverOne(s.db, id, now, maximum)), w)
    {
      StoreFences(s, id, Recovered(j, now, maximum), w);
    }
  }

  /** Recovery touches exactly the selected rows. */
  lemma {:induction false} RecoverAllAt(db: Db, ids: seq<JobId>, now: real, maximum: nat, id: JobId)
    requires Distinct(ids) && forall i | 0 <= i < |ids| :: ids[i] in db.jobs
    ensures id in RecoverAll(db, ids, now, maximum).jobs <==> id in db.jobs
    ensures id in db.jobs ==>
      RecoverAll(db, ids, now, maximum).jobs[id] ==
      if id in ids then Recovered(db.jobs[id], now, maximum) else db.jobs[id]
  {
    if ids != [] {
      var front, last := ids[..|ids| - 1], ids[|ids| - 1];
      assert ids == front + [last];
      RecoverAllAt(db, front, now, maximum, id);
      RecoverAllAt(db, front, now, maximum, last);
    }
  }

  lemma {:induction false} RecoverAllSound(s: System, ids: seq<JobId>, now: real, maximum: nat)
    requires Sound(s, maximum) && Distinct(ids)
    requires forall i | 0 <= i < |ids| :: ids[i] in s.db.jobs && s.db.jobs[ids[i]].status == Running
    ensures Sound(s.(db := RecoverAll(s.db, ids, now, maximum)), maximum)
  {
    if ids != [] {
      var front, last := ids[..|ids| - 1], ids[|ids| - 1];
      RecoverAllSound(s, front, now, maximum);
      RecoverAllAt(s.db, front, now, maximum, last);
      var t := s.(db := RecoverAll(s.db, front, now, maximum));
      RecoverOneSound(t, last, now, maximum);
    }
  }

  lemma ClaimSound(s: System, w: WorkerId, id: JobId, now: real, lease: real, maximum: nat, next: Worker)
    requires Sound(s, maximum) && IdleWorker(s, w) && Claimable(s.db, id, maximum)
    requires next == Idle || next == Busy(id, s.db.jobs[id].attempts + 1, 0)
    ensures var j := Claimed(s.db.jobs[id], w, now, lease);
      Sound(s.(db := Store(s.db, id, j), workers := s.workers[w := next]), maximum)
  {
    var j := Claimed(s.db.jobs[id], w, now, lease);
    ClaimedRowSound(s.db.jobs[id], s.db.videos, s.lengths, w, now, lease, maximum);
    StoreRowsSound(s, id, j, maximum);
    var t := s.(db := Store(s.db, id, j), workers := s.workers[w := next]);
    forall x | x in t.workers
      ensures Fenced(t, x)
    {
      if x != w {
        assert Fenced(s, x);
        StoreFences(s, id, j, x);
      }
    }
  }

  lemma WriteSound(s: System, w: WorkerId, change: Job -> Job, next: Worker, maximum: nat)
    requires Sound(s, maximum) && BusyWorker(s, w)
    requires Owned(s.db, s.workers[w].job, w) ==>
      (var j, k := s.db.jobs[s.workers[w].job], change(s.db.jobs[s.workers[w].job]);
       && k.video == j.video && k.attempts == j.attempts && (k.worker == j.worker || k.worker.None?)
       && RowSound(k, s.db.videos[k.video := VideoOf(k.status)], s.lengths, maximum)
       && (next == Idle || next == s.workers[w].(frame := k.lastFrame)))
    ensures Sound(Write(s, w, change, next), maximum)
  {
    var id := s.workers[w].job;
    if Owned(s.db, id, w) {
      var k := change(s.db.jobs[id]);
      StoreRowsSound(s, id, k, maximum);
      assert Fenced(s, w);
      forall x | x in s.workers
        ensures Fenced(Write(s, w, change, next), x)
      {
        if x != w {
          StoreFences(s, id, k, x);
        }
      }
    }
  }

  lemma DeleteSound(s: System, video: VideoId, maximum: nat)
    requires Sound(s, maximum)
    ensures Sound(s.(db := Db(map id | id in s.db.jobs && s.db.jobs[id].video != video :: s.db.jobs[id],
                              map v | v in s.db.videos && v != video :: s.db.videos[v])), maximum)
  {
    var t := s.(db := Db(map id | id in s.db.jobs && s.db.jobs[id].video != video :: s.db.jobs[id],
                         map v | v in s.db.videos && v != video :: s.db.videos[v]));
    forall w | w in s.workers ensures Fenced(t, w) { assert Fenced(s, w); }
  }

  lemma IngestSound(s: System, id: JobId, video: VideoId, priority: int, length: nat, maximum: nat)
    requires Sound(s, maximum) && maximum > 0 && id !in s.usedJobs && video !in s.usedVideos
    ensures Sound(Next(s, Ingest(id, video, priority, length), maximum), maximum)
  {
    var t := Next(s, Ingest(id, video, priority, length), maximum);
    forall k | k in t.db.jobs
      ensures RowSound(t.db.jobs[k], t.db.videos, t.lengths, maximum)
    {
      if k != id { assert s.db.jobs[k].video in s.db.videos; }
    }
    forall a, b | a in t.db.jobs && b in t.db.jobs && a != b
      ensures t.db.jobs[a].video != t.db.jobs[b].video
    {
      if a != id { assert s.db.jobs[a].video in s.db.videos; }
      if b != id { assert s.db.jobs[b].video in s.db.videos; }
    }
    forall w | w in t.workers ensures Fenced(t, w) { assert Fenced(s, w); }
  }

  lemma ReportSound(s: System, x: Step, maximum: nat)
    requires Sound(s, maximum) && x.Report? && Enabled(s, x, maximum)
    ensures Sound(Next(s, x, maximum), maximum)
  {
    var id := s.workers[x.w].job;
    if Owned(s.db, id, x.w) {
      ProgressedRowSound(s.db.jobs[id], s.db.videos, s.lengths, x.now, x.lease, x.progress, x.frame, x.version,
        x.metrics, maximum);
    }
    WriteSound(s, x.w, (j: Job) => Progressed(j, x.now, x.lease, x.progress, x.frame, x.version, x.metrics),
               s.workers[x.w].(frame := x.frame), maximum);
  }

  lemma EndSound(s: System, x: Step, maximum: nat)
    requires Sound(s, maximum) && (x.Succeed? || x.Fail?) && Enabled(s, x, maximum)
    ensures Sound(Next(s, x, maximum), maximum)
  {
    var id := s.workers[x.w].job;
    if x.Succeed? {
      if Owned(s.db, id, x.w) {
        FinishedRowSound(s.db.jobs[id], s.db.videos, s.lengths, x.now, x.version, x.metrics, maximum);
      }
      WriteSound(s, x.w, (j: Job) => Finished(j, x.now, x.version, x.metrics), Idle, maximum);
    } else {
      if Owned(s.db, id, x.w) {
        FailedRowSound(s.db.jobs[id], s.db.videos, s.lengths, x.now, x.error, maximum);
      }
      WriteSound(s, x.w, (j: Job) => FailedOrRequeued(j, x.now, x.error, maximum), Idle, maximum);
    }
  }

  lemma ProcessSound(s: System, x: Step, maximum: nat)
    requires Sound(s, maximum) && (x.Start? || x.Crash? || x.Abandon?) && Enabled(s, x, maximum)
    ensures Sound(Next(s, x, maximum), maximum)
  {
    forall w | w in Next(s, x, maximum).workers
      ensures Fenced(Next(s, x, maximum), w)
    {
      if w in s.workers { assert Fenced(s, w); }
    }
  }

  /** Every step of every process keeps the table and the workers sound. */
  lemma {:induction false} StepSound(s: System, x: Step, maximum: nat)
    requires Sound(s, maximum) && maximum > 0 && Enabled(s, x, maximum)
    ensures Sound(Next(s, x, maximum), maximum)
  {
    match x
    case Start(_) => ProcessSound(s, x, maximum);
    case Crash(_) => ProcessSound(s, x, maximum);
    case Abandon(_) => ProcessSound(s, x, maximum);
    case Ingest(id, video, priority, length) => IngestSound(s, id, video, priority, length, maximum);
    case Claim(w, id, now, lease) => ClaimSound(s, w, id, now, lease, maximum, Busy(id, s.db.jobs[id].attempts + 1, 0));
    case ClaimUnheard(w, id, now, lease) =>
      ClaimSound(s, w, id, now, lease, maximum, Idle);
      assert s.workers[w := Idle] == s.workers;
    case Report(_, _, _, _, _, _, _) => ReportSound(s, x, maximum);
    case Succeed(_, _, _, _) => EndSound(s, x, maximum);
    case Fail(_, _, _) => EndSound(s, x, maximum);
    case Recover(ids, now) => RecoverAllSound(s, ids, now, maximum);
    case Delete(video) => DeleteSound(s, video, maximum);
  }

  // ---------------------------------------------------------------- fencing

  predicate WorkerWrites(x: Step) {
    x.Report? || x.Succeed? || x.Fail?
  }

  function Writer(x: Step): WorkerId
    requires WorkerWrites(x)
  {
    match x
    case Report(w, _, _, _, _, _, _) => w
    case Succeed(w, _, _, _) => w
    case Fail(w, _, _) => w
  }

  /** A worker is superseded when its job has moved on: deleted, no longer running, in another
      worker's hands, or in a later attempt. */
  ghost predicate Superseded(s: System, w: WorkerId)
    requires BusyWorker(s, w)
  {
    var id := s.workers[w].job;
    || id !in s.db.jobs
    || s.db.jobs[id].status != Running
    || s.db.jobs[id].worker != Some(w)
    || s.db.jobs[id].attempts != s.workers[w].attempt
  }

  /** Although the check does not look at the attempt, what a superseded worker tries to write
      changes neither job nor video, and the worker gives up; and a worker that is not
      superseded is never turned away. */
  lemma {:induction false} SupersededWritesNothing(s: System, x: Step, maximum: nat)
    requires Sound(s, maximum) && WorkerWrites(x) && Enabled(s, x, maximum)
    ensures Superseded(s, Writer(x)) <==> !Owned(s.db, s.workers[Writer(x)].job, Writer(x))
    ensures Superseded(s, Writer(x)) ==>
      Next(s, x, maximum).db == s.db && Next(s, x, maximum).workers[Writer(x)] == Idle
    ensures !Superseded(s, Writer(x)) ==> Next(s, x, maximum).db != s.db
  {
    var w := Writer(x);
    assert Fenced(s, w);
    if !Superseded(s, w) {
      var id := s.workers[w].job;
      assert RowSound(s.db.jobs[id], s.db.videos, s.lengths, maximum);
      assert Next(s, x, maximum).db.jobs[id] != s.db.jobs[id];
    }
  }

  // ---------------------------------------------------------------- whole runs

  ghost predicate Behaves(states: seq<System>, steps: seq<Step>, maximum: nat) {
    && |states| == |steps| + 1
    && states[0] == System(Db(map[], map[]), map[], {}, {}, {}, map[])
    && forall i | 0 <= i < |steps| ::
      Enabled(states[i], steps[i], maximum) && states[i + 1] == Next(states[i], steps[i], maximum)
  }

  lemma {:induction false} ReachableSound(states: seq<System>, steps: seq<Step>, maximum: nat)
    requires Behaves(states, steps, maximum) && maximum > 0
    ensures Sound(states[|steps|], maximum)
  {
    if steps != [] {
      var n := |steps| - 1;
      ReachableSound(states[..n + 1], steps[..n], maximum);
      StepSound(states[n], steps[n], maximum);
    }
  }

  predicate ClaimOf(x: Step, id: JobId) {
    match x
    case Claim(_, j, _, _) => j == id
    case ClaimUnheard(_, j, _, _) => j == id
    case _ => false
  }

  /** How often the job was claimed. */
  ghost function Claims(steps: seq<Step>, id: JobId): nat {
    if steps == [] then 0
    else Claims(steps[..|steps| - 1], id) + if ClaimOf(steps[|steps| - 1], id) then 1 else 0
  }

  /** What one step does to one row. */
  lemma RowAfter(s: System, x: Step, maximum: nat, id: JobId)
    requires Sound(s, maximum) && Enabled(s, x, maximum)
    ensures var t := Next(s, x, maximum);
      && (id in s.db.jobs && id in t.db.jobs ==>
            && t.db.jobs[id].attempts == s.db.jobs[id].attempts + (if ClaimOf(x, id) then 1 else 0)
            && t.db.jobs[id].video == s.db.jobs[id].video
            && (Terminal(s.db.jobs[id].status) ==> t.db.jobs[id] == s.db.jobs[id]))
      && (id !in s.db.jobs && id in t.db.jobs ==> id !in s.usedJobs && t.db.jobs[id].attempts == 0 && x.Ingest?)
      && (id !in t.db.jobs ==> !ClaimOf(x, id))
      && s.usedJobs <= t.usedJobs
  {
    if x.Recover? {
      RecoverAllAt(s.db, x.ids, x.now, maximum, id);
    }
  }

  /** A job is claimed at most `maximum` times, however often workers crash or lose it. */
  lemma {:induction false} ClaimsBounded(states: seq<System>, steps: seq<Step>, maximum: nat, id: JobId)
    requires Behaves(states, steps, maximum) && maximum > 0
    ensures Claims(steps, id) <= maximum
    ensures id in states[|steps|].db.jobs ==> states[|steps|].db.jobs[id].attempts == Claims(steps, id)
    ensures id !in states[|steps|].usedJobs ==> Claims(steps, id) == 0
  {
    ReachableSound(states, steps, maximum);
    if steps != [] {
      var n := |steps| - 1;
      ClaimsBounded(states[..n + 1], steps[..n], maximum, id);
      ReachableSound(states[..n + 1], steps[..n], maximum);
      RowAfter(states[n], steps[n], maximum, id);
      var s, t := states[n], states[n + 1];
      if id in t.db.jobs { assert RowSound(t.db.jobs[id], t.db.videos, t.lengths, maximum); }
    }
  }

  // ---------------------------------------------------------------- progress

  function Rank(st: Status): nat {
    match st
    case Running => 2
    case Queued => 1
    case _ => 0
  }

  /** Attempts left, then status, then frames left. */
  datatype Measure = Measure(attempts: int, rank: nat, frames: int)

  ghost function MeasureOf(j: Job, lengths: map<VideoId, nat>, maximum: nat): Measure {
    Measure(maximum - j.attempts, Rank(j.status), (if j.video in lengths then lengths[j.video] else 0) - j.lastFrame)
  }

  ghost predicate Less(a: Measure, b: Measure) {
    || a.attempts < b.attempts
    || (a.attempts == b.attempts && a.rank < b.rank)
    || (a.attempts == b.attempts && a.rank == b.rank && a.frames < b.frames)
  }

  ghost predicate NonNegative(m: Measure) {
    m.attempts >= 0 && m.frames >= 0
  }

  lemma MeasureNotNegative(s: System, maximum: nat, id: JobId)
    requires Sound(s, maximum) && id in s.db.jobs
    ensures NonNegative(MeasureOf(s.db.jobs[id], s.lengths, maximum))
  {
    assert RowSound(s.db.jobs[id], s.db.videos, s.lengths, maximum);
  }

  /** A row is left alone, or its measure is lower than before. */
  ghost predicate Closer(before: System, after: System, maximum: nat, id: JobId) {
    id in before.db.jobs && id in after.db.jobs ==>
      var j, k := before.db.jobs[id], after.db.jobs[id];
      if k == j then MeasureOf(k, after.lengths, maximum) == MeasureOf(j, before.lengths, maximum)
      else Less(MeasureOf(k, after.lengths, maximum), MeasureOf(j, before.lengths, maximum))
  }

  lemma ProcessProgress(s: System, x: Step, maximum: nat, id: JobId)
    requires (x.Start? || x.Crash? || x.Abandon? || x.Delete?) && Enabled(s, x, maximum)
    ensures Closer(s, Next(s, x, maximum), maximum, id)
  {
  }

  lemma IngestProgress(s: System, x: Step, maximum: nat, id: JobId)
    requires Sound(s, maximum) && x.Ingest? && Enabled(s, x, maximum)
    ensures Closer(s, Next(s, x, maximum), maximum, id)
  {
    if id in s.db.jobs { LengthsKept(s, x.video, id, maximum); }
  }

  lemma RecoverProgress(s: System, x: Step, maximum: nat, id: JobId)
    requires Sound(s, maximum) && x.Recover? && Enabled(s, x, maximum)
    ensures Closer(s, Next(s, x, maximum), maximum, id)
  {
    RecoverAllAt(s.db, x.ids, x.now, maximum, id);
  }

  lemma ClaimProgress(s: System, x: Step, maximum: nat, id: JobId)
    requires (x.Claim? || x.ClaimUnheard?) && Enabled(s, x, maximum)
    ensures Closer(s, Next(s, x, maximum), maximum, id)
  {
  }

  lemma EndProgress(s: System, x: Step, maximum: nat, id: JobId)
    requires Sound(s, maximum) && (x.Succeed? || x.Fail?) && Enabled(s, x, maximum)
    ensures Closer(s, Next(s, x, maximum), maximum, id)
  {
  }

  lemma ReportProgress(s: System, x: Step, maximum: nat, id: JobId)
    requires Sound(s, maximum) && x.Report? && Enabled(s, x, maximum)
    ensures Closer(s, Next(s, x, maximum), maximum, id)
  {
    assert Fenced(s, x.w);
  }

  /** Every step leaves a row alone or brings it strictly closer to its end; the measure has
      no negative parts, so no job can go on forever. */
  lemma {:induction false} StepsMakeProgress(s: System, x: Step, maximum: nat, id: JobId)
    requires Sound(s, maximum) && maximum > 0 && Enabled(s, x, maximum)
    ensures Closer(s, Next(s, x, maximum), maximum, id)
    ensures id in s.db.jobs ==> NonNegative(MeasureOf(s.db.jobs[id], s.lengths, maximum))
  {
    if id in s.db.jobs { MeasureNotNegative(s, maximum, id); }
    match x
    case Start(_) => ProcessProgress(s, x, maximum, id);
    case Crash(_) => ProcessProgress(s, x, maximum, id);
    case Abandon(_) => ProcessProgress(s, x, maximum, id);
    case Delete(_) => ProcessProgress(s, x, maximum, id);
    case Ingest(_, _, _, _) => IngestProgress(s, x, maximum, id);
    case Claim(_, _, _, _) => ClaimProgress(s, x, maximum, id);
    case ClaimUnheard(_, _, _, _) => ClaimProgress(s, x, maximum, id);
    case Report(_, _, _, _, _, _, _) => ReportProgress(s, x, maximum, id);
    case Succeed(_, _, _, _) => EndProgress(s, x, maximum, id);
    case Fail(_, _, _) => EndProgress(s, x, maximum, id);
    case Recover(_, _) => RecoverProgress(s, x, maximum, id);
  }

  /** A new video does not change the length of one that has a job. */
  lemma LengthsKept(s: System, video: VideoId, id: JobId, maximum: nat)
    requires Sound(s, maximum) && id in s.db.jobs && video !in s.usedVideos
    ensures s.db.jobs[id].video != video
  {
    assert RowSound(s.db.jobs[id], s.db.videos, s.lengths, maximum);
  }

  /** No job is ever stuck: a queued one can be claimed by any idle worker, and a running one can
      be recovered once its lease has expired. */
  lemma {:induction false} NeverStuck(s: System, maximum: nat, id: JobId, w: WorkerId, now: real, lease: real)
    requires Sound(s, maximum) && id in s.db.jobs && !Terminal(s.db.jobs[id].status)
    ensures s.db.jobs[id].status == Queued && IdleWorker(s, w) ==> Enabled(s, Claim(w, id, now, lease), maximum)
    ensures s.db.jobs[id].status == Running && now > s.db.jobs[id].leaseExpiresAt.value
      ==> Enabled(s, Recover([id], now), maximum)
    ensures s.db.jobs[id].status == Queued || s.db.jobs[id].status == Running
  {
    assert RowSound(s.db.jobs[id], s.db.videos, s.lengths, maximum);
  }

  // ---------------------------------------------------------------- deletion

  /** Once no job of a known video is queued or running, that stays so under all steps, so the
      check before deletion cannot be overtaken. */
  lemma InactiveStays(s: System, x: Step, maximum: nat, video: VideoId)
    requires Sound(s, maximum) && Enabled(s, x, maximum)
    requires video in s.usedVideos && Inactive(s, video)
    ensures Inactive(Next(s, x, maximum), video) && video in Next(s, x, maximum).usedVideos
  {
    var t := Next(s, x, maximum);
    forall id | id in t.db.jobs && t.db.jobs[id].video == video
      ensures t.db.jobs[id].status != Queued && t.db.jobs[id].status != Running
    {
      RowAfter(s, x, maximum, id);
      if id in s.db.jobs {
        assert RowSound(s.db.jobs[id], s.db.videos, s.lengths, maximum);
      }
    }
  }

  lemma {:induction false} InactiveForever(states: seq<System>, steps: seq<Step>, maximum: nat, from: nat,
                                           video: VideoId)
    requires Behaves(states, steps, maximum) && maximum > 0 && from <= |steps|
    requires video in states[from].usedVideos && Inactive(states[from], video)
    ensures Inactive(states[|steps|], video) && video in states[|steps|].usedVideos
  {
    if from < |steps| {
      var n := |steps| - 1;
      InactiveForever(states[..n + 1], steps[..n], maximum, from, video);
      ReachableSound(states[..n + 1], steps[..n], maximum);
      InactiveStays(states[n], steps[n], maximum, video);
    }
  }
}
