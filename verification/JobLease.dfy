/** The job table and the operations that workers perform on it, each one transaction. */
module JobLease {
  import opened Collections
  import B = Boxes

  type JobId = nat
  type VideoId = nat
  type WorkerId = nat
  type Metrics = map<string, string>

  datatype Status = Queued | Running | Succeeded | Failed | Cancelled

  datatype VideoStatus = Uploaded | VideoQueued | Processing | Completed | VideoFailed

  datatype Job = Job(
    video: VideoId, status: Status, progress: real, priority: int, attempts: nat, lastFrame: int,
    worker: Option<WorkerId>, claimedAt: Option<real>, heartbeatAt: Option<real>, leaseExpiresAt: Option<real>,
    startedAt: Option<real>, completedAt: Option<real>, error: Option<string>,
    version: Option<string>, metrics: Metrics)

  datatype Db = Db(jobs: map<JobId, Job>, videos: map<VideoId, VideoStatus>)

  const EXPIRED_FINALLY := "Worker lease expired after the maximum number of attempts."
  const EXPIRED_REQUEUED := "Previous worker lease expired. The job was returned to the queue."
  const ERROR_LIMIT: nat := 4000

  function Truncated(s: string): string {
    if |s| <= ERROR_LIMIT then s else s[..ERROR_LIMIT]
  }

  // ---------------------------------------------------------------- one row

  function NewJob(video: VideoId, priority: int): Job {
    Job(video, Queued, 0.0, priority, 0, 0, None, None, None, None, None, None, None, None, map[])
  }

  function Claimed(j: Job, w: WorkerId, now: real, lease: real): Job {
    j.(status := Running, worker := Some(w), claimedAt := Some(now), heartbeatAt := Some(now),
       leaseExpiresAt := Some(now + lease), attempts := j.attempts + 1, progress := 0.0, lastFrame := 0,
       error := None, startedAt := if j.startedAt.None? then Some(now) else j.startedAt)
  }

  function Progressed(j: Job, now: real, lease: real, progress: real, frame: int, version: string,
                      metrics: Metrics): Job {
    j.(progress := B.Limit(progress, 0.0, 99.0), lastFrame := if frame < 0 then 0 else frame,
       heartbeatAt := Some(now), leaseExpiresAt := Some(now + lease),
       version := Some(version), metrics := j.metrics + metrics)
  }

  function Finished(j: Job, now: real, version: string, metrics: Metrics): Job {
    j.(status := Succeeded, progress := 100.0, completedAt := Some(now), heartbeatAt := Some(now),
       leaseExpiresAt := None, error := None, version := Some(version), metrics := j.metrics + metrics)
  }

  function FailedOrRequeued(j: Job, now: real, error: string, maximum: nat): Job {
    var k := j.(error := Some(Truncated(error)), heartbeatAt := Some(now), leaseExpiresAt := None);
    if j.attempts < maximum then
      k.(status := Queued, progress := 0.0, lastFrame := 0, worker := None, claimedAt := None, heartbeatAt := None)
    else
      k.(status := Failed, completedAt := Some(now))
  }

  function Recovered(j: Job, now: real, maximum: nat): Job {
    var k := if j.attempts >= maximum then
               j.(status := Failed, completedAt := Some(now), error := Some(EXPIRED_FINALLY))
             else
               j.(status := Queued, progress := 0.0, lastFrame := 0, error := Some(EXPIRED_REQUEUED));
    k.(worker := None, claimedAt := None, heartbeatAt := None, leaseExpiresAt := None)
  }

  // ---------------------------------------------------------------- the table

  /** The status of a video follows the status of its job. */
  function VideoOf(s: Status): VideoStatus {
    match s
    case Queued => VideoQueued
    case Running => Processing
    case Succeeded => Completed
    case Failed => VideoFailed
    case Cancelled => VideoFailed
  }

  /** Stores a row and, if its video exists, the video's status. */
  function Store(db: Db, id: JobId, j: Job): Db {
    Db(db.jobs[id := j], if j.video in db.videos then db.videos[j.video := VideoOf(j.status)] else db.videos)
  }

  predicate Claimable(db: Db, id: JobId, maximum: nat) {
    id in db.jobs && db.jobs[id].status == Queued && db.jobs[id].attempts < maximum
  }

  /** The ownership check: by worker and status, not by attempt. */
  predicate Owned(db: Db, id: JobId, w: WorkerId) {
    id in db.jobs && db.jobs[id].worker == Some(w) && db.jobs[id].status == Running
  }

  predicate Expired(db: Db, id: JobId, now: real) {
    id in db.jobs && db.jobs[id].status == Running
    && db.jobs[id].leaseExpiresAt.Some? && db.jobs[id].leaseExpiresAt.value < now
  }

  function RecoverOne(db: Db, id: JobId, now: real, maximum: nat): Db {
    if id in db.jobs then Store(db, id, Recovered(db.jobs[id], now, maximum)) else db
  }

  function RecoverAll(db: Db, ids: seq<JobId>, now: real, maximum: nat): Db {
    if ids == [] then db else RecoverOne(RecoverAll(db, ids[..|ids| - 1], now, maximum), ids[|ids| - 1], now, maximum)
  }

  ghost predicate Distinct(ids: seq<JobId>) {
    forall i, j | 0 <= i < j < |ids| :: ids[i] != ids[j]
  }

  class ProcessingJobRepository {
    var jobs: map<JobId, Job>
    var videos: map<VideoId, VideoStatus>

    ghost function Value(): Db
      reads this
    {
      Db(jobs, videos)
    }

    constructor ()
      ensures Value() == Db(map[], map[])
    {
      jobs, videos := map[], map[];
    }

    method SetVideo(v: VideoId, s: VideoStatus)
      modifies `videos
      ensures videos == if v in old(videos) then old(videos)[v := s] else old(videos)
    {
      if v in videos {
        videos := videos[v := s];
      }
    }

    /** Requeues or fails the rows that the query for expired leases returned. */
    method RecoverExpired(now: real, maximum: nat, selected: seq<JobId>) returns (count: nat)
      requires Distinct(selected) && forall i | 0 <= i < |selected| :: Expired(Value(), selected[i], now)
      modifies this
      ensures Value() == RecoverAll(old(Value()), selected, now, maximum) && count == |selected|
    {
      for i := 0 to |selected|
        invariant Value() == RecoverAll(old(Value()), selected[..i], now, maximum)
        invariant jobs.Keys == old(jobs).Keys
      {
        assert selected[..i + 1][..i] == selected[..i];
        assert Expired(old(Value()), selected[i], now);
        RecoverRow(selected[i], now, maximum);
      }
      assert selected[..|selected|] == selected;
      count := |selected|;
    }

    method RecoverRow(id: JobId, now: real, maximum: nat)
      requires id in jobs
      modifies this
      ensures Value() == RecoverOne(old(Value()), id, now, maximum)
    {
      var job := jobs[id];
      if job.attempts >= maximum {
        job := job.(status := Failed, completedAt := Some(now), error := Some(EXPIRED_FINALLY));
        SetVideo(job.video, VideoFailed);
      } else {
        job := job.(status := Queued, progress := 0.0, lastFrame := 0, error := Some(EXPIRED_REQUEUED));
        SetVideo(job.video, VideoQueued);
      }
      jobs := jobs[id := job.(worker := None, claimedAt := None, heartbeatAt := None, leaseExpiresAt := None)];
    }

    /** Claims the row that the queue query returned, if any. */
    method ClaimNext(w: WorkerId, now: real, lease: real, maximum: nat, selected: Option<JobId>)
      returns (claimed: Option<JobId>)
      requires selected.Some? ==> Claimable(Value(), selected.value, maximum)
      modifies this
      ensures claimed == selected
      ensures selected.None? ==> Value() == old(Value())
      ensures selected.Some? ==>
        Value() == Store(old(Value()), selected.value, Claimed(old(jobs)[selected.value], w, now, lease))
    {
      if selected.None? {
        return None;
      }
      var id := selected.value;
      var job := jobs[id];
      job := job.(status := Running, worker := Some(w), claimedAt := Some(now), heartbeatAt := Some(now));
      job := job.(leaseExpiresAt := Some(now + lease), attempts := job.attempts + 1);
      job := job.(progress := 0.0, lastFrame := 0, error := None);
      if job.startedAt.None? {
        job := job.(startedAt := Some(now));
      }
      jobs := jobs[id := job];
      SetVideo(job.video, Processing);
      claimed := selected;
    }

    /** Stores progress and extends the lease; false if the worker has lost the job. */
    method UpdateProgress(id: JobId, w: WorkerId, now: real, lease: real, progress: real, frame: int,
                          version: string, metrics: Metrics) returns (ok: bool)
      modifies this
      ensures ok == old(Owned(Value(), id, w))
      ensures !ok ==> Value() == old(Value())
      ensures videos == old(videos)
      ensures ok ==>
        jobs == old(jobs)[id := Progressed(old(jobs)[id], now, lease, progress, frame, version, metrics)]
    {
      ok := OwnedRunning(id, w);
      if !ok {
        return;
      }
      var job := jobs[id];
      job := job.(progress := B.Limit(progress, 0.0, 99.0), lastFrame := if frame < 0 then 0 else frame);
      job := job.(heartbeatAt := Some(now), leaseExpiresAt := Some(now + lease));
      job := job.(version := Some(version), metrics := job.metrics + metrics);
      jobs := jobs[id := job];
    }

    method MarkSucceeded(id: JobId, w: WorkerId, now: real, version: string, metrics: Metrics) returns (ok: bool)
      modifies this
      ensures ok == old(Owned(Value(), id, w))
      ensures !ok ==> Value() == old(Value())
      ensures ok ==> Value() == Store(old(Value()), id, Finished(old(jobs)[id], now, version, metrics))
    {
      ok := OwnedRunning(id, w);
      if !ok {
        return;
      }
      var job := jobs[id];
      job := job.(status := Succeeded, progress := 100.0, completedAt := Some(now), heartbeatAt := Some(now));
      job := job.(leaseExpiresAt := None, error := None, version := Some(version), metrics := job.metrics + metrics);
      jobs := jobs[id := job];
      SetVideo(job.video, Completed);
    }

    method MarkFailedOrRetry(id: JobId, w: WorkerId, now: real, error: string, maximum: nat) returns (ok: bool)
      modifies this
      ensures ok == old(Owned(Value(), id, w))
      ensures !ok ==> Value() == old(Value())
      ensures ok ==> Value() == Store(old(Value()), id, FailedOrRequeued(old(jobs)[id], now, error, maximum))
    {
      ok := OwnedRunning(id, w);
      if !ok {
        return;
      }
      var job := jobs[id];
      job := job.(error := Some(Truncated(error)), heartbeatAt := Some(now), leaseExpiresAt := None);
      if job.attempts < maximum {
        job := job.(status := Queued, progress := 0.0, lastFrame := 0, worker := None, claimedAt := None,
          heartbeatAt := None);
        SetVideo(job.video, VideoQueued);
      } else {
        job := job.(status := Failed, completedAt := Some(now));
        SetVideo(job.video, VideoFailed);
      }
      jobs := jobs[id := job];
    }

    method OwnedRunning(id: JobId, w: WorkerId) returns (owned: bool)
      ensures owned == Owned(Value(), id, w)
    {
      owned := id in jobs && jobs[id].worker == Some(w) && jobs[id].status == Running;
    }
  }
}
