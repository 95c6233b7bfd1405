/** Workers, job table and event table together: what is written for one job when attempts at it can be
    superseded at any time, and writing events is not covered by the ownership check. */
module JobSystem {
  import opened Collections
  import Lease = JobLease
  import P = JobProtocol
  import S = EventStore

  /** `written` is everything persisted for the job so far, in order; `parts` is what each attempt at it has
      persisted, and `part` says which of them is a worker's own. */
  datatype State = State(
    system: P.System, written: seq<S.Item>, parts: seq<seq<S.Item>>, part: map<Lease.WorkerId, nat>)

  datatype Step = Protocol(step: P.Step) | Persist(w: Lease.WorkerId)

  /** The job, all that a complete attempt persists for it, and how often it may be claimed. */
  datatype Job = Job(id: Lease.JobId, items: seq<S.Item>, maximum: nat)

  predicate WorksOn(s: State, w: Lease.WorkerId, id: Lease.JobId) {
    P.BusyWorker(s.system, w) && s.system.workers[w].job == id
  }

  predicate HasPart(s: State, w: Lease.WorkerId) {
    w in s.part && s.part[w] < |s.parts|
  }

  /** What the worker has persisted in its attempt. */
  function Own(s: State, w: Lease.WorkerId): seq<S.Item>
    requires HasPart(s, w)
  {
    s.parts[s.part[w]]
  }

  /** A worker declares success only after it has persisted everything. */
  ghost predicate Enabled(s: State, x: Step, job: Job) {
    match x
    case Protocol(step) =>
      && P.Enabled(s.system, step, job.maximum)
      && (step.Succeed? && WorksOn(s, step.w, job.id) ==> HasPart(s, step.w) && Own(s, step.w) == job.items)
    case Persist(w) => WorksOn(s, w, job.id) && HasPart(s, w) && |Own(s, w)| < |job.items|
  }

  /** Persisting asks nobody. */
  ghost function Next(s: State, x: Step, job: Job): State
    requires Enabled(s, x, job)
  {
    match x
    case Protocol(step) =>
      var t := s.(system := P.Next(s.system, step, job.maximum));
      if StartsPart(step, job) then t.(parts := s.parts + [[]], part := s.part[step.w := |s.parts|]) else t
    case Persist(w) =>
      var item := job.items[|Own(s, w)|];
      s.(written := s.written + [item], parts := s.parts[s.part[w] := Own(s, w) + [item]])
  }

  /** What the job's writes have left in the table. */
  ghost function Table(s: State): S.Events {
    S.Stored(s.written)
  }

  ghost predicate SomeAttemptComplete(s: State, job: Job) {
    exists p :: 0 <= p < |s.parts| && s.parts[p] == job.items
  }

  ghost predicate Succeeded(s: State, job: Job) {
    job.id in s.system.db.jobs && s.system.db.jobs[job.id].status == Lease.Succeeded
  }

  ghost predicate Sound(s: State, job: Job) {
    && P.Sound(s.system, job.maximum)
    && S.Interleaves(s.written, s.parts) && S.Prefixes(s.parts, job.items)
    && PartsFit(s, job.id)
    && (Succeeded(s, job) ==> SomeAttemptComplete(s, job))
  }

  // ---------------------------------------------------------------- what every step keeps

  lemma {:induction false} NewPart(w: seq<S.Item>, parts: seq<seq<S.Item>>)
    requires S.Interleaves(w, parts)
    ensures S.Interleaves(w, parts + [[]])
  {
    if w != [] {
      var p: nat :| S.LastOf(w, parts, p) && S.Interleaves(w[..|w| - 1], S.Shorter(parts, p));
      NewPart(w[..|w| - 1], S.Shorter(parts, p));
      assert S.Shorter(parts + [[]], p) == S.Shorter(parts, p) + [[]];
      assert S.LastOf(w, parts + [[]], p);
    }
  }

  /** What a step of the protocol does to who works on the job, and when it can make the job a success. */
  lemma WorkersChange(s: State, step: P.Step, job: Job)
    requires P.Sound(s.system, job.maximum) && P.Enabled(s.system, step, job.maximum)
    ensures var t := s.(system := P.Next(s.system, step, job.maximum));
      && (forall w | WorksOn(t, w, job.id) ::
        WorksOn(s, w, job.id) || (step.Claim? && step.id == job.id && step.w == w))
      && (step.Claim? ==> !P.BusyWorker(s.system, step.w))
      && (Succeeded(t, job) && !Succeeded(s, job) ==> step.Succeed? && WorksOn(s, step.w, job.id))
  {
    if step.Recover? {
      P.RecoverAllAt(s.system.db, step.ids, step.now, job.maximum, job.id);
    }
  }

  /** A claim of the job starts a part of its own. */
  ghost predicate StartsPart(step: P.Step, job: Job) {
    step.Claim? && step.id == job.id
  }

  /** Who works on the job has a part, and nobody shares it. */
  ghost predicate PartsFit(s: State, id: Lease.JobId) {
    && (forall w | WorksOn(s, w, id) :: HasPart(s, w))
    && (forall v, w | WorksOn(s, v, id) && WorksOn(s, w, id) && v != w :: s.part[v] != s.part[w])
  }

  lemma PartsKept(s: State, t: State, id: Lease.JobId)
    requires PartsFit(s, id) && |t.parts| == |s.parts| && t.part == s.part
    requires forall w | WorksOn(t, w, id) :: WorksOn(s, w, id)
    ensures PartsFit(t, id)
  {
    forall w | WorksOn(t, w, id) ensures HasPart(t, w) { assert WorksOn(s, w, id); }
    forall v, w | WorksOn(t, v, id) && WorksOn(t, w, id) && v != w
      ensures t.part[v] != t.part[w]
    {
      assert WorksOn(s, v, id) && WorksOn(s, w, id);
    }
  }

  lemma PartsGrow(s: State, t: State, id: Lease.JobId, w: Lease.WorkerId)
    requires PartsFit(s, id) && !WorksOn(s, w, id)
    requires t.parts == s.parts + [[]] && t.part == s.part[w := |s.parts|]
    requires forall v | WorksOn(t, v, id) :: WorksOn(s, v, id) || v == w
    ensures PartsFit(t, id)
  {
    forall v | WorksOn(t, v, id) && v != w
      ensures HasPart(t, v) && t.part[v] < |s.parts|
    {
      assert WorksOn(s, v, id) && HasPart(s, v);
    }
    forall v, u | WorksOn(t, v, id) && WorksOn(t, u, id) && v != u
      ensures t.part[v] != t.part[u]
    {
      if v != w && u != w { assert WorksOn(s, v, id) && WorksOn(s, u, id); }
    }
  }

  lemma ProtocolParts(s: State, step: P.Step, job: Job)
    requires Sound(s, job) && Enabled(s, Protocol(step), job)
    ensures PartsFit(Next(s, Protocol(step), job), job.id)
  {
    WorkersChange(s, step, job);
    if StartsPart(step, job) {
      PartsGrow(s, Next(s, Protocol(step), job), job.id, step.w);
    } else {
      PartsKept(s, Next(s, Protocol(step), job), job.id);
    }
  }

  lemma ProtocolWrites(s: State, step: P.Step, job: Job)
    requires Sound(s, job) && Enabled(s, Protocol(step), job)
    ensures var t := Next(s, Protocol(step), job);
      S.Interleaves(t.written, t.parts) && S.Prefixes(t.parts, job.items)
  {
    NewPart(s.written, s.parts);
  }

  lemma ProtocolSound(s: State, step: P.Step, job: Job)
    requires job.maximum > 0 && Sound(s, job) && Enabled(s, Protocol(step), job)
    ensures Sound(Next(s, Protocol(step), job), job)
  {
    P.StepSound(s.system, step, job.maximum);
    ProtocolParts(s, step, job);
    ProtocolWrites(s, step, job);
    WorkersChange(s, step, job);
    SuccessComplete(s, step, job);
  }

  lemma SuccessComplete(s: State, step: P.Step, job: Job)
    requires Sound(s, job) && Enabled(s, Protocol(step), job)
    ensures Succeeded(Next(s, Protocol(step), job), job) ==> SomeAttemptComplete(Next(s, Protocol(step), job), job)
  {
    WorkersChange(s, step, job);
    var t := Next(s, Protocol(step), job);
    if Succeeded(t, job) {
      CompleteKept(s, t, step, job);
    }
  }

  lemma CompleteKept(s: State, t: State, step: P.Step, job: Job)
    requires Sound(s, job) && Enabled(s, Protocol(step), job) && t == Next(s, Protocol(step), job)
    requires Succeeded(s, job) || (step.Succeed? && WorksOn(s, step.w, job.id))
    ensures SomeAttemptComplete(t, job)
  {
    if Succeeded(s, job) {
      var p :| 0 <= p < |s.parts| && s.parts[p] == job.items;
      assert t.parts[p] == job.items;
    } else {
      assert t.parts[s.part[step.w]] == job.items;
    }
  }

  lemma PersistWrites(s: State, w: Lease.WorkerId, job: Job)
    requires Sound(s, job) && Enabled(s, Persist(w), job)
    ensures var t := Next(s, Persist(w), job);
      S.Interleaves(t.written, t.parts) && S.Prefixes(t.parts, job.items)
  {
    var own := Own(s, w);
    S.GoOn(s.written, s.parts, s.part[w], [job.items[|own|]]);
    assert own + [job.items[|own|]] == job.items[..|own| + 1];
  }

  lemma PersistComplete(s: State, w: Lease.WorkerId, job: Job)
    requires Enabled(s, Persist(w), job) && SomeAttemptComplete(s, job)
    ensures SomeAttemptComplete(Next(s, Persist(w), job), job)
  {
    var p :| 0 <= p < |s.parts| && s.parts[p] == job.items;
    assert Next(s, Persist(w), job).parts[p] == job.items;
  }

  lemma PersistSound(s: State, w: Lease.WorkerId, job: Job)
    requires Sound(s, job) && Enabled(s, Persist(w), job)
    ensures Sound(Next(s, Persist(w), job), job)
  {
    PersistWrites(s, w, job);
    PartsKept(s, Next(s, Persist(w), job), job.id);
    if Succeeded(s, job) { PersistComplete(s, w, job); }
  }

  ghost predicate Behaves(states: seq<State>, steps: seq<Step>, job: Job) {
    && |states| == |steps| + 1
    && states[0] == State(P.System(Lease.Db(map[], map[]), map[], {}, {}, {}, map[]), [], [], map[])
    && forall i | 0 <= i < |steps| ::
      Enabled(states[i], steps[i], job) && states[i + 1] == Next(states[i], steps[i], job)
  }

  /** In every reachable state the writes of a job are an interleaving of prefixes, one for each attempt,
      and a successful job has a complete one among them. */
  lemma {:induction false} ReachableSound(states: seq<State>, steps: seq<Step>, job: Job)
    requires Behaves(states, steps, job) && job.maximum > 0
    ensures Sound(states[|steps|], job)
  {
    if steps != [] {
      var n := |steps| - 1;
      ReachableSound(states[..n + 1], steps[..n], job);
      match steps[n]
      case Protocol(step) => ProtocolSound(states[n], step, job);
      case Persist(w) => PersistSound(states[n], w, job);
    }
  }

  // ---------------------------------------------------------------- the table of a job

  /** In every reachable state: the table is that of a single run if and only if, under every key of the
      job, the last write so far was the last transition of its episode. */
  lemma {:induction false} TableExactly(states: seq<State>, steps: seq<Step>, job: Job)
    requires Behaves(states, steps, job) && job.maximum > 0 && S.Episodic(job.items)
    ensures Table(states[|steps|]) == S.Stored(job.items) <==> S.LastWritten(states[|steps|].written, job.items)
  {
    ReachableSound(states, steps, job);
    var s := states[|steps|];
    S.MixedAttemptsExactly(s.written, s.parts, job.items);
  }

  /** A successful job has all of its events, whatever else was written. */
  lemma {:induction false} SuccessHasEvents(states: seq<State>, steps: seq<Step>, job: Job, i: nat)
    requires Behaves(states, steps, job) && job.maximum > 0
    requires Succeeded(states[|steps|], job) && i < |job.items|
    ensures job.items[i].key in Table(states[|steps|])
  {
    ReachableSound(states, steps, job);
    var s := states[|steps|];
    var p :| 0 <= p < |s.parts| && s.parts[p] == job.items;
    S.InterleavedHas(s.written, s.parts, p, job.items[i]);
    S.KeysAlone(s.written, job.items[i].key);
    S.OfKeyNonempty(s.written, job.items[i].key);
    var j :| 0 <= j < |s.written| && s.written[j] == job.items[i];
  }

  lemma WholeAttemptInterleaves(written: seq<S.Item>, parts: seq<seq<S.Item>>, items: seq<S.Item>)
    requires S.Interleaves(written, parts)
    ensures S.Interleaves(written + items, parts + [items])
  {
    NewPart(written, parts);
    S.GoOn(written, parts + [[]], |parts|, items);
    var nothing: seq<S.Item> := [];
    assert nothing + items == items && (parts + [nothing])[|parts| := items] == parts + [items];
  }

  /** Whatever earlier attempts have mixed, an attempt that runs to its end alone settles the table. */
  lemma {:induction false} LastAttemptAlone(states: seq<State>, steps: seq<Step>, job: Job)
    requires Behaves(states, steps, job) && job.maximum > 0 && S.Episodic(job.items)
    ensures S.Stored(states[|steps|].written + job.items) == S.Stored(job.items)
  {
    ReachableSound(states, steps, job);
    var s := states[|steps|];
    WholeAttemptInterleaves(s.written, s.parts, job.items);
    S.MixedAttemptsExactly(s.written + job.items, s.parts + [job.items], job.items);
    forall k: S.Key
      ensures S.OfKey(s.written + job.items, k) == S.OfKey(s.written, k) + S.OfKey(job.items, k)
    {
      S.OfKeyAppend(s.written, job.items, k);
    }
  }

  /** After a success only superseded workers can change the table.  If it is that of a single run, a step
      leaves it alone exactly unless such a worker writes a transition that is not the last of its episode. */
  lemma {:induction false} AfterSuccess(s: State, x: Step, job: Job)
    requires Sound(s, job) && Enabled(s, x, job) && S.Episodic(job.items)
    requires Succeeded(s, job) && Table(s) == S.Stored(job.items)
    ensures x.Persist? ==> P.Superseded(s.system, x.w)
    ensures Table(Next(s, x, job)) == S.Stored(job.items) <==>
      (x.Persist? ==> S.LastOfKey(job.items, job.items[|Own(s, x.w)|]))
  {
    if x.Persist? {
      OneMoreWrite(s, x.w, job);
    }
  }

  lemma OneMoreWrite(s: State, w: Lease.WorkerId, job: Job)
    requires Sound(s, job) && Enabled(s, Persist(w), job) && S.Episodic(job.items)
    requires Table(s) == S.Stored(job.items)
    ensures Table(Next(s, Persist(w), job)) == S.Stored(job.items) <==> S.LastOfKey(job.items, job.items[|Own(s, w)|])
  {
    var item, t := job.items[|Own(s, w)|], Next(s, Persist(w), job);
    PersistSound(s, w, job);
    S.MixedAttemptsExactly(s.written, s.parts, job.items);
    S.MixedAttemptsExactly(t.written, t.parts, job.items);
    LastAfter(s.written, item, job.items);
  }

  lemma LastAfter(written: seq<S.Item>, item: S.Item, items: seq<S.Item>)
    requires S.LastWritten(written, items) && item in items
    ensures S.LastWritten(written + [item], items) <==> S.LastOfKey(items, item)
  {
    forall k: S.Key
      ensures S.OfKey(written + [item], k) == S.OfKey(written, k) + if item.key == k then [item] else []
    {
      S.OfKeyAppend(written, [item], k);
      S.OfOne(item, k);
    }
    S.MembersOfKey(items, item.key, item);
  }

  // ---------------------------------------------------------------- a run that leaves a trace

  const START := State(P.System(Lease.Db(map[], map[]), map[], {}, {}, {}, map[]), [], [], map[])

  /** One job on one video, and two workers. */
  function System(row: Lease.Job, first: P.Worker, second: P.Worker): P.System {
    P.System(Lease.Db(map[0 := row], map[0 := Lease.VideoOf(row.status)]), map[1 := first, 2 := second],
             {1, 2}, {0}, {0}, map[0 := 1])
  }

  const QUEUED := Lease.NewJob(0, 0)
  const CLAIMED := Lease.Claimed(QUEUED, 1, 0.0, 1.0)

  function Requeued(maximum: nat): Lease.Job {
    Lease.Recovered(CLAIMED, 2.0, maximum)
  }

  function Reclaimed(maximum: nat): Lease.Job {
    Lease.Claimed(Requeued(maximum), 2, 2.0, 1.0)
  }

  function Finished(maximum: nat): Lease.Job {
    Lease.Finished(Reclaimed(maximum), 3.0, "", map[])
  }

  const FIRST := P.Busy(0, 1, 0)
  const SECOND := P.Busy(0, 2, 0)

  lemma Opening(job: Job) returns (states: seq<State>, steps: seq<Step>)
    requires job.id == 0 && job.maximum >= 2
    ensures Behaves(states, steps, job) && states[|steps|] == State(System(QUEUED, P.Idle, P.Idle), [], [], map[])
  {
    states, steps := [START], [];
    states, steps := Extend(states, steps, Protocol(P.Start(1)), job);
    states, steps := Extend(states, steps, Protocol(P.Start(2)), job);
    states, steps := Extend(states, steps, Protocol(P.Ingest(0, 0, 0, 1)), job);
    assert states[|steps|].system == System(QUEUED, P.Idle, P.Idle);
  }

  lemma Extend(states: seq<State>, steps: seq<Step>, x: Step, job: Job) returns (longer: seq<State>, more: seq<Step>)
    requires Behaves(states, steps, job) && Enabled(states[|steps|], x, job)
    ensures longer == states + [Next(states[|steps|], x, job)] && more == steps + [x]
    ensures Behaves(longer, more, job) && longer[|more|] == Next(states[|steps|], x, job)
  {
    longer, more := states + [Next(states[|steps|], x, job)], steps + [x];
  }

  function Opened(): State {
    State(System(QUEUED, P.Idle, P.Idle), [], [], map[])
  }

  function ClaimedOnce(): State {
    State(System(CLAIMED, FIRST, P.Idle), [], [[]], map[1 := 0])
  }

  function Expired(maximum: nat): State {
    State(System(Requeued(maximum), FIRST, P.Idle), [], [[]], map[1 := 0])
  }

  /** The second worker has the job, both believe so, and this much has been written. */
  function Contested(maximum: nat, written: seq<S.Item>, first: seq<S.Item>, second: seq<S.Item>): State {
    State(System(Reclaimed(maximum), FIRST, SECOND), written, [first, second], map[1 := 0, 2 := 1])
  }

  function Done(maximum: nat, written: seq<S.Item>, first: seq<S.Item>, second: seq<S.Item>): State {
    State(System(Finished(maximum), FIRST, P.Idle), written, [first, second], map[1 := 0, 2 := 1])
  }

  lemma FirstClaims(job: Job)
    requires job.id == 0 && job.maximum >= 2
    ensures var x := Protocol(P.Claim(1, 0, 0.0, 1.0));
      && Enabled(Opened(), x, job)
      && Next(Opened(), x, job) == ClaimedOnce()
  {
    var t := Next(Opened(), Protocol(P.Claim(1, 0, 0.0, 1.0)), job);
    assert t.system == System(CLAIMED, FIRST, P.Idle);
  }

  lemma LeaseExpires(job: Job)
    requires job.id == 0 && job.maximum >= 2
    ensures var x := Protocol(P.Recover([0], 2.0));
      && Enabled(ClaimedOnce(), x, job)
      && Next(ClaimedOnce(), x, job) == Expired(job.maximum)
  {
    var db := ClaimedOnce().system.db;
    assert [0][..0] == [] && Lease.RecoverAll(db, [], 2.0, job.maximum) == db;
    assert Lease.RecoverAll(db, [0], 2.0, job.maximum) == Lease.RecoverOne(db, 0, 2.0, job.maximum);
    var t := Next(ClaimedOnce(), Protocol(P.Recover([0], 2.0)), job);
    assert t.system == System(Requeued(job.maximum), FIRST, P.Idle);
  }

  lemma SecondClaims(job: Job)
    requires job.id == 0 && job.maximum >= 2
    ensures var x := Protocol(P.Claim(2, 0, 2.0, 1.0));
      Enabled(Expired(job.maximum), x, job) && Next(Expired(job.maximum), x, job) == Contested(job.maximum, [], [], [])
  {
    var t := Next(Expired(job.maximum), Protocol(P.Claim(2, 0, 2.0, 1.0)), job);
    assert t.system == System(Reclaimed(job.maximum), FIRST, SECOND);
    assert t.part == map[1 := 0, 2 := 1];
  }

  lemma SecondPersists(job: Job, written: seq<S.Item>, second: seq<S.Item>)
    requires job.id == 0 && |second| < |job.items|
    ensures var x, item := Persist(2), job.items[|second|];
      && Enabled(Contested(job.maximum, written, [], second), x, job)
      && Next(Contested(job.maximum, written, [], second), x, job)
        == Contested(job.maximum, written + [item], [], second + [item])
  {
  }

  lemma SecondSucceeds(job: Job, written: seq<S.Item>)
    requires job.id == 0 && job.maximum >= 2
    ensures var x := Protocol(P.Succeed(2, 3.0, "", map[]));
      && Enabled(Contested(job.maximum, written, [], job.items), x, job)
      && Next(Contested(job.maximum, written, [], job.items), x, job) == Done(job.maximum, written, [], job.items)
  {
    var t := Next(Contested(job.maximum, written, [], job.items), Protocol(P.Succeed(2, 3.0, "", map[])), job);
    assert t.system == System(Finished(job.maximum), FIRST, P.Idle);
  }

  lemma FirstPersists(job: Job, written: seq<S.Item>)
    requires job.id == 0 && job.items != []
    ensures var x, item := Persist(1), job.items[0];
      && Enabled(Done(job.maximum, written, [], job.items), x, job)
      && Next(Done(job.maximum, written, [], job.items), x, job)
        == Done(job.maximum, written + [item], [item], job.items)
  {
    var nothing: seq<S.Item> := [];
    assert nothing + [job.items[0]] == [job.items[0]];
  }

  /** The first worker claims the job; its lease expires; the second one claims it. */
  lemma Overtaken(job: Job) returns (states: seq<State>, steps: seq<Step>)
    requires job.id == 0 && job.maximum >= 2
    ensures Behaves(states, steps, job) && states[|steps|] == Contested(job.maximum, [], [], [])
  {
    FirstClaims(job);
    LeaseExpires(job);
    SecondClaims(job);
    states, steps := Opening(job);
    states, steps := Extend(states, steps, Protocol(P.Claim(1, 0, 0.0, 1.0)), job);
    states, steps := Extend(states, steps, Protocol(P.Recover([0], 2.0)), job);
    states, steps := Extend(states, steps, Protocol(P.Claim(2, 0, 2.0, 1.0)), job);
  }

  /** It stores both transitions of the job and succeeds. */
  lemma ThenSucceeds(job: Job, s: S.Item, e: S.Item) returns (states: seq<State>, steps: seq<Step>)
    requires job.id == 0 && job.maximum >= 2 && job.items == [s, e]
    ensures Behaves(states, steps, job) && states[|steps|] == Done(job.maximum, [s, e], [], [s, e])
  {
    states, steps := Overtaken(job);
    var nothing: seq<S.Item> := [];
    assert nothing + [s] == [s] && [s] + [e] == [s, e];
    SecondPersists(job, [], []);
    states, steps := Extend(states, steps, Persist(2), job);
    SecondPersists(job, [s], [s]);
    states, steps := Extend(states, steps, Persist(2), job);
    SecondSucceeds(job, [s, e]);
    states, steps := Extend(states, steps, Protocol(P.Succeed(2, 3.0, "", map[])), job);
  }

  /** A run in which the check on ownership does not help: the second worker stores everything and succeeds,
      and only then the first one, superseded long ago, stores the start. */
  lemma {:induction false} LateStartRun(s: S.Item, e: S.Item, maximum: nat)
    returns (states: seq<State>, steps: seq<Step>)
    requires S.Episode(s, e) && maximum >= 2
    ensures var job := Job(0, [s, e], maximum);
      && Behaves(states, steps, job) && |steps| > 0
      && Succeeded(states[|steps| - 1], job) && Table(states[|steps| - 1]) == S.Stored([s, e])
      && Succeeded(states[|steps|], job) && Table(states[|steps|]) != S.Stored([s, e])
  {
    var job := Job(0, [s, e], maximum);
    states, steps := ThenSucceeds(job, s, e);
    FirstPersists(job, [s, e]);
    assert [s, e] + [s] == [s, e, s];
    states, steps := Extend(states, steps, Persist(1), job);
    StartAfterEnd(s, e);
  }

  lemma StartAfterEnd(s: S.Item, e: S.Item)
    requires S.Episode(s, e)
    ensures S.Stored([s, e, s]) != S.Stored([s, e])
  {
    S.KeysAlone([s, e, s], s.key);
    S.KeysAlone([s, e], s.key);
    AllOfKey(s, e);
    S.RetriedEpisodeSame([s, e, s], s, e);
  }

  lemma AllOfKey(s: S.Item, e: S.Item)
    requires s.key == e.key
    ensures S.OfKey([s, e], s.key) == [s, e] && S.OfKey([s, e, s], s.key) == [s, e, s]
  {
    S.OfOne(s, s.key);
    S.OfOne(e, s.key);
    S.OfKeyAppend([s], [e], s.key);
    S.OfKeyAppend([s, e], [s], s.key);
    assert [s] + [e] == [s, e] && [s, e] + [s] == [s, e, s];
  }
}
