/**
 The worker pool of a scenario batch over one output directory (src/batch.rs).
 Workers share nothing in memory, but the bundles of runs with one run id share
 three names on disk; every filesystem call is a step of its own.
 */
module Pool {
  import opened Common
  import opened Sorting
  import opened Batch
  import P = Publish

  // ---- One run ------------------------------------------------------------

  datatype RunOutcome = Written(runId: string) | Failed(error: string) | NotPublished(outcome: P.Outcome)

  datatype BatchRunEntry = BatchRunEntry(index: u32, outcome: RunOutcome)

  /**
   What opening a run's feed, replaying it and deriving its run id yields. The
   files do not change during the batch, so this depends on the run alone.
   */
  datatype Prepared = Panics | Refused(text: string) | Ready(id: string, bundle: nat)

  /** `scripts(index)(n)` is what the filesystem does with the `n`-th call of a run. */
  datatype Env = Env(prepare: PlannedRun -> Prepared, overwrite: bool, scripts: nat -> nat -> P.Fault)

  /** The output directory, by run id. */
  type Output = map<string, P.Dirs>

  const NOTHING := P.Dirs(P.Absent, P.Absent, P.Absent)

  function Slot(out: Output, id: string): P.Dirs
  {
    if id in out then out[id] else NOTHING
  }

  function OutcomeOf(id: string, o: P.Outcome): RunOutcome
  {
    if o.Published? then Written(id) else NotPublished(o)
  }

  /** `write_bundle` of a run that has the output directory to itself. */
  function AlonePublished(env: Env, out: Output, p: PlannedRun, id: string, bundle: nat): P.Ended
  {
    P.Run(P.START, Slot(out, id), P.Job(bundle, env.overwrite), env.scripts(p.index), 0)
  }

  /** The entry of a run that has the output directory to itself; nothing when it panics. */
  function Alone(env: Env, out: Output, p: PlannedRun): Option<BatchRunEntry>
  {
    match env.prepare(p)
    case Panics => None
    case Refused(text) => Some(BatchRunEntry(p.index, Failed(text)))
    case Ready(id, bundle) =>
      Some(BatchRunEntry(p.index, OutcomeOf(id, AlonePublished(env, out, p, id, bundle).outcome)))
  }

  /** The destination exists and may not be replaced: every call for this id stops at its first step. */
  predicate Barred(env: Env, out: Output, id: string)
  {
    Slot(out, id).dest.Present? && !env.overwrite
  }

  /** Two runs that cannot get in each other's way. */
  predicate Apart(env: Env, out: Output, p: PlannedRun, q: PlannedRun)
  {
    match (env.prepare(p), env.prepare(q))
    case (Ready(a, _), Ready(b, _)) => a != b || Barred(env, out, a)
    case _ => true
  }

  ghost predicate AllApart(env: Env, out: Output, planned: seq<PlannedRun>)
  {
    forall i, j | 0 <= i < j < |planned| :: Apart(env, out, planned[i], planned[j])
  }

  ghost predicate Indexed(planned: seq<PlannedRun>)
  {
    forall i | 0 <= i < |planned| :: planned[i].index == i
  }

  // ---- The pool -----------------------------------------------------------

  /** What a worker is in the middle of; `calls` counts the filesystem calls of the run. */
  datatype Current = Idle | Publishing(id: string, job: P.Job, progress: P.Progress, calls: nat)

  /** A worker owns its chunk and its local results. */
  datatype Worker = Worker(chunk: seq<PlannedRun>, local: seq<BatchRunEntry>, current: Current, panicked: bool)

  datatype Pool = Pool(workers: seq<Worker>, out: Output)

  predicate Finished(w: Worker)
  {
    w.panicked || |w.local| == |w.chunk|
  }

  predicate WorkerShape(w: Worker)
  {
    && |w.local| <= |w.chunk|
    && (w.panicked ==> w.current.Idle? && |w.local| < |w.chunk|)
    && (w.current.Publishing? ==> |w.local| < |w.chunk| && !w.current.progress.stage.Done?)
  }

  ghost predicate Shape(pool: Pool)
  {
    forall k | 0 <= k < |pool.workers| :: WorkerShape(pool.workers[k])
  }

  /** A worker and its output directory after one step. */
  datatype Stepped = Stepped(worker: Worker, out: Output)

  /** Prepare the next run of the chunk, or make the next filesystem call of the current one. */
  function WorkerStep(env: Env, w: Worker, out: Output): Stepped
    requires WorkerShape(w)
  {
    if Finished(w) then Stepped(w, out)
    else
      var p := w.chunk[|w.local|];
      match w.current
      case Idle => (
        match env.prepare(p)
        case Panics => Stepped(w.(panicked := true), out)
        case Refused(text) => Stepped(w.(local := w.local + [BatchRunEntry(p.index, Failed(text))]), out)
        case Ready(id, bundle) =>
          Stepped(w.(current := Publishing(id, P.Job(bundle, env.overwrite), P.START, 0)), out))
      case Publishing(id, job, q, n) =>
        var a := P.Perform(q.stage, Slot(out, id), job.run, env.scripts(p.index)(n));
        var q' := P.Follow(q, a, job.overwrite);
        var w' := if q'.stage.Done? then
                    w.(local := w.local + [BatchRunEntry(p.index, OutcomeOf(id, q'.stage.outcome))], current := Idle)
                  else w.(current := Publishing(id, job, q', n + 1));
        Stepped(w', out[id := a.dirs])
  }

  /** Worker `k` takes a step; a number that names no worker is skipped. */
  function Turn(env: Env, pool: Pool, k: nat): Pool
    requires Shape(pool)
  {
    if k >= |pool.workers| then pool
    else
      var s := WorkerStep(env, pool.workers[k], pool.out);
      Pool(pool.workers[k := s.worker], s.out)
  }

  lemma StepShape(env: Env, w: Worker, out: Output)
    requires WorkerShape(w)
    ensures WorkerShape(WorkerStep(env, w, out).worker) && WorkerStep(env, w, out).worker.chunk == w.chunk
    ensures !Finished(w) ==> Work(WorkerStep(env, w, out).worker) < Work(w)
  {
    if w.current.Publishing? && !Finished(w) {
      var p, q := w.chunk[|w.local|], w.current.progress;
      var a := P.Perform(q.stage, Slot(out, w.current.id), w.current.job.run, env.scripts(p.index)(w.current.calls));
      P.FollowDescends(q, a, w.current.job.overwrite);
    }
  }

  lemma TurnShape(env: Env, pool: Pool, k: nat)
    requires Shape(pool)
    ensures Shape(Turn(env, pool, k)) && |Turn(env, pool, k).workers| == |pool.workers|
    ensures forall u | 0 <= u < |pool.workers| && u != k :: Turn(env, pool, k).workers[u] == pool.workers[u]
    ensures k < |pool.workers| && !Finished(pool.workers[k]) ==>
            Work(Turn(env, pool, k).workers[k]) < Work(pool.workers[k])
    ensures k < |pool.workers| ==> Turn(env, pool, k).workers[k].chunk == pool.workers[k].chunk
  {
    hide WorkerStep, WorkerShape;
    if k < |pool.workers| {
      StepShape(env, pool.workers[k], pool.out);
    }
  }

  /** A bound on the steps a worker has left: a run takes one to prepare and at most eighteen filesystem calls. */
  function Work(w: Worker): nat
    requires WorkerShape(w)
  {
    if w.panicked then 0
    else 20 * (|w.chunk| - |w.local|) -
         if w.current.Publishing? then 19 - P.Rank(w.current.progress.stage) else 0
  }

  /** The pool after its workers took steps in the order of the schedule. */
  function Execute(env: Env, pool: Pool, schedule: seq<nat>): (r: Pool)
    requires Shape(pool)
    ensures Shape(r) && |r.workers| == |pool.workers|
  {
    if schedule == [] then pool
    else
      var before := Execute(env, pool, schedule[..|schedule| - 1]);
      TurnShape(env, before, schedule[|schedule| - 1]);
      Turn(env, before, schedule[|schedule| - 1])
  }

  /** The workers from `k` on run to their ends, one after the other. */
  function Drain(env: Env, pool: Pool, k: nat): (r: Pool)
    requires Shape(pool) && k <= |pool.workers|
    ensures Shape(r) && |r.workers| == |pool.workers|
    decreases |pool.workers| - k, if k < |pool.workers| then Work(pool.workers[k]) else 0
  {
    if k == |pool.workers| then pool
    else if Finished(pool.workers[k]) then Drain(env, pool, k + 1)
    else
      TurnShape(env, pool, k);
      Drain(env, Turn(env, pool, k), k)
  }

  function Spawn(chunks: seq<seq<PlannedRun>>): (r: seq<Worker>)
    ensures |r| == |chunks| && forall i | 0 <= i < |r| :: r[i] == Worker(chunks[i], [], Idle, false)
  {
    seq(|chunks|, i requires 0 <= i < |chunks| => Worker(chunks[i], [], Idle, false))
  }

  /**
   `schedule` interleaves the workers in any way for as long as it lasts, and
   whoever is left then runs to the end.
   */
  function PoolAfter(env: Env, chunks: seq<seq<PlannedRun>>, out: Output, schedule: seq<nat>): (r: Pool)
    ensures Shape(r) && |r.workers| == |chunks|
  {
    Drain(env, Execute(env, Pool(Spawn(chunks), out), schedule), 0)
  }

  function Locals(workers: seq<Worker>): (r: seq<seq<BatchRunEntry>>)
    ensures |r| == |workers| && forall i | 0 <= i < |r| :: r[i] == workers[i].local
  {
    seq(|workers|, i requires 0 <= i < |workers| => workers[i].local)
  }

  function EntryIndex(e: BatchRunEntry): Key { [e.index] }

  predicate AnyPanicked(workers: seq<Worker>)
  {
    exists i | 0 <= i < |workers| :: workers[i].panicked
  }

  function ChunksOf(planned: seq<PlannedRun>, available: nat): seq<seq<PlannedRun>>
    requires planned != []
  {
    Chunks(planned, ChunkSize(|planned|, available))
  }

  /** The entries of the batch and the output directory it leaves. */
  datatype BatchResult = BatchResult(entries: Result<seq<BatchRunEntry>, Error>, out: Output)

  /** `fan_out` as a function of its inputs and the schedule. */
  function FanOutOf(env: Env, planned: seq<PlannedRun>, available: nat, out: Output, schedule: seq<nat>): BatchResult
  {
    if planned == [] then BatchResult(Ok([]), out)
    else
      var pool := PoolAfter(env, ChunksOf(planned, available), out, schedule);
      var entries :=
        if AnyPanicked(pool.workers) then Err(Execution) else Ok(Sort(Concat(Locals(pool.workers)), EntryIndex));
      BatchResult(entries, pool.out)
  }

  /** What mapping the runs one by one, each on its own, gives: the promise of the parallel form. */
  ghost function SequentialMap(env: Env, out: Output, planned: seq<PlannedRun>): Result<seq<BatchRunEntry>, Error>
  {
    if forall i | 0 <= i < |planned| :: Alone(env, out, planned[i]).Some? then
      Ok(seq(|planned|, i requires 0 <= i < |planned| => EntryOr(Alone(env, out, planned[i]))))
    else Err(Execution)
  }

  function EntryOr(a: Option<BatchRunEntry>): BatchRunEntry
  {
    if a.Some? then a.value else BatchRunEntry(0, Failed(""))
  }

  // ---- The code -----------------------------------------------------------

  /** The scoped workers: they take steps in the order of the schedule, and the scope waits for all of them. */
  method RunPool(env: Env, chunks: seq<seq<PlannedRun>>, out: Output, schedule: seq<nat>) returns (pool: Pool)
    ensures pool == PoolAfter(env, chunks, out, schedule)
    ensures forall k | 0 <= k < |pool.workers| :: Finished(pool.workers[k])
  {
    hide Turn, Work, Execute;
    pool := Pool(Spawn(chunks), out);
    ghost var start := pool;
    var t := 0;
    ExecuteStep(env, start, schedule, 0);
    while t < |schedule|
      invariant 0 <= t <= |schedule| && Shape(pool) && pool == Execute(env, start, schedule[..t])
    {
      ExecuteStep(env, start, schedule, t);
      TurnShape(env, pool, schedule[t]);
      pool := Turn(env, pool, schedule[t]);
      t := t + 1;
    }
    assert schedule[..t] == schedule;
    var k := 0;
    while k < |pool.workers|
      invariant 0 <= k <= |pool.workers| && Shape(pool)
      invariant Drain(env, pool, k) == PoolAfter(env, chunks, out, schedule)
      invariant forall i | 0 <= i < k :: Finished(pool.workers[i])
    {
      while !Finished(pool.workers[k])
        invariant k < |pool.workers| && Shape(pool)
        invariant Drain(env, pool, k) == PoolAfter(env, chunks, out, schedule)
        invariant forall i | 0 <= i < k :: Finished(pool.workers[i])
        decreases Work(pool.workers[k])
      {
        TurnShape(env, pool, k);
        pool := Turn(env, pool, k);
      }
      k := k + 1;
    }
  }

  lemma ExecuteStep(env: Env, start: Pool, schedule: seq<nat>, t: nat)
    requires Shape(start) && t <= |schedule|
    ensures Execute(env, start, schedule[..0]) == start
    ensures t < |schedule| ==>
            Execute(env, start, schedule[..t + 1]) == Turn(env, Execute(env, start, schedule[..t]), schedule[t])
  {
    if t < |schedule| {
      assert schedule[..t + 1][..t] == schedule[..t];
    }
  }

  /** Join in spawn order, appending each worker's results. */
  method Join(workers: seq<Worker>) returns (collected: seq<BatchRunEntry>, panicked: bool)
    ensures panicked <==> AnyPanicked(workers)
    ensures !panicked ==> collected == Concat(Locals(workers))
  {
    collected, panicked := [], false;
    var k := 0;
    while k < |workers|
      invariant 0 <= k <= |workers|
      invariant panicked <==> exists i | 0 <= i < k :: workers[i].panicked
      invariant !panicked ==> collected == Concat(Locals(workers)[..k])
    {
      assert Locals(workers)[..k + 1][..k] == Locals(workers)[..k];
      if workers[k].panicked {
        panicked := true;
      } else {
        collected := collected + workers[k].local;
      }
      k := k + 1;
    }
    assert Locals(workers)[..k] == Locals(workers);
  }

  /** `fan_out`: cut, spawn, join, sort by index; a panic of any worker is the error of the batch. */
  method FanOut(env: Env, planned: seq<PlannedRun>, available: nat, out: Output, schedule: seq<nat>)
    returns (r: Result<seq<BatchRunEntry>, Error>, out': Output)
    ensures BatchResult(r, out') == FanOutOf(env, planned, available, out, schedule)
    ensures planned != [] ==> 0 < |ChunksOf(planned, available)| <= WorkerCount(|planned|, available)
  {
    hide Concat, Sort, PoolAfter, Chunks;
    if planned == [] {
      return Ok([]), out;
    }
    var workers := WorkerCount(|planned|, available);
    ChunksFitWorkers(planned, available);
    ChunksSome(planned, DivCeil(|planned|, workers));
    var pool := RunPool(env, Chunks(planned, DivCeil(|planned|, workers)), out, schedule);
    var collected, panicked := Join(pool.workers);
    if panicked {
      return Err(Execution), pool.out;
    }
    return Ok(Sort(collected, EntryIndex)), pool.out;
  }

  lemma ChunksSome(planned: seq<PlannedRun>, size: nat)
    requires size > 0 && planned != []
    ensures Chunks(planned, size) != []
  {
  }

  // ---- Runs apart: no schedule can be told from another -------------------

  /** The directory of a run is as its call would have left it alone. */
  predicate Settled(env: Env, out0: Output, out: Output, p: PlannedRun)
  {
    match env.prepare(p)
    case Ready(id, bundle) => Slot(out, id) == AlonePublished(env, out0, p, id, bundle).dirs
    case _ => true
  }

  /** The directory of a run is as the batch found it. */
  predicate Untouched(env: Env, out0: Output, out: Output, p: PlannedRun)
  {
    env.prepare(p).Ready? ==> Slot(out, env.prepare(p).id) == Slot(out0, env.prepare(p).id)
  }

  /** The rest of the call in progress is the rest of the call made alone. */
  predicate InStep(env: Env, out0: Output, out: Output, p: PlannedRun, c: Current)
  {
    c.Publishing? ==>
      && env.prepare(p) == Ready(c.id, c.job.run) && c.job.overwrite == env.overwrite
      && P.Run(c.progress, Slot(out, c.id), c.job, env.scripts(p.index), c.calls)
         == AlonePublished(env, out0, p, c.id, c.job.run)
      && (Barred(env, out0, c.id) ==> c.progress == P.START && Slot(out, c.id) == Slot(out0, c.id))
  }

  /** What every step of a batch of runs apart keeps, for one worker. */
  ghost predicate OnCourse(env: Env, out0: Output, out: Output, w: Worker)
  {
    && WorkerShape(w)
    && (forall i | 0 <= i < |w.local| ::
          Alone(env, out0, w.chunk[i]) == Some(w.local[i]) && Settled(env, out0, out, w.chunk[i]))
    && (|w.local| < |w.chunk| ==> InStep(env, out0, out, w.chunk[|w.local|], w.current))
    && (w.panicked ==> Alone(env, out0, w.chunk[|w.local|]).None?)
    && (forall i | |w.local| <= i < |w.chunk| && (i > |w.local| || w.current.Idle?) ::
          Untouched(env, out0, out, w.chunk[i]))
  }

  /** The next step of the worker may change the directory of this id: its call for it is not stopped at once. */
  predicate Touches(env: Env, out0: Output, w: Worker, id: string)
    requires WorkerShape(w)
  {
    && !Finished(w) && env.prepare(w.chunk[|w.local|]).Ready?
    && env.prepare(w.chunk[|w.local|]).id == id && !Barred(env, out0, id)
  }

  lemma StepTouches(env: Env, out0: Output, w: Worker, out: Output, id: string)
    requires OnCourse(env, out0, out, w) && !Touches(env, out0, w, id)
    ensures Slot(WorkerStep(env, w, out).out, id) == Slot(out, id)
  {
    hide P.Run, P.OnFine, P.OnError;
  }

  /** The run the worker is at: prepared, carried on, or brought to the end it would have had alone. */
  lemma CurrentStep(env: Env, out0: Output, w: Worker, out: Output)
    requires OnCourse(env, out0, out, w) && !Finished(w)
    ensures var p, s := w.chunk[|w.local|], WorkerStep(env, w, out);
            if |s.worker.local| == |w.local| then
              && s.worker.local == w.local && InStep(env, out0, s.out, p, s.worker.current)
              && (s.worker.panicked ==> Alone(env, out0, p).None?)
              && (s.worker.current.Idle? ==> w.current.Idle? && s.worker.panicked && s.out == out)
            else
              && |s.worker.local| == |w.local| + 1 && s.worker.local[..|w.local|] == w.local
              && s.worker.current.Idle? && !s.worker.panicked
              && Alone(env, out0, p) == Some(s.worker.local[|w.local|]) && Settled(env, out0, s.out, p)
  {
    hide P.Run, P.Perform, P.Follow;
    var p := w.chunk[|w.local|];
    if w.current.Publishing? {
      var c := w.current;
      var a := P.Perform(c.progress.stage, Slot(out, c.id), c.job.run, env.scripts(p.index)(c.calls));
      var q := P.Follow(c.progress, a, c.job.overwrite);
      P.Unroll(c.progress, Slot(out, c.id), c.job, env.scripts(p.index), c.calls);
      if q.stage.Done? {
        P.RunDone(q.stage.outcome, q.replacing, a.dirs, c.job, env.scripts(p.index), c.calls + 1);
      } else {
        BarredStops(c, a, Slot(out, c.id), env.scripts(p.index)(c.calls));
      }
    }
  }

  lemma BarredStops(c: Current, a: P.After, d: P.Dirs, f: P.Fault)
    requires c.Publishing? && a == P.Perform(c.progress.stage, d, c.job.run, f)
    ensures c.progress == P.START && d.dest.Present? && !c.job.overwrite ==>
            P.Follow(c.progress, a, c.job.overwrite).stage.Done? && a.dirs == d
  {
  }

  /** A run whose directory did not change is where it was. */
  lemma SlotKept(env: Env, out0: Output, out: Output, out': Output, p: PlannedRun, c: Current)
    requires env.prepare(p).Ready? ==> Slot(out', env.prepare(p).id) == Slot(out, env.prepare(p).id)
    ensures Settled(env, out0, out, p) ==> Settled(env, out0, out', p)
    ensures Untouched(env, out0, out, p) ==> Untouched(env, out0, out', p)
    ensures InStep(env, out0, out, p, c) ==> InStep(env, out0, out', p, c)
  {
    hide P.Run;
  }

  /** The worker that steps stays on course. */
  lemma OwnStep(env: Env, out0: Output, w: Worker, out: Output)
    requires OnCourse(env, out0, out, w)
    requires forall i, j | 0 <= i < |w.chunk| && 0 <= j < |w.chunk| && i != j ::
            Apart(env, out0, w.chunk[i], w.chunk[j])
    ensures OnCourse(env, out0, WorkerStep(env, w, out).out, WorkerStep(env, w, out).worker)
  {
    hide WorkerStep, Settled, Untouched, InStep, Alone;
    if Finished(w) {
      FinishedStays(env, w, out);
    } else {
      var s, n := WorkerStep(env, w, out), |w.local|;
      StepShape(env, w, out);
      CurrentStep(env, out0, w, out);
      forall i | 0 <= i < |w.chunk| && i != n
        ensures i < n ==> Settled(env, out0, s.out, w.chunk[i])
        ensures i > n ==> Untouched(env, out0, s.out, w.chunk[i])
      {
        var p := w.chunk[i];
        assert Apart(env, out0, w.chunk[n], p);
        if env.prepare(p).Ready? {
          StepTouches(env, out0, w, out, env.prepare(p).id);
        }
        SlotKept(env, out0, out, s.out, p, Idle);
      }
      forall i | 0 <= i < n ensures s.worker.local[i] == w.local[i] {
        assert s.worker.local[i] == s.worker.local[..n][i];
      }
      forall p ensures InStep(env, out0, s.out, p, Idle) { IdleInStep(env, out0, s.out, p); }
    }
  }

  lemma IdleInStep(env: Env, out0: Output, out: Output, p: PlannedRun)
    ensures InStep(env, out0, out, p, Idle)
  {
  }

  lemma FinishedStays(env: Env, w: Worker, out: Output)
    requires WorkerShape(w) && Finished(w)
    ensures WorkerStep(env, w, out) == Stepped(w, out)
  {
  }

  /** And so does every other worker, all of whose runs are apart from the one that steps. */
  lemma OthersStep(env: Env, out0: Output, w: Worker, out: Output, u: Worker)
    requires OnCourse(env, out0, out, w) && OnCourse(env, out0, out, u)
    requires forall i, j | 0 <= i < |w.chunk| && 0 <= j < |u.chunk| :: Apart(env, out0, w.chunk[i], u.chunk[j])
    ensures OnCourse(env, out0, WorkerStep(env, w, out).out, u)
  {
    hide WorkerStep, Settled, Untouched, InStep, Alone;
    var out' := WorkerStep(env, w, out).out;
    forall j | 0 <= j < |u.chunk|
      ensures Settled(env, out0, out, u.chunk[j]) ==> Settled(env, out0, out', u.chunk[j])
      ensures Untouched(env, out0, out, u.chunk[j]) ==> Untouched(env, out0, out', u.chunk[j])
      ensures InStep(env, out0, out, u.chunk[j], u.current) ==> InStep(env, out0, out', u.chunk[j], u.current)
    {
      var p := u.chunk[j];
      if env.prepare(p).Ready? {
        assert !Finished(w) ==> Apart(env, out0, w.chunk[|w.local|], p);
        StepTouches(env, out0, w, out, env.prepare(p).id);
      }
      SlotKept(env, out0, out, out', p, u.current);
    }
  }

  // ---- The whole pool -----------------------------------------------------

  /** The chunks of a batch whose runs are pairwise apart. */
  ghost predicate ChunksApart(env: Env, out0: Output, chunks: seq<seq<PlannedRun>>)
  {
    forall k, u, i, j | 0 <= k < |chunks| && 0 <= u < |chunks| && 0 <= i < |chunks[k]| && 0 <= j < |chunks[u]| ::
      k != u || i != j ==> Apart(env, out0, chunks[k][i], chunks[u][j])
  }

  ghost predicate PoolOnCourse(env: Env, out0: Output, chunks: seq<seq<PlannedRun>>, pool: Pool)
  {
    && |pool.workers| == |chunks|
    && forall k | 0 <= k < |chunks| ::
         pool.workers[k].chunk == chunks[k] && OnCourse(env, out0, pool.out, pool.workers[k])
  }

  lemma TurnStaysOnCourse(env: Env, out0: Output, chunks: seq<seq<PlannedRun>>, pool: Pool, k: nat)
    requires ChunksApart(env, out0, chunks) && PoolOnCourse(env, out0, chunks, pool) && Shape(pool)
    ensures PoolOnCourse(env, out0, chunks, Turn(env, pool, k))
  {
    hide WorkerStep, OnCourse, Apart;
    if k < |chunks| {
      var w := pool.workers[k];
      OwnStep(env, out0, w, pool.out);
      StepShape(env, w, pool.out);
      forall u | 0 <= u < |chunks| && u != k
        ensures OnCourse(env, out0, WorkerStep(env, w, pool.out).out, pool.workers[u])
      {
        OthersStep(env, out0, w, pool.out, pool.workers[u]);
      }
    }
  }

  /** What every turn keeps, every schedule keeps. */
  lemma {:induction false} ExecuteKeeps(env: Env, pool: Pool, schedule: seq<nat>, inv: Pool -> bool)
    requires Shape(pool) && inv(pool)
    requires forall q: Pool, k: nat :: Shape(q) && inv(q) ==> inv(Turn(env, q, k))
    ensures inv(Execute(env, pool, schedule))
  {
    hide Turn;
    if schedule != [] {
      ExecuteKeeps(env, pool, schedule[..|schedule| - 1], inv);
    }
  }

  /** And running the workers to their ends keeps it too. */
  lemma {:induction false} DrainKeeps(env: Env, pool: Pool, k: nat, inv: Pool -> bool)
    requires Shape(pool) && inv(pool) && k <= |pool.workers|
    requires forall q: Pool, k: nat :: Shape(q) && inv(q) ==> inv(Turn(env, q, k))
    ensures inv(Drain(env, pool, k))
    decreases |pool.workers| - k, if k < |pool.workers| then Work(pool.workers[k]) else 0
  {
    hide Turn, Work;
    if k == |pool.workers| {
    } else if Finished(pool.workers[k]) {
      DrainKeeps(env, pool, k + 1, inv);
    } else {
      TurnShape(env, pool, k);
      DrainKeeps(env, Turn(env, pool, k), k, inv);
    }
  }

  /** So the whole batch stays on course, under every schedule. */
  lemma BatchStaysOnCourse(env: Env, out0: Output, chunks: seq<seq<PlannedRun>>, schedule: seq<nat>)
    requires ChunksApart(env, out0, chunks)
    ensures PoolOnCourse(env, out0, chunks, PoolAfter(env, chunks, out0, schedule))
  {
    hide Turn, PoolOnCourse, ChunksApart, Shape, Execute, Drain;
    var inv := (q: Pool) => PoolOnCourse(env, out0, chunks, q);
    forall q: Pool, k: nat | Shape(q) && inv(q) ensures inv(Turn(env, q, k)) {
      TurnStaysOnCourse(env, out0, chunks, q, k);
    }
    SpawnOnCourse(env, out0, chunks);
    var start := Pool(Spawn(chunks), out0);
    ExecuteKeeps(env, start, schedule, inv);
    DrainKeeps(env, Execute(env, start, schedule), 0, inv);
  }

  /** Draining leaves every worker finished. */
  lemma {:induction false} DrainFinishes(env: Env, pool: Pool, k: nat)
    requires Shape(pool) && k <= |pool.workers|
    requires forall u | 0 <= u < k :: Finished(pool.workers[u])
    ensures forall u | 0 <= u < |pool.workers| :: Finished(Drain(env, pool, k).workers[u])
    decreases |pool.workers| - k, if k < |pool.workers| then Work(pool.workers[k]) else 0
  {
    hide Turn, Work;
    if k == |pool.workers| {
    } else if Finished(pool.workers[k]) {
      DrainFinishes(env, pool, k + 1);
    } else {
      TurnShape(env, pool, k);
      DrainFinishes(env, Turn(env, pool, k), k);
    }
  }

  lemma SpawnOnCourse(env: Env, out0: Output, chunks: seq<seq<PlannedRun>>)
    ensures PoolOnCourse(env, out0, chunks, Pool(Spawn(chunks), out0)) && Shape(Pool(Spawn(chunks), out0))
  {
    hide P.Run;
  }

  lemma ChunksKeepApart(env: Env, out: Output, planned: seq<PlannedRun>, available: nat)
    requires planned != [] && AllApart(env, out, planned)
    ensures ChunksApart(env, out, ChunksOf(planned, available)) && Concat(ChunksOf(planned, available)) == planned
  {
    hide Chunks, Apart;
    var chunks := ChunksOf(planned, available);
    ChunksPartition(planned, ChunkSize(|planned|, available));
    forall k, u, i, j |
      0 <= k < |chunks| && 0 <= u < |chunks| && 0 <= i < |chunks[k]| && 0 <= j < |chunks[u]| && (k != u || i != j)
      ensures Apart(env, out, chunks[k][i], chunks[u][j])
    {
      var a := ChunkIndex(planned, ChunkSize(|planned|, available), k, i);
      var b := ChunkIndex(planned, ChunkSize(|planned|, available), u, j);
      ApartEitherWay(env, out, planned, a, b);
    }
  }

  lemma ApartEitherWay(env: Env, out: Output, planned: seq<PlannedRun>, a: nat, b: nat)
    requires AllApart(env, out, planned) && a < |planned| && b < |planned| && a != b
    ensures Apart(env, out, planned[a], planned[b])
  {
    assert Apart(env, out, planned[if a < b then a else b], planned[if a < b then b else a]);
  }

  /** The workers have finished their chunks, with the lone entry of every run. */
  ghost predicate AllAlone(env: Env, out0: Output, chunks: seq<seq<PlannedRun>>, workers: seq<Worker>)
  {
    && |workers| == |chunks|
    && forall k | 0 <= k < |chunks| ::
         && |workers[k].local| == |chunks[k]|
         && forall i | 0 <= i < |chunks[k]| :: Alone(env, out0, chunks[k][i]) == Some(workers[k].local[i])
  }

  /** Their joined results are then the lone entries of the runs, in order. */
  lemma {:induction false} JoinedAlone(env: Env, out0: Output, chunks: seq<seq<PlannedRun>>, workers: seq<Worker>,
                                       n: nat)
    requires AllAlone(env, out0, chunks, workers) && n <= |chunks|
    ensures var runs, entries := Concat(chunks[..n]), Concat(Locals(workers)[..n]);
            |entries| == |runs| && forall i | 0 <= i < |runs| :: Alone(env, out0, runs[i]) == Some(entries[i])
  {
    hide Alone;
    if n > 0 {
      JoinedAlone(env, out0, chunks, workers, n - 1);
      assert chunks[..n][..n - 1] == chunks[..n - 1];
      assert Locals(workers)[..n][..n - 1] == Locals(workers)[..n - 1];
    }
  }

  /** And the batch is the sequential map. */
  lemma AloneIsMap(env: Env, planned: seq<PlannedRun>, available: nat, out: Output, workers: seq<Worker>)
    requires planned != [] && Indexed(planned) && AllAlone(env, out, ChunksOf(planned, available), workers)
    ensures Ok(Sort(Concat(Locals(workers)), EntryIndex)) == SequentialMap(env, out, planned)
  {
    hide Alone, AllAlone, Concat, Sort, Chunks;
    var chunks := ChunksOf(planned, available);
    ChunksPartition(planned, ChunkSize(|planned|, available));
    assert |workers| == |chunks| by { AllAloneCount(env, out, chunks, workers); }
    JoinedAlone(env, out, chunks, workers, |chunks|);
    assert chunks[..|chunks|] == chunks && Locals(workers)[..|chunks|] == Locals(workers);
    IndexedIsSorted(env, out, planned, Concat(Locals(workers)));
    MapValue(env, out, planned, Concat(Locals(workers)));
  }

  lemma AllAloneCount(env: Env, out0: Output, chunks: seq<seq<PlannedRun>>, workers: seq<Worker>)
    requires AllAlone(env, out0, chunks, workers)
    ensures |workers| == |chunks|
  {
  }

  lemma PanicIsAlone(env: Env, out0: Output, chunks: seq<seq<PlannedRun>>, pool: Pool)
    requires PoolOnCourse(env, out0, chunks, pool) && AnyPanicked(pool.workers)
    ensures exists i | 0 <= i < |Concat(chunks)| :: Alone(env, out0, Concat(chunks)[i]).None?
  {
    hide Alone;
    var k :| 0 <= k < |pool.workers| && pool.workers[k].panicked;
    var w := pool.workers[k];
    assert w.chunk == chunks[k] && OnCourse(env, out0, pool.out, w);
    ConcatAt(chunks, k, |w.local|);
    assert Alone(env, out0, Concat(chunks)[PartStart(chunks, k) + |w.local|]).None?;
  }

  lemma IndexedIsSorted(env: Env, out: Output, planned: seq<PlannedRun>, entries: seq<BatchRunEntry>)
    requires Indexed(planned) && |entries| == |planned|
    requires forall i | 0 <= i < |planned| :: Alone(env, out, planned[i]) == Some(entries[i])
    ensures Sort(entries, EntryIndex) == entries
  {
    hide P.Run, Sort;
    forall i, j | 0 <= i < j < |entries| ensures Less(EntryIndex(entries[i]), EntryIndex(entries[j])) {
      assert Alone(env, out, planned[i]) == Some(entries[i]) && Alone(env, out, planned[j]) == Some(entries[j]);
      assert entries[i].index == i && entries[j].index == j;
    }
    SortedIsFixed(entries, EntryIndex);
  }

  /**
   Runs that are pairwise apart cannot see each other: for every number of
   workers, every schedule and whatever the filesystem does to each run, the
   batch is the sequential map over the runs, and every run leaves its directory
   as it would have left it alone.
   */
  lemma ScheduleIrrelevant(env: Env, planned: seq<PlannedRun>, available: nat, out: Output, schedule: seq<nat>)
    requires Indexed(planned) && AllApart(env, out, planned)
    ensures var r := FanOutOf(env, planned, available, out, schedule);
            && r.entries == SequentialMap(env, out, planned)
            && (r.entries.Ok? ==> forall i | 0 <= i < |planned| :: Settled(env, out, r.out, planned[i]))
  {
    hide Alone, Settled, Execute, Drain, ChunksOf, AllApart, ChunksApart, PoolOnCourse, AllAlone, Concat, Sort;
    if planned != [] {
      var chunks := ChunksOf(planned, available);
      ChunksKeepApart(env, out, planned, available);
      BatchStaysOnCourse(env, out, chunks, schedule);
      DrainFinishes(env, Execute(env, Pool(Spawn(chunks), out), schedule), 0);
      var pool := PoolAfter(env, chunks, out, schedule);
      if AnyPanicked(pool.workers) {
        PanicIsAlone(env, out, chunks, pool);
      } else {
        CourseEnds(env, out, planned, available, pool);
        AloneIsMap(env, planned, available, out, pool.workers);
      }
    } else {
      MapValue(env, out, planned, []);
    }
  }

  lemma MapValue(env: Env, out: Output, planned: seq<PlannedRun>, entries: seq<BatchRunEntry>)
    requires |entries| == |planned| && forall i | 0 <= i < |planned| :: Alone(env, out, planned[i]) == Some(entries[i])
    ensures SequentialMap(env, out, planned) == Ok(entries)
  {
    hide Alone;
    assert SequentialMap(env, out, planned).value == entries;
  }

  lemma CourseEnds(env: Env, out0: Output, planned: seq<PlannedRun>, available: nat, pool: Pool)
    requires planned != [] && PoolOnCourse(env, out0, ChunksOf(planned, available), pool)
    requires !AnyPanicked(pool.workers) && forall u | 0 <= u < |pool.workers| :: Finished(pool.workers[u])
    ensures AllAlone(env, out0, ChunksOf(planned, available), pool.workers)
    ensures forall m | 0 <= m < |planned| :: Settled(env, out0, pool.out, planned[m])
  {
    hide Alone, Settled, InStep, Untouched, Chunks, ChunkSize;
    var size := ChunkSize(|planned|, available);
    var chunks := ChunksOf(planned, available);
    forall k | 0 <= k < |chunks| ensures OnCourse(env, out0, pool.out, pool.workers[k]) {
    }
    forall m | 0 <= m < |planned| ensures Settled(env, out0, pool.out, planned[m]) {
      ChunkAt(planned, size, m);
      assert Settled(env, out0, pool.out, chunks[m / size][m % size]);
    }
  }
}
