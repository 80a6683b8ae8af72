/** When the parallel form keeps its promise: runs of one run id (src/batch.rs, src/engine/scenario.rs). */
module Race {
  import opened Common
  import opened Sorting
  import opened Batch
  import opened Pool
  import P = Publish

  /** The filesystem does what it is asked. */
  ghost predicate Calm(env: Env)
  {
    forall i: nat, n: nat :: env.scripts(i)(n).NoFault?
  }

  ghost predicate NoPanics(env: Env, planned: seq<PlannedRun>)
  {
    forall i | 0 <= i < |planned| :: !env.prepare(planned[i]).Panics?
  }

  /** One worker gets both runs, and therefore makes them one after the other. */
  predicate SameChunk(planned: seq<PlannedRun>, available: nat, i: nat, j: nat)
    requires planned != []
  {
    i / ChunkSize(|planned|, available) == j / ChunkSize(|planned|, available)
  }

  /** Runs that are not apart at least replace each other's bundles in turn. */
  ghost predicate Harmless(env: Env, planned: seq<PlannedRun>, available: nat, out: Output)
  {
    forall i, j | 0 <= i < j < |planned| ::
      Apart(env, out, planned[i], planned[j]) || (env.overwrite && SameChunk(planned, available, i, j))
  }

  // ---- Driving the workers one at a time ----------------------------------

  /** A run, and where in the pool it is made. */
  datatype Spot = Spot(worker: nat, pos: nat, run: PlannedRun, id: string, bundle: nat)

  /** The worker has made the runs before this one. */
  predicate At(pool: Pool, x: Spot)
  {
    && x.worker < |pool.workers|
    && var w := pool.workers[x.worker]; |w.local| == x.pos < |w.chunk| && w.chunk[x.pos] == x.run && !w.panicked
  }

  predicate Waiting(pool: Pool, x: Spot)
  {
    At(pool, x) && pool.workers[x.worker].current.Idle?
  }

  /** And is in the middle of publishing it. */
  predicate Holds(env: Env, pool: Pool, x: Spot, q: P.Progress, n: nat)
  {
    && At(pool, x) && !q.stage.Done?
    && pool.workers[x.worker].current == Publishing(x.id, P.Job(x.bundle, env.overwrite), q, n)
  }

  ghost predicate SameOthers(a: Pool, b: Pool, k: nat)
  {
    |a.workers| == |b.workers| && forall u | 0 <= u < |a.workers| && u != k :: a.workers[u] == b.workers[u]
  }

  lemma ExecuteNothing(env: Env, pool: Pool)
    requires Shape(pool)
    ensures Execute(env, pool, []) == pool
  {
  }

  /** One more turn of worker `k` at the end of a schedule. */
  lemma OneMore(env: Env, start: Pool, s: seq<nat>, k: nat)
    requires Shape(start)
    ensures Execute(env, start, s + [k]) == Turn(env, Execute(env, start, s), k)
  {
    assert (s + [k])[..|s|] == s;
  }

  /** One more filesystem call. */
  lemma Call(env: Env, start: Pool, s: seq<nat>, x: Spot, q: P.Progress, n: nat, d: P.Dirs)
    returns (q': P.Progress, d': P.Dirs)
    requires Shape(start) && Calm(env)
    requires Holds(env, Execute(env, start, s), x, q, n) && Slot(Execute(env, start, s).out, x.id) == d
    requires !P.Follow(q, P.Perform(q.stage, d, x.bundle, P.NoFault), env.overwrite).stage.Done?
    ensures var a := P.Perform(q.stage, d, x.bundle, P.NoFault);
            q' == P.Follow(q, a, env.overwrite) && d' == a.dirs
    ensures var r := Execute(env, start, s + [x.worker]);
            && Holds(env, r, x, q', n + 1) && Slot(r.out, x.id) == d'
            && SameOthers(r, Execute(env, start, s), x.worker)
  {
    hide P.Perform, P.Follow, Execute;
    OneMore(env, start, s, x.worker);
    assert env.scripts(x.run.index)(n) == P.NoFault;
    q' := P.Follow(q, P.Perform(q.stage, d, x.bundle, P.NoFault), env.overwrite);
    d' := P.Perform(q.stage, d, x.bundle, P.NoFault).dirs;
  }

  /** The worker prepares the run. */
  lemma Prepare(env: Env, start: Pool, s: seq<nat>, x: Spot)
    requires Shape(start) && env.prepare(x.run) == Ready(x.id, x.bundle) && Waiting(Execute(env, start, s), x)
    ensures var r := Execute(env, start, s + [x.worker]);
            && Holds(env, r, x, P.START, 0) && r.out == Execute(env, start, s).out
            && SameOthers(r, Execute(env, start, s), x.worker)
  {
    hide Execute;
    OneMore(env, start, s, x.worker);
  }

  /** Left to itself, a worker gets its run to the point where it has asked for the temp directory. */
  lemma ToLeftover(env: Env, start: Pool, s: seq<nat>, x: Spot, d: P.Dirs) returns (s': seq<nat>, q: P.Progress)
    requires Shape(start) && Calm(env) && env.prepare(x.run) == Ready(x.id, x.bundle)
    requires Waiting(Execute(env, start, s), x)
    requires Slot(Execute(env, start, s).out, x.id) == d && (d.dest.Present? ==> env.overwrite)
    ensures var r := Execute(env, start, s');
            && Holds(env, r, x, q, 3) && SameOthers(r, Execute(env, start, s), x.worker)
            && Slot(r.out, x.id) == d && q.stage == if d.temp.Present? then P.RemovingLeftover else P.MakingTemp
  {
    hide Execute, Holds, Waiting;
    Prepare(env, start, s, x);
    var e;
    s', q, e := s + [x.worker], P.START, d;
    q, e := Call(env, start, s', x, q, 0, e);
    s' := s' + [x.worker];
    assert q.stage == P.CreatingOutput && e == d;
    q, e := Call(env, start, s', x, q, 1, e);
    s' := s' + [x.worker];
    assert q.stage == P.StattingTemp && e == d;
    q, e := Call(env, start, s', x, q, 2, e);
    s' := s' + [x.worker];
  }

  /** And on to an empty temp directory, or only to having removed one. */
  lemma ToTemp(env: Env, start: Pool, s: seq<nat>, x: Spot, d: P.Dirs, write: bool)
    returns (s': seq<nat>, q: P.Progress, n: nat)
    requires Shape(start) && Calm(env) && env.prepare(x.run) == Ready(x.id, x.bundle)
    requires Waiting(Execute(env, start, s), x)
    requires Slot(Execute(env, start, s).out, x.id) == d && (d.dest.Present? ==> env.overwrite)
    ensures var r := Execute(env, start, s');
            && Holds(env, r, x, q, n) && SameOthers(r, Execute(env, start, s), x.worker)
            && Slot(r.out, x.id) == d.Put(P.Temp, if write then P.Present(map[]) else P.Absent)
            && (write ==> q.stage == P.Writing(0))
  {
    hide Execute, Holds, Waiting;
    s', q := ToLeftover(env, start, s, x, d);
    var e := d;
    n := 3;
    if d.temp.Present? {
      q, e := Call(env, start, s', x, q, n, e);
      s', n := s' + [x.worker], n + 1;
    }
    assert q.stage == P.MakingTemp && e == d.Put(P.Temp, P.Absent);
    if write {
      q, e := Call(env, start, s', x, q, n, e);
      s', n := s' + [x.worker], n + 1;
    }
  }

  /** The call in progress will leave a bundle at its destination, and where it may overwrite will succeed. */
  ghost predicate Lands(env: Env, out: Output, p: PlannedRun, c: Current)
  {
    c.Publishing? ==>
      && env.prepare(p) == Ready(c.id, c.job.run) && c.job.overwrite == env.overwrite
      && var e := P.Run(c.progress, Slot(out, c.id), c.job, env.scripts(p.index), c.calls);
         e.dirs.dest.Present? && (env.overwrite ==> e.outcome == P.Published)
  }

  lemma CalmRun(env: Env, i: nat)
    requires Calm(env)
    ensures forall n: nat :: env.scripts(i)(n).NoFault?
  {
  }

  /**
   One step of a worker nobody disturbed: the run goes on towards its bundle, or
   ends with one in place and, where it may overwrite, with its lone entry.
   */
  lemma CalmStep(env: Env, out0: Output, w: Worker, out: Output)
    requires Calm(env) && WorkerShape(w) && !Finished(w)
    requires !env.prepare(w.chunk[|w.local|]).Panics? && Lands(env, out, w.chunk[|w.local|], w.current)
    ensures var p, s := w.chunk[|w.local|], WorkerStep(env, w, out);
            && s.worker.chunk == w.chunk && !s.worker.panicked
            && if |s.worker.local| == |w.local| then
                 && s.worker.local == w.local && s.worker.current.Publishing?
                 && Lands(env, s.out, p, s.worker.current)
                 && (if w.current.Idle? then s.out == out && s.worker.current.progress == P.START
                     else !(w.current.progress == P.START && Barred(env, out, w.current.id)))
               else
                 && |s.worker.local| == |w.local| + 1 && s.worker.local[..|w.local|] == w.local
                 && s.worker.current.Idle?
                 && (env.prepare(p).Ready? ==> Slot(s.out, env.prepare(p).id).dest.Present?)
                 && (env.overwrite ==> Alone(env, out0, p) == Some(s.worker.local[|w.local|]))
  {
    hide P.Run, P.Perform, P.Follow, Calm;
    var p := w.chunk[|w.local|];
    CalmRun(env, p.index);
    if env.prepare(p).Ready? {
      var id, job := env.prepare(p).id, P.Job(env.prepare(p).bundle, env.overwrite);
      P.QuietRun(Slot(out, id), job, env.scripts(p.index), 0);
      P.QuietRun(Slot(out0, id), job, env.scripts(p.index), 0);
    }
    if w.current.Publishing? {
      var c := w.current;
      var a := P.Perform(c.progress.stage, Slot(out, c.id), c.job.run, env.scripts(p.index)(c.calls));
      var q := P.Follow(c.progress, a, c.job.overwrite);
      P.Unroll(c.progress, Slot(out, c.id), c.job, env.scripts(p.index), c.calls);
      if q.stage.Done? {
        P.RunDone(q.stage.outcome, q.replacing, a.dirs, c.job, env.scripts(p.index), c.calls + 1);
      } else {
        BarredStops(c, a, Slot(out, c.id), env.scripts(p.index)(c.calls));
      }
    }
  }

  /** A step changes no directory but that of the run in progress. */
  lemma StepElsewhere(env: Env, w: Worker, out: Output, id: string)
    requires WorkerShape(w) && (w.current.Publishing? ==> w.current.id != id)
    ensures Slot(WorkerStep(env, w, out).out, id) == Slot(out, id)
  {
    hide P.Perform, P.Follow;
  }

  /** Taken when worker `k` has made the runs of `before` up to `n`: there before, or published by one of those runs. */
  ghost predicate Taken(env: Env, before: Pool, k: nat, n: nat, id: string)
    requires k < |before.workers| && n <= |before.workers[k].chunk|
  {
    var w := before.workers[k];
    || Slot(before.out, id).dest.Present?
    || exists i | |w.local| <= i < n :: env.prepare(w.chunk[i]).Ready? && env.prepare(w.chunk[i]).id == id
  }

  lemma NothingTaken(env: Env, before: Pool, k: nat, id: string)
    requires k < |before.workers| && WorkerShape(before.workers[k])
    ensures Taken(env, before, k, |before.workers[k].local|, id) <==> Slot(before.out, id).dest.Present?
  {
  }

  /** One more run of the chunk: what is taken was taken before, or is taken by that run. */
  lemma TakenGrows(env: Env, before: Pool, k: nat, n: nat, id: string)
    requires k < |before.workers| && |before.workers[k].local| <= n < |before.workers[k].chunk|
    ensures var p := env.prepare(before.workers[k].chunk[n]);
            Taken(env, before, k, n + 1, id) <==> Taken(env, before, k, n, id) || (p.Ready? && p.id == id)
  {
  }

  /** Where bundles may not be replaced, those at taken places are there, and a call for such a place has not begun. */
  ghost predicate KeepsTaken(env: Env, before: Pool, r: Pool, k: nat)
    requires k < |before.workers| && k < |r.workers| && |r.workers[k].local| <= |before.workers[k].chunk|
  {
    var w := r.workers[k];
    forall id | Taken(env, before, k, |w.local|, id) ::
      && Slot(r.out, id).dest.Present?
      && (w.current.Publishing? && w.current.id == id ==> w.current.progress == P.START)
  }

  /** Only worker `k` has moved since `before`, and has not gone past run `a` of its chunk. */
  ghost predicate Driven(env: Env, before: Pool, r: Pool, k: nat, a: nat)
    requires k < |before.workers| && a <= |before.workers[k].chunk|
  {
    && Shape(r) && SameOthers(r, before, k)
    && var w0, w := before.workers[k], r.workers[k];
       && w.chunk == w0.chunk && !w.panicked && |w0.local| <= |w.local| <= a && (|w.local| == a ==> w.current.Idle?)
       && (|w.local| < a ==> Lands(env, r.out, w.chunk[|w.local|], w.current))
       && (!env.overwrite ==> KeepsTaken(env, before, r, k))
  }

  lemma Undriven(env: Env, before: Pool, k: nat, a: nat)
    requires Shape(before) && k < |before.workers|
    requires var w := before.workers[k]; w.current.Idle? && !w.panicked && |w.local| <= a <= |w.chunk|
    ensures Driven(env, before, before, k, a)
  {
    hide Taken;
    forall id ensures Taken(env, before, k, |before.workers[k].local|, id) <==> Slot(before.out, id).dest.Present? {
      NothingTaken(env, before, k, id);
    }
  }

  lemma DriveStep(env: Env, before: Pool, r: Pool, k: nat, a: nat)
    requires k < |before.workers| && a <= |before.workers[k].chunk| && Calm(env)
    requires Driven(env, before, r, k, a) && |r.workers[k].local| < a
    requires !env.prepare(r.workers[k].chunk[|r.workers[k].local|]).Panics?
    ensures Driven(env, before, Turn(env, r, k), k, a)
  {
    hide Calm, Taken, WorkerStep, WorkerShape, Alone, P.Run, Work, KeepsTaken;
    TurnShape(env, r, k);
    DriveWorker(env, r, k);
    if !env.overwrite {
      DriveKeeps(env, before, r, k);
    }
  }

  lemma DriveWorker(env: Env, r: Pool, k: nat)
    requires Shape(r) && k < |r.workers| && Calm(env) && !Finished(r.workers[k])
    requires var w := r.workers[k];
             !env.prepare(w.chunk[|w.local|]).Panics? && Lands(env, r.out, w.chunk[|w.local|], w.current)
    ensures var w, w', out' := r.workers[k], Turn(env, r, k).workers[k], Turn(env, r, k).out;
            && w'.chunk == w.chunk && !w'.panicked && |w.local| <= |w'.local| <= |w.local| + 1
            && if |w'.local| == |w.local| then Lands(env, out', w.chunk[|w.local|], w'.current) else w'.current.Idle?
  {
    hide Calm, WorkerStep, Alone, Lands;
    CalmStep(env, r.out, r.workers[k], r.out);
  }

  lemma DriveKeeps(env: Env, before: Pool, r: Pool, k: nat)
    requires k < |before.workers| && Shape(r) && k < |r.workers| && Calm(env) && !Finished(r.workers[k])
    requires !env.overwrite && |before.workers[k].local| <= |r.workers[k].local|
    requires var w := r.workers[k];
             && w.chunk == before.workers[k].chunk && !env.prepare(w.chunk[|w.local|]).Panics?
             && Lands(env, r.out, w.chunk[|w.local|], w.current)
    requires KeepsTaken(env, before, r, k)
    ensures |Turn(env, r, k).workers[k].local| <= |before.workers[k].chunk|
    ensures KeepsTaken(env, before, Turn(env, r, k), k)
  {
    hide Calm, Taken, WorkerStep, Alone, WorkerShape;
    var w, n := r.workers[k], |r.workers[k].local|;
    CalmStep(env, r.out, w, r.out);
    TurnShape(env, r, k);
    forall id ensures Taken(env, before, k, |Turn(env, r, k).workers[k].local|, id) ==>
                Slot(Turn(env, r, k).out, id).dest.Present? {
      TakenGrows(env, before, k, n, id);
      if w.current.Publishing? ==> w.current.id != id {
        StepElsewhere(env, w, r.out, id);
      }
    }
  }

  /** Worker `k` alone makes its runs up to the `a`-th. */
  lemma Reach(env: Env, start: Pool, s: seq<nat>, k: nat, a: nat) returns (s': seq<nat>)
    requires Shape(start) && Calm(env) && k < |start.workers|
    requires var w := Execute(env, start, s).workers[k];
             && w.current.Idle? && !w.panicked && |w.local| <= a <= |w.chunk|
             && forall i | 0 <= i < a :: !env.prepare(w.chunk[i]).Panics?
    ensures var before, r := Execute(env, start, s), Execute(env, start, s');
            Driven(env, before, r, k, a) && |r.workers[k].local| == a
  {
    hide Execute, KeepsTaken, Lands, Calm, Work;
    var before := Execute(env, start, s);
    s' := s;
    Undriven(env, before, k, a);
    while |Execute(env, start, s').workers[k].local| != a
      invariant Driven(env, before, Execute(env, start, s'), k, a)
      decreases Work(Execute(env, start, s').workers[k])
    {
      OneMore(env, start, s', k);
      TurnShape(env, Execute(env, start, s'), k);
      DriveStep(env, before, Execute(env, start, s'), k, a);
      s' := s' + [k];
    }
  }

  // ---- The run that is spoilt ---------------------------------------------

  /** The entry of a run that failed to publish. */
  predicate Spoilt(e: BatchRunEntry, p: PlannedRun)
  {
    e.index == p.index && e.outcome.NotPublished?
  }

  /** The run has failed, or is about to clean up and fail. */
  predicate Doomed(pool: Pool, x: Spot)
  {
    && x.worker < |pool.workers|
    && var w := pool.workers[x.worker];
       || (x.pos < |w.local| && Spoilt(w.local[x.pos], x.run))
       || (At(pool, x) && w.current.Publishing? && w.current.progress.stage == P.Cleaning(P.Build))
  }

  lemma DoomedStays(env: Env, pool: Pool, x: Spot, u: nat)
    requires Shape(pool) && Calm(env) && Doomed(pool, x)
    ensures Doomed(Turn(env, pool, u), x)
  {
    if u == x.worker && At(pool, x) {
      assert env.scripts(x.run.index)(pool.workers[u].current.calls).NoFault?;
    }
  }

  /**
   The schedule of a collision: `x` makes its temp directory, `y` clears it away
   as a leftover, and `x` tries to write into it.
   */
  lemma Collide(env: Env, start: Pool, s: seq<nat>, x: Spot, y: Spot) returns (s': seq<nat>)
    requires Shape(start) && Calm(env) && env.overwrite && x.worker != y.worker && x.id == y.id
    requires env.prepare(x.run) == Ready(x.id, x.bundle) && env.prepare(y.run) == Ready(y.id, y.bundle)
    requires Waiting(Execute(env, start, s), x) && Waiting(Execute(env, start, s), y)
    ensures Doomed(Execute(env, start, s'), x)
  {
    hide Execute, Calm;
    var d := Slot(Execute(env, start, s).out, x.id);
    var t, q, n := ToTemp(env, start, s, x, d, true);
    var e := d.Put(P.Temp, P.Present(map[]));
    assert Waiting(Execute(env, start, t), y);
    var t', q', n' := ToTemp(env, start, t, y, e, false);
    assert Holds(env, Execute(env, start, t'), x, q, n);
    var q'', e'' := Call(env, start, t', x, q, n, e.Put(P.Temp, P.Absent));
    s' := t' + [x.worker];
  }

  /** Where bundles may not be replaced, a run that finds one fails. */
  lemma Loses(env: Env, start: Pool, s: seq<nat>, y: Spot) returns (s': seq<nat>)
    requires Shape(start) && Calm(env) && !env.overwrite && env.prepare(y.run) == Ready(y.id, y.bundle)
    requires Waiting(Execute(env, start, s), y) && Slot(Execute(env, start, s).out, y.id).dest.Present?
    ensures Doomed(Execute(env, start, s'), y)
  {
    hide Execute;
    Prepare(env, start, s, y);
    s' := s + [y.worker];
    OneMore(env, start, s', y.worker);
    assert env.scripts(y.run.index)(0).NoFault?;
    s' := s' + [y.worker];
  }

  /** Run `i` of the batch, in the pool as it is spawned. */
  function SpotOf(env: Env, planned: seq<PlannedRun>, available: nat, i: nat): Spot
    requires i < |planned| && env.prepare(planned[i]).Ready?
  {
    var size, r := ChunkSize(|planned|, available), env.prepare(planned[i]);
    Spot(i / size, i % size, planned[i], r.id, r.bundle)
  }

  /** Two runs of one id in different chunks: each worker gets to its run, and then they collide. */
  lemma SpoilOverwriting(env: Env, start: Pool, x: Spot, y: Spot) returns (s: seq<nat>)
    requires Shape(start) && Calm(env) && env.overwrite && x.worker != y.worker && x.id == y.id
    requires Fits(env, start, x) && Fits(env, start, y)
    ensures Doomed(Execute(env, start, s), x)
  {
    hide Execute, Calm, Lands, KeepsTaken;
    ExecuteNothing(env, start);
    var t := Reach(env, start, [], x.worker, x.pos);
    var t' := Reach(env, start, t, y.worker, y.pos);
    s := Collide(env, start, t', x, y);
  }

  /** Two runs of one id that may not overwrite: the first is made, and then the second finds its bundle. */
  lemma SpoilKeeping(env: Env, start: Pool, x: Spot, y: Spot) returns (s: seq<nat>)
    requires Shape(start) && Calm(env) && !env.overwrite && (x.worker == y.worker ==> x.pos < y.pos) && x.id == y.id
    requires Fits(env, start, x) && Fits(env, start, y)
    ensures Doomed(Execute(env, start, s), y)
  {
    hide Execute, Calm, Lands, Taken;
    ExecuteNothing(env, start);
    var t := Reach(env, start, [], x.worker, x.pos + 1);
    var mid := Execute(env, start, t);
    TakenNow(env, start, x.worker, x.pos, x.id);
    var t' := Reach(env, start, t, y.worker, y.pos);
    TakenBefore(env, mid, y.worker, y.pos, x.id);
    s := Loses(env, start, t', y);
  }

  /** The run is where the pool was spawned with it, and no run of its chunk panics. */
  ghost predicate Fits(env: Env, start: Pool, x: Spot)
  {
    && x.worker < |start.workers| && env.prepare(x.run) == Ready(x.id, x.bundle)
    && var w := start.workers[x.worker];
       && w.local == [] && w.current.Idle? && !w.panicked && x.pos < |w.chunk| && w.chunk[x.pos] == x.run
       && forall i | 0 <= i < |w.chunk| :: !env.prepare(w.chunk[i]).Panics?
  }

  lemma SpotFits(env: Env, planned: seq<PlannedRun>, available: nat, out: Output, i: nat)
    requires i < |planned| && env.prepare(planned[i]).Ready? && NoPanics(env, planned)
    ensures Fits(env, Pool(Spawn(ChunksOf(planned, available)), out), SpotOf(env, planned, available, i))
  {
    hide Chunks;
    ChunkAt(planned, ChunkSize(|planned|, available), i);
    CalmChunk(env, planned, ChunkSize(|planned|, available), i / ChunkSize(|planned|, available));
  }

  /** Some schedule spoils one of two runs that are not apart, unless one worker makes both and may overwrite. */
  lemma Spoil(env: Env, planned: seq<PlannedRun>, available: nat, out: Output, i: nat, j: nat)
    returns (m: nat, s: seq<nat>)
    requires Calm(env) && NoPanics(env, planned)
    requires i < j < |planned| && !Apart(env, out, planned[i], planned[j])
    requires !(env.overwrite && SameChunk(planned, available, i, j))
    ensures (m == i || m == j) && env.prepare(planned[m]).Ready? && !Barred(env, out, env.prepare(planned[m]).id)
    ensures Doomed(Execute(env, Pool(Spawn(ChunksOf(planned, available)), out), s), SpotOf(env, planned, available, m))
  {
    hide Execute, Calm, NoPanics, Fits, ChunksOf, ChunkSize;
    var x, y := SpotOf(env, planned, available, i), SpotOf(env, planned, available, j);
    SpotFits(env, planned, available, out, i);
    SpotFits(env, planned, available, out, j);
    if env.overwrite {
      m := i;
      s := SpoilOverwriting(env, Pool(Spawn(ChunksOf(planned, available)), out), x, y);
    } else {
      m := j;
      if x.worker == y.worker {
        InOrder(ChunkSize(|planned|, available), i, j);
      }
      s := SpoilKeeping(env, Pool(Spawn(ChunksOf(planned, available)), out), x, y);
    }
  }

  lemma InOrder(size: nat, i: nat, j: nat)
    requires size > 0 && i < j && i / size == j / size
    ensures i % size < j % size
  {
    assert i == i / size * size + i % size && j == j / size * size + j % size;
  }

  lemma TakenNow(env: Env, before: Pool, k: nat, a: nat, id: string)
    requires k < |before.workers| && |before.workers[k].local| <= a < |before.workers[k].chunk|
    requires env.prepare(before.workers[k].chunk[a]).Ready? && env.prepare(before.workers[k].chunk[a]).id == id
    ensures Taken(env, before, k, a + 1, id)
  {
  }

  lemma TakenBefore(env: Env, before: Pool, k: nat, n: nat, id: string)
    requires k < |before.workers| && n <= |before.workers[k].chunk| && Slot(before.out, id).dest.Present?
    ensures Taken(env, before, k, n, id)
  {
  }

  lemma CalmChunk(env: Env, planned: seq<PlannedRun>, size: nat, k: nat)
    requires size > 0 && NoPanics(env, planned) && k < |Chunks(planned, size)|
    ensures forall i | 0 <= i < |Chunks(planned, size)[k]| :: !env.prepare(Chunks(planned, size)[k][i]).Panics?
  {
    hide Chunks;
    forall i | 0 <= i < |Chunks(planned, size)[k]| ensures !env.prepare(Chunks(planned, size)[k][i]).Panics? {
      var m := ChunkIndex(planned, size, k, i);
    }
  }

  /** Alone, the run would have been written; no other run has its index. */
  lemma SpoiltIsNotAlone(env: Env, planned: seq<PlannedRun>, out: Output, m: nat)
    requires Indexed(planned) && Calm(env) && NoPanics(env, planned)
    requires m < |planned| && env.prepare(planned[m]).Ready? && !Barred(env, out, env.prepare(planned[m]).id)
    ensures SequentialMap(env, out, planned).Ok?
    ensures forall e | e in SequentialMap(env, out, planned).value :: !Spoilt(e, planned[m])
  {
    var p := planned[m];
    CalmRun(env, p.index);
    P.QuietRun(Slot(out, env.prepare(p).id), P.Job(env.prepare(p).bundle, env.overwrite), env.scripts(p.index), 0);
    hide P.Run, Calm;
    forall i | 0 <= i < |planned|
      ensures Alone(env, out, planned[i]).Some? && !Spoilt(Alone(env, out, planned[i]).value, p)
    {
    }
  }

  /** Two runs that are not apart, unless one worker makes both and may overwrite: some schedule breaks the promise. */
  lemma RaceBreaks(env: Env, planned: seq<PlannedRun>, available: nat, out: Output, i: nat, j: nat)
    returns (schedule: seq<nat>)
    requires Indexed(planned) && Calm(env) && NoPanics(env, planned)
    requires i < j < |planned| && !Apart(env, out, planned[i], planned[j])
    requires !(env.overwrite && SameChunk(planned, available, i, j))
    ensures FanOutOf(env, planned, available, out, schedule).entries != SequentialMap(env, out, planned)
  {
    hide Execute, Sort, Concat, Drain, P.Run, Apart, Calm, NoPanics, SequentialMap, Chunks, ChunkSize;
    var m, s := Spoil(env, planned, available, out, i, j);
    schedule := s;
    var x, start := SpotOf(env, planned, available, m), Pool(Spawn(ChunksOf(planned, available)), out);
    var inv := (q: Pool) => Doomed(q, x);
    forall q: Pool, u: nat | Shape(q) && inv(q) ensures inv(Turn(env, q, u)) { DoomedStays(env, q, x, u); }
    DrainKeeps(env, Execute(env, start, schedule), 0, inv);
    DrainFinishes(env, Execute(env, start, schedule), 0);
    var pool := PoolAfter(env, ChunksOf(planned, available), out, schedule);
    SpoiltIsNotAlone(env, planned, out, m);
    if !AnyPanicked(pool.workers) {
      DoomedEnds(pool, x);
      SpoiltIsJoined(pool.workers, x);
    }
  }

  lemma DoomedEnds(pool: Pool, x: Spot)
    requires Doomed(pool, x) && Shape(pool) && Finished(pool.workers[x.worker])
    ensures pool.workers[x.worker].panicked ||
            (x.pos < |pool.workers[x.worker].local| && Spoilt(pool.workers[x.worker].local[x.pos], x.run))
  {
  }

  lemma SpoiltIsJoined(workers: seq<Worker>, x: Spot)
    requires x.worker < |workers| && x.pos < |workers[x.worker].local|
    requires Spoilt(workers[x.worker].local[x.pos], x.run)
    ensures exists e :: e in Sort(Concat(Locals(workers)), EntryIndex) && Spoilt(e, x.run)
  {
    hide Sort, Concat;
    var locals := Locals(workers);
    ConcatAt(locals, x.worker, x.pos);
    SortCorrect(Concat(locals), EntryIndex);
    var e := workers[x.worker].local[x.pos];
    assert e in multiset(Concat(locals)) && e in Sort(Concat(locals), EntryIndex);
  }

  // ---- A run that panics --------------------------------------------------

  /** A worker gets past no run that panics. */
  ghost predicate Halts(env: Env, chunks: seq<seq<PlannedRun>>, pool: Pool)
  {
    && |pool.workers| == |chunks|
    && forall k | 0 <= k < |chunks| ::
         var w := pool.workers[k];
         && w.chunk == chunks[k] && WorkerShape(w)
         && (forall i | 0 <= i < |w.local| :: !env.prepare(w.chunk[i]).Panics?)
         && (w.current.Publishing? ==> !env.prepare(w.chunk[|w.local|]).Panics?)
  }

  lemma TurnHalts(env: Env, chunks: seq<seq<PlannedRun>>, pool: Pool, k: nat)
    requires Shape(pool) && Halts(env, chunks, pool)
    ensures Halts(env, chunks, Turn(env, pool, k))
  {
    hide P.Perform, P.Follow, WorkerShape, Work;
    TurnShape(env, pool, k);
  }

  /** The panic of any one run is the error of the batch, under every schedule. */
  lemma PanicSpreads(env: Env, planned: seq<PlannedRun>, available: nat, out: Output, schedule: seq<nat>)
    requires !NoPanics(env, planned)
    ensures FanOutOf(env, planned, available, out, schedule).entries == Err(Execution)
    ensures SequentialMap(env, out, planned) == Err(Execution)
  {
    hide Turn, Execute, Drain, Chunks, ChunkSize, WorkerShape;
    var m :| 0 <= m < |planned| && env.prepare(planned[m]).Panics?;
    var chunks, size := ChunksOf(planned, available), ChunkSize(|planned|, available);
    var start, inv := Pool(Spawn(chunks), out), (q: Pool) => Halts(env, chunks, q);
    forall q: Pool, k: nat | Shape(q) && inv(q) ensures inv(Turn(env, q, k)) { TurnHalts(env, chunks, q, k); }
    SpawnOnCourse(env, out, chunks);
    ExecuteKeeps(env, start, schedule, inv);
    DrainKeeps(env, Execute(env, start, schedule), 0, inv);
    DrainFinishes(env, Execute(env, start, schedule), 0);
    ChunkAt(planned, size, m);
    var pool := PoolAfter(env, chunks, out, schedule);
    assert chunks[m / size][m % size] == planned[m];
    assert pool.workers[m / size].panicked;
    assert Alone(env, out, planned[m]).None?;
  }

  // ---- Runs of one id in one chunk ----------------------------------------

  /** No two workers have runs of one id, and no run panics. */
  ghost predicate Separate(env: Env, chunks: seq<seq<PlannedRun>>)
  {
    && (forall k, i | 0 <= k < |chunks| && 0 <= i < |chunks[k]| :: !env.prepare(chunks[k][i]).Panics?)
    && forall k, u, i, j |
         0 <= k < |chunks| && 0 <= u < |chunks| && k != u && 0 <= i < |chunks[k]| && 0 <= j < |chunks[u]| ::
         !SameId(env, chunks[k][i], chunks[u][j])
  }

  predicate SameId(env: Env, p: PlannedRun, q: PlannedRun)
  {
    env.prepare(p).Ready? && env.prepare(q).Ready? && env.prepare(p).id == env.prepare(q).id
  }

  /** What every step keeps for one worker: lone entries so far, and a call that will succeed. */
  ghost predicate Steady(env: Env, out0: Output, out: Output, w: Worker)
  {
    && WorkerShape(w) && !w.panicked
    && (forall i | 0 <= i < |w.local| :: Alone(env, out0, w.chunk[i]) == Some(w.local[i]))
    && (|w.local| < |w.chunk| ==> Lands(env, out, w.chunk[|w.local|], w.current))
  }

  ghost predicate PoolSteady(env: Env, out0: Output, chunks: seq<seq<PlannedRun>>, pool: Pool)
  {
    && |pool.workers| == |chunks|
    && forall k | 0 <= k < |chunks| ::
         pool.workers[k].chunk == chunks[k] && Steady(env, out0, pool.out, pool.workers[k])
  }

  lemma SteadyOwn(env: Env, out0: Output, w: Worker, out: Output)
    requires Calm(env) && env.overwrite && Steady(env, out0, out, w)
    requires forall i | 0 <= i < |w.chunk| :: !env.prepare(w.chunk[i]).Panics?
    ensures Steady(env, out0, WorkerStep(env, w, out).out, WorkerStep(env, w, out).worker)
  {
    hide Calm, Alone, WorkerStep;
    StepShape(env, w, out);
    if Finished(w) {
      FinishedStays(env, w, out);
    } else {
      CalmStep(env, out0, w, out);
      var s := WorkerStep(env, w, out);
      forall i | 0 <= i < |w.local| ensures |s.worker.local| > i && s.worker.local[i] == w.local[i] {
        assert s.worker.local[..|w.local|][i] == w.local[i];
      }
    }
  }

  lemma SteadyOther(env: Env, out0: Output, w: Worker, out: Output, u: Worker)
    requires Steady(env, out0, out, w) && Steady(env, out0, out, u)
    requires forall i, j | 0 <= i < |w.chunk| && 0 <= j < |u.chunk| :: !SameId(env, w.chunk[i], u.chunk[j])
    ensures Steady(env, out0, WorkerStep(env, w, out).out, u)
  {
    hide Alone, WorkerStep, P.Run;
    if Finished(w) {
      FinishedStays(env, w, out);
    } else if u.current.Publishing? {
      assert !SameId(env, w.chunk[|w.local|], u.chunk[|u.local|]);
      StepElsewhere(env, w, out, u.current.id);
    }
  }

  lemma TurnStaysSteady(env: Env, out0: Output, chunks: seq<seq<PlannedRun>>, pool: Pool, k: nat)
    requires Calm(env) && env.overwrite && Separate(env, chunks) && Shape(pool) && PoolSteady(env, out0, chunks, pool)
    ensures PoolSteady(env, out0, chunks, Turn(env, pool, k))
  {
    hide WorkerStep, Steady, Calm, SameId;
    if k < |chunks| {
      var w := pool.workers[k];
      SteadyOwn(env, out0, w, pool.out);
      StepShape(env, w, pool.out);
      forall u | 0 <= u < |chunks| && u != k
        ensures Steady(env, out0, WorkerStep(env, w, pool.out).out, pool.workers[u])
      {
        SteadyOther(env, out0, w, pool.out, pool.workers[u]);
      }
    }
  }

  /** Where bundles may be replaced, runs of one id that one worker makes in turn all end as they would alone. */
  lemma SteadyIsMap(env: Env, planned: seq<PlannedRun>, available: nat, out: Output, schedule: seq<nat>)
    requires planned != [] && Indexed(planned) && Calm(env) && env.overwrite
    requires Separate(env, ChunksOf(planned, available))
    ensures FanOutOf(env, planned, available, out, schedule).entries == SequentialMap(env, out, planned)
  {
    hide Turn, Execute, Drain, ChunksOf, Calm, Separate, Alone, Lands, Concat, Sort, SequentialMap, WorkerShape;
    var chunks := ChunksOf(planned, available);
    var start, inv := Pool(Spawn(chunks), out), (q: Pool) => PoolSteady(env, out, chunks, q);
    forall q: Pool, k: nat | Shape(q) && inv(q) ensures inv(Turn(env, q, k)) {
      TurnStaysSteady(env, out, chunks, q, k);
    }
    SpawnSteady(env, out, chunks);
    ExecuteKeeps(env, start, schedule, inv);
    DrainKeeps(env, Execute(env, start, schedule), 0, inv);
    DrainFinishes(env, Execute(env, start, schedule), 0);
    AloneIsMap(env, planned, available, out, PoolAfter(env, chunks, out, schedule).workers);
  }

  lemma SpawnSteady(env: Env, out0: Output, chunks: seq<seq<PlannedRun>>)
    ensures PoolSteady(env, out0, chunks, Pool(Spawn(chunks), out0)) && Shape(Pool(Spawn(chunks), out0))
  {
  }

  lemma HarmlessSeparates(env: Env, planned: seq<PlannedRun>, available: nat, out: Output)
    requires planned != [] && NoPanics(env, planned) && env.overwrite && Harmless(env, planned, available, out)
    ensures Separate(env, ChunksOf(planned, available))
  {
    hide Chunks, ChunkSize;
    var chunks, size := ChunksOf(planned, available), ChunkSize(|planned|, available);
    forall k, i | 0 <= k < |chunks| && 0 <= i < |chunks[k]| ensures !env.prepare(chunks[k][i]).Panics? {
      var m := ChunkIndex(planned, size, k, i);
    }
    forall k, u, i, j |
      0 <= k < |chunks| && 0 <= u < |chunks| && k != u && 0 <= i < |chunks[k]| && 0 <= j < |chunks[u]|
      ensures !SameId(env, chunks[k][i], chunks[u][j])
    {
      var a := ChunkIndex(planned, size, k, i);
      var b := ChunkIndex(planned, size, u, j);
      var lo, hi := if a < b then a else b, if a < b then b else a;
      assert Apart(env, out, planned[lo], planned[hi]) || SameChunk(planned, available, lo, hi);
    }
  }

  // ---- The exact condition ------------------------------------------------

  /**
   On one machine: a batch equals its sequential map under every schedule if and
   only if a run panics, which is the error of both, or any two runs are apart
   or have bundles that may be replaced and fall into one chunk.
   */
  lemma RaceIff(env: Env, planned: seq<PlannedRun>, available: nat, out: Output)
    requires Indexed(planned) && Calm(env)
    ensures (forall schedule: seq<nat> ::
               FanOutOf(env, planned, available, out, schedule).entries == SequentialMap(env, out, planned)) <==>
            !NoPanics(env, planned) || Harmless(env, planned, available, out)
  {
    hide FanOutOf, SequentialMap, Apart, Calm, NoPanics, SameChunk;
    if !NoPanics(env, planned) || Harmless(env, planned, available, out) {
      forall schedule: seq<nat>
        ensures FanOutOf(env, planned, available, out, schedule).entries == SequentialMap(env, out, planned)
      {
        if !NoPanics(env, planned) {
          PanicSpreads(env, planned, available, out, schedule);
        } else if env.overwrite && planned != [] {
          HarmlessSeparates(env, planned, available, out);
          SteadyIsMap(env, planned, available, out, schedule);
        } else {
          ScheduleIrrelevant(env, planned, available, out, schedule);
        }
      }
    } else {
      var i, j :| 0 <= i < j < |planned| &&
        !(Apart(env, out, planned[i], planned[j]) || (env.overwrite && SameChunk(planned, available, i, j)));
      var schedule := RaceBreaks(env, planned, available, out, i, j);
    }
  }

  /** On every machine: only runs that are pairwise apart keep the promise whatever the number of workers. */
  lemma RaceIffAnywhere(env: Env, planned: seq<PlannedRun>, out: Output)
    requires Indexed(planned) && Calm(env)
    ensures (forall available: nat, schedule: seq<nat> ::
               FanOutOf(env, planned, available, out, schedule).entries == SequentialMap(env, out, planned)) <==>
            !NoPanics(env, planned) || AllApart(env, out, planned)
  {
    hide FanOutOf, SequentialMap, Apart, Calm, NoPanics, SameChunk;
    if !NoPanics(env, planned) || AllApart(env, out, planned) {
      forall available: nat, schedule: seq<nat>
        ensures FanOutOf(env, planned, available, out, schedule).entries == SequentialMap(env, out, planned)
      {
        RaceIff(env, planned, available, out);
      }
    } else {
      var i, j :| 0 <= i < j < |planned| && !Apart(env, out, planned[i], planned[j]);
      OneEach(planned, i, j);
      RaceIff(env, planned, |planned|, out);
    }
  }

  /** With a worker for every run no two runs share a chunk. */
  lemma OneEach(planned: seq<PlannedRun>, i: nat, j: nat)
    requires i < j < |planned|
    ensures !SameChunk(planned, |planned|, i, j)
  {
    var n := |planned|;
    assert n + n - 1 == n * 1 + (n - 1);
    assert DivCeil(n, n) == 1;
  }
}
