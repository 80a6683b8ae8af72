/**
 The crash-safe publish protocol of `write_bundle`: three sibling directory
 names, atomic renames, recursive removals that may stop half-way, and a fault
 script that decides what every filesystem call does.
 */
module Publish {

  datatype File = Fills | EquityCurve | Positions | GreeksAttribution | ManifestJson

  /** A file is torn until its last byte is written; `run` identifies the call that wrote it. */
  datatype Content = Torn | Whole(run: nat)

  datatype Dir = Absent | Present(files: map<File, Content>)

  /** `<id>`, `.<id>.partial` and `.<id>.backup`. */
  datatype Name = Dest | Temp | Backup

  datatype Dirs = Dirs(dest: Dir, temp: Dir, backup: Dir) {
    function At(n: Name): Dir
    {
      match n
      case Dest => dest
      case Temp => temp
      case Backup => backup
    }

    function Put(n: Name, d: Dir): Dirs
    {
      match n
      case Dest => this.(dest := d)
      case Temp => this.(temp := d)
      case Backup => this.(backup := d)
    }
  }

  function Bundle(run: nat): Dir
  {
    Present(map[Fills := Whole(run), EquityCurve := Whole(run), Positions := Whole(run),
                GreeksAttribution := Whole(run), ManifestJson := Whole(run)])
  }

  ghost predicate Complete(d: Dir)
  {
    exists run: nat :: d == Bundle(run)
  }

  ghost predicate Sound(d: Dirs)
  {
    d.dest == Absent || Complete(d.dest)
  }

  ghost predicate Recoverable(d: Dirs)
  {
    Complete(d.dest) || Complete(d.backup)
  }

  /** What is left of a directory whose recursive removal was interrupted. */
  predicate Remnant(left: Dir, whole: Dir)
  {
    left == Absent || (whole.Present? && left.Present? &&
                       left.files.Keys <= whole.files.Keys &&
                       forall f | f in left.files :: left.files[f] == whole.files[f])
  }

  /**
   What the filesystem does with one call. `Spurious` reports an error although
   the effect took place; the `Halfway` faults leave a torn file or a partly
   removed directory that still holds `kept`.
   */
  datatype Fault =
    | NoFault
    | Refused
    | Spurious
    | Halfway(kept: set<File>)
    | CrashBefore
    | CrashAfter
    | CrashHalfway(kept: set<File>)
  {
    predicate Crashes() { CrashBefore? || CrashAfter? || CrashHalfway? }
    predicate TakesEffect() { NoFault? || Spurious? || CrashAfter? }
    predicate Interrupts() { Halfway? || CrashHalfway? }
  }

  /** The point of the call an error is raised at, as its message names it. */
  datatype Site =
    | StatDest | Collision | CreateOutput | StatTemp | RemoveLeftover | MakeTemp
    | Build | StatBackup | RemoveStaleBackup | MoveAside | MoveIntoPlace

  datatype Outcome = Published | Failed(site: Site) | Died

  /** The result of one filesystem call. */
  datatype Io = Fine | Error | Crash

  function IoOf(f: Fault): Io
  {
    if f.Crashes() then Crash else if f.NoFault? then Fine else Error
  }

  predicate FreeTarget(d: Dir)
  {
    d == Absent || d == Present(map[])
  }

  predicate CanRename(d: Dirs, from: Name, to: Name)
  {
    from != to && d.At(from).Present? && FreeTarget(d.At(to))
  }

  function Renamed(d: Dirs, from: Name, to: Name): Dirs
  {
    d.Put(to, d.At(from)).Put(from, Absent)
  }

  function Refusal(f: Fault): Io
  {
    if f.Crashes() then Crash else Error
  }

  /** The directories after a filesystem call, and what the call reported. */
  datatype After = After(dirs: Dirs, io: Io)

  /** Asking for a name, or creating the parent: nothing changes. */
  function StatOp(d: Dirs, f: Fault): After
  {
    After(d, IoOf(f))
  }

  function RenameOp(d: Dirs, from: Name, to: Name, f: Fault): After
  {
    if CanRename(d, from, to) then After(if f.TakesEffect() then Renamed(d, from, to) else d, IoOf(f))
    else After(d, Refusal(f))
  }

  function RemoveOp(d: Dirs, n: Name, f: Fault): After
  {
    match d.At(n)
    case Absent => After(d, Refusal(f))
    case Present(files) =>
      After(if f.TakesEffect() then d.Put(n, Absent)
            else if f.Interrupts() then d.Put(n, Present(map k | k in files && k in f.kept :: files[k]))
            else d, IoOf(f))
  }

  function CreateOp(d: Dirs, f: Fault): After
  {
    if d.temp.Present? then After(d, Refusal(f))
    else After(if f.TakesEffect() then d.Put(Temp, Present(map[])) else d, IoOf(f))
  }

  /** Without the temp directory, which another writer may have removed, the file cannot be created. */
  function WriteOp(d: Dirs, file: File, run: nat, f: Fault): After
  {
    match d.temp
    case Absent => After(d, Refusal(f))
    case Present(files) =>
      After(if f.TakesEffect() then d.Put(Temp, Present(files[file := Whole(run)]))
            else if f.Interrupts() then d.Put(Temp, Present(files[file := Torn]))
            else d, IoOf(f))
  }

  // ---- One call as a machine of filesystem steps --------------------------

  /** The filesystem call a writer makes next. */
  datatype Stage =
    | StattingDest | CreatingOutput | StattingTemp | RemovingLeftover | MakingTemp
    | Writing(next: nat)
    | StattingBackup | RemovingStale | MovingAside | MovingIntoPlace | Restoring | DroppingBackup
    | Cleaning(site: Site)
    | Done(outcome: Outcome)

  /** A call in progress; `replacing` is what it saw when it asked for the destination. */
  datatype Progress = Progress(stage: Stage, replacing: bool)

  datatype Job = Job(run: nat, overwrite: bool)

  const START := Progress(StattingDest, false)

  function FileAt(n: nat): File
  {
    match n
    case 0 => Fills
    case 1 => EquityCurve
    case 2 => Positions
    case 3 => GreeksAttribution
    case _ => ManifestJson
  }

  function Perform(stage: Stage, d: Dirs, run: nat, f: Fault): After
  {
    match stage
    case RemovingLeftover => RemoveOp(d, Temp, f)
    case MakingTemp => CreateOp(d, f)
    case Writing(n) => WriteOp(d, FileAt(n), run, f)
    case RemovingStale => RemoveOp(d, Backup, f)
    case MovingAside => RenameOp(d, Dest, Backup, f)
    case MovingIntoPlace => RenameOp(d, Temp, Dest, f)
    case Restoring => RenameOp(d, Backup, Dest, f)
    case DroppingBackup => RemoveOp(d, Backup, f)
    case Cleaning(_) => RemoveOp(d, Temp, f)
    case _ => StatOp(d, f)
  }

  /** Where a call goes when nothing went wrong. */
  function OnFine(p: Progress, d: Dirs, overwrite: bool): Stage
  {
    match p.stage
    case StattingDest => if d.dest.Present? && !overwrite then Done(Failed(Collision)) else CreatingOutput
    case CreatingOutput => StattingTemp
    case StattingTemp => if d.temp.Present? then RemovingLeftover else MakingTemp
    case RemovingLeftover => MakingTemp
    case MakingTemp => Writing(0)
    case Writing(n) => if n < 4 then Writing(n + 1) else if p.replacing then StattingBackup else MovingIntoPlace
    case StattingBackup => if d.backup.Present? then RemovingStale else MovingAside
    case RemovingStale => MovingAside
    case MovingAside => MovingIntoPlace
    case MovingIntoPlace => if p.replacing then DroppingBackup else Done(Published)
    case Restoring => Cleaning(MoveIntoPlace)
    case DroppingBackup => Done(Published)
    case Cleaning(site) => Done(Failed(site))
    case Done(o) => Done(o)
  }

  /** Where a call goes when the filesystem reported an error. */
  function OnError(p: Progress): Stage
  {
    match p.stage
    case StattingDest => Done(Failed(StatDest))
    case CreatingOutput => Done(Failed(CreateOutput))
    case StattingTemp => Done(Failed(StatTemp))
    case RemovingLeftover => Done(Failed(RemoveLeftover))
    case MakingTemp => Done(Failed(MakeTemp))
    case Writing(_) => Cleaning(Build)
    case StattingBackup => Done(Failed(StatBackup))
    case RemovingStale => Done(Failed(RemoveStaleBackup))
    case MovingAside => Cleaning(MoveAside)
    case MovingIntoPlace => if p.replacing then Restoring else Cleaning(MoveIntoPlace)
    case Restoring => Cleaning(MoveIntoPlace)
    case DroppingBackup => Done(Published)
    case Cleaning(site) => Done(Failed(site))
    case Done(o) => Done(o)
  }

  function Follow(p: Progress, a: After, overwrite: bool): Progress
  {
    var replacing := if p.stage.StattingDest? then a.dirs.dest.Present? else p.replacing;
    match a.io
    case Crash => Progress(Done(Died), replacing)
    case Error => Progress(OnError(p), replacing)
    case Fine => Progress(OnFine(p, a.dirs, overwrite), replacing)
  }

  /** At most this many filesystem calls are left. */
  function Rank(stage: Stage): nat
  {
    match stage
    case StattingDest => 17
    case CreatingOutput => 16
    case StattingTemp => 15
    case RemovingLeftover => 14
    case MakingTemp => 13
    case Writing(n) => if n < 4 then 12 - n else 8
    case StattingBackup => 7
    case RemovingStale => 6
    case MovingAside => 5
    case MovingIntoPlace => 4
    case Restoring => 3
    case DroppingBackup => 1
    case Cleaning(_) => 1
    case Done(_) => 0
  }

  lemma FollowDescends(p: Progress, a: After, overwrite: bool)
    requires !p.stage.Done?
    ensures Rank(Follow(p, a, overwrite).stage) < Rank(p.stage)
  {
  }

  /** How a call ends: its outcome, the directories, and the number of the next filesystem call. */
  datatype Ended = Ended(outcome: Outcome, dirs: Dirs, next: nat)

  function Run(p: Progress, d: Dirs, job: Job, faults: nat -> Fault, c: nat): Ended
    decreases Rank(p.stage)
  {
    if p.stage.Done? then Ended(p.stage.outcome, d, c)
    else
      var a := Perform(p.stage, d, job.run, faults(c));
      FollowDescends(p, a, job.overwrite);
      Run(Follow(p, a, job.overwrite), a.dirs, job, faults, c + 1)
  }

  lemma Unroll(p: Progress, d: Dirs, job: Job, faults: nat -> Fault, c: nat)
    requires !p.stage.Done?
    ensures var a := Perform(p.stage, d, job.run, faults(c));
            Run(p, d, job, faults, c) == Run(Follow(p, a, job.overwrite), a.dirs, job, faults, c + 1)
  {
  }

  /**
   Everything one call to `write_bundle` promises about the three directories,
   whatever the filesystem did meanwhile.
   */
  ghost predicate CallStep(pre: Dirs, run: nat, overwrite: bool, o: Outcome, post: Dirs)
  {
    && (Sound(pre) ==> Sound(post))
    && (Sound(pre) && Recoverable(pre) ==> Recoverable(post))
    && (post.dest == pre.dest || post.dest == Bundle(run) || (post.dest == Absent && post.backup == pre.dest))
    && (post.backup != pre.backup ==> post.backup == pre.dest || Remnant(post.backup, pre.backup) ||
                                      Remnant(post.backup, pre.dest))
    && (o == Published ==> post.dest == Bundle(run))
    && (o.Failed? && pre.dest.Present? ==> post.dest == pre.dest || post.backup == pre.dest)
    && (pre.dest == Absent ==> post.backup == pre.backup)
    && (pre.dest.Present? && !overwrite ==> o != Published && post == pre)
  }

  class OutputDir {
    var dirs: Dirs
    var clock: nat
    const faults: nat -> Fault

    constructor (faults: nat -> Fault)
      ensures dirs == Dirs(Absent, Absent, Absent) && clock == 0 && this.faults == faults
    {
      this.faults := faults;
      dirs := Dirs(Absent, Absent, Absent);
      clock := 0;
    }

    /** A call without effect on the three names: a stat, or creating the parent. */
    method Touch() returns (io: Io)
      modifies this`clock
      ensures clock == old(clock) + 1
      ensures After(dirs, io) == StatOp(old(dirs), faults(old(clock)))
    {
      io := IoOf(faults(clock));
      clock := clock + 1;
    }

    method Rename(from: Name, to: Name) returns (io: Io)
      requires from != to
      modifies this
      ensures clock == old(clock) + 1
      ensures var f := faults(old(clock));
              io == if CanRename(old(dirs), from, to) || f.Crashes() then IoOf(f) else Error
      ensures dirs == if CanRename(old(dirs), from, to) && faults(old(clock)).TakesEffect()
                      then Renamed(old(dirs), from, to) else old(dirs)
      ensures After(dirs, io) == RenameOp(old(dirs), from, to, faults(old(clock)))
    {
      var f := faults(clock);
      clock := clock + 1;
      if CanRename(dirs, from, to) {
        if f.TakesEffect() {
          dirs := Renamed(dirs, from, to);
        }
        io := IoOf(f);
      } else {
        io := if f.Crashes() then Crash else Error;
      }
    }

    method RemoveAll(n: Name) returns (io: Io)
      modifies this
      ensures clock == old(clock) + 1
      ensures dirs == old(dirs).Put(n, dirs.At(n))
      ensures Remnant(dirs.At(n), old(dirs).At(n))
      ensures var f := faults(old(clock));
              io == if old(dirs).At(n).Present? || f.Crashes() then IoOf(f) else Error
      ensures faults(old(clock)).TakesEffect() ==> dirs.At(n) == Absent
      ensures faults(old(clock)).Refused? ==> dirs == old(dirs)
      ensures After(dirs, io) == RemoveOp(old(dirs), n, faults(old(clock)))
    {
      var f := faults(clock);
      clock := clock + 1;
      match dirs.At(n)
      case Absent =>
        io := if f.Crashes() then Crash else Error;
      case Present(files) =>
        if f.TakesEffect() {
          dirs := dirs.Put(n, Absent);
        } else if f.Interrupts() {
          dirs := dirs.Put(n, Present(map k | k in files && k in f.kept :: files[k]));
        }
        io := IoOf(f);
    }

    method CreateTemp() returns (io: Io)
      modifies this
      ensures clock == old(clock) + 1
      ensures var f := faults(old(clock));
              io == if old(dirs).temp == Absent || f.Crashes() then IoOf(f) else Error
      ensures dirs == old(dirs) || (old(dirs).temp == Absent && dirs == old(dirs).Put(Temp, Present(map[])))
      ensures io == Fine ==> dirs == old(dirs).Put(Temp, Present(map[]))
      ensures faults(old(clock)).Refused? ==> dirs == old(dirs)
      ensures After(dirs, io) == CreateOp(old(dirs), faults(old(clock)))
    {
      var f := faults(clock);
      clock := clock + 1;
      if dirs.temp == Absent {
        if f.TakesEffect() {
          dirs := dirs.Put(Temp, Present(map[]));
        }
        io := IoOf(f);
      } else {
        io := if f.Crashes() then Crash else Error;
      }
    }

    /** Encode one file into the temp directory; an interrupted write leaves it torn. */
    method WriteFile(file: File, run: nat) returns (io: Io)
      requires dirs.temp.Present?
      modifies this
      ensures clock == old(clock) + 1
      ensures io == IoOf(faults(old(clock)))
      ensures || dirs == old(dirs)
              || dirs == old(dirs).Put(Temp, Present(old(dirs).temp.files[file := Torn]))
              || dirs == old(dirs).Put(Temp, Present(old(dirs).temp.files[file := Whole(run)]))
      ensures io == Fine ==> dirs == old(dirs).Put(Temp, Present(old(dirs).temp.files[file := Whole(run)]))
      ensures After(dirs, io) == WriteOp(old(dirs), file, run, faults(old(clock)))
    {
      var f := faults(clock);
      clock := clock + 1;
      var files := dirs.temp.files;
      if f.TakesEffect() {
        dirs := dirs.Put(Temp, Present(files[file := Whole(run)]));
      } else if f.Interrupts() {
        dirs := dirs.Put(Temp, Present(files[file := Torn]));
      }
      io := IoOf(f);
    }

    /** What the machine makes of the rest of a call, from here on. */
    ghost function Rest(p: Progress, job: Job): Ended
      reads this
    {
      Run(p, dirs, job, faults, clock)
    }

    /** The `n`-th file of the build. */
    method WriteNext(n: nat, run: nat, ghost job: Job, ghost replacing: bool) returns (io: Io)
      requires n <= 4 && job.run == run && dirs.temp.Present?
      modifies this
      ensures clock == old(clock) + 1 && io == IoOf(faults(old(clock)))
      ensures || dirs == old(dirs)
              || dirs == old(dirs).Put(Temp, Present(old(dirs).temp.files[FileAt(n) := Torn]))
              || dirs == old(dirs).Put(Temp, Present(old(dirs).temp.files[FileAt(n) := Whole(run)]))
      ensures io == Fine ==> dirs == old(dirs).Put(Temp, Present(old(dirs).temp.files[FileAt(n) := Whole(run)]))
      ensures old(Rest(Progress(Writing(n), replacing), job)) ==
              Rest(Progress(AfterWrite(n, io, replacing), replacing), job)
    {
      hide Run, WriteOp;
      Unroll(Progress(Writing(n), replacing), dirs, job, faults, clock);
      io := WriteFile(FileAt(n), run);
    }

    /** The four tables; no manifest yet. */
    method BuildTables(ghost job: Job, run: nat, ghost replacing: bool) returns (io: Io)
      requires dirs.temp == Present(map[]) && job.run == run
      modifies this
      ensures dirs == old(dirs).Put(Temp, dirs.temp) && dirs.temp.Present? && ManifestJson !in dirs.temp.files
      ensures io == Fine ==>
                dirs.temp.files == map[Fills := Whole(run), EquityCurve := Whole(run), Positions := Whole(run),
                                       GreeksAttribution := Whole(run)]
      ensures old(clock) < clock <= old(clock) + 4 && io == IoOf(faults(clock - 1))
      ensures (forall k | old(clock) <= k < old(clock) + 4 :: faults(k).NoFault?) ==> io == Fine
      ensures io == Fine ==> clock == old(clock) + 4
      ensures old(Rest(Progress(Writing(0), replacing), job)) ==
              Rest(Progress(AfterWrite(3, io, replacing), replacing), job)
    {
      hide Rest;
      io := WriteNext(0, run, job, replacing);
      if io != Fine { return; }
      io := WriteNext(1, run, job, replacing);
      if io != Fine { return; }
      io := WriteNext(2, run, job, replacing);
      if io != Fine { return; }
      io := WriteNext(3, run, job, replacing);
    }

    /** The tables, then the manifest: a whole manifest means four whole tables. */
    method BuildInto(ghost job: Job, run: nat, ghost replacing: bool) returns (io: Io)
      requires dirs.temp == Present(map[]) && job.run == run
      modifies this
      ensures dirs == old(dirs).Put(Temp, dirs.temp) && dirs.temp.Present?
      ensures io == Fine ==> dirs.temp == Bundle(run)
      ensures ManifestJson in dirs.temp.files && dirs.temp.files[ManifestJson].Whole? ==> dirs.temp == Bundle(run)
      ensures old(clock) < clock <= old(clock) + 5 && io == IoOf(faults(clock - 1))
      ensures (forall k | old(clock) <= k < old(clock) + 5 :: faults(k).NoFault?) ==> io == Fine
      ensures old(Rest(Progress(Writing(0), replacing), job)) ==
              Rest(Progress(AfterWrite(4, io, replacing), replacing), job)
    {
      hide Rest;
      io := BuildTables(job, run, replacing);
      if io != Fine { return; }
      io := WriteNext(4, run, job, replacing);
    }

    ghost predicate QuietFrom(k: nat)
    {
      forall i | k <= i :: faults(i).NoFault?
    }

    /** Best-effort removal of the temp directory before an error is returned. */
    method CleanUp(ghost job: Job, site: Site, ghost replacing: bool) returns (o: Outcome)
      modifies this
      ensures dirs == old(dirs).Put(Temp, dirs.temp)
      ensures o == Died || o == Failed(site)
      ensures QuietFrom(old(clock)) ==> o == Failed(site) && dirs.temp == Absent
      ensures Ended(o, dirs, clock) == old(Rest(Progress(Cleaning(site), replacing), job))
    {
      hide Run, RenameOp, RemoveOp, CreateOp, WriteOp;
      Unroll(Progress(Cleaning(site), replacing), dirs, job, faults, clock);
      var io := RemoveAll(Temp);
      o := if io == Crash then Died else Failed(site);
      RunDone(o, replacing, dirs, job, faults, clock);
    }

    /**
     `write_bundle` for one run: the call computes what the machine does, and
     whatever the filesystem did meanwhile keeps the promises of `CallStep`.
     */
    method WriteBundle(run: nat, overwrite: bool) returns (o: Outcome)
      modifies this
      ensures CallStep(old(dirs), run, overwrite, o, dirs)
      ensures QuietFrom(old(clock)) && (old(dirs).dest == Absent || overwrite) ==>
                o == Published &&
                dirs == Dirs(Bundle(run), Absent, if old(dirs).dest == Absent then old(dirs).backup else Absent)
      ensures Ended(o, dirs, clock) == old(Rest(START, Job(run, overwrite)))
    {
      hide Run, RenameOp, RemoveOp, CreateOp, WriteOp;
      ghost var job := Job(run, overwrite);
      Unroll(START, dirs, job, faults, clock);
      var io := Touch();
      if io != Fine {
        RunDone(Stop(io, StatDest), dirs.dest.Present?, dirs, job, faults, clock);
        return Stop(io, StatDest);
      }
      var destExists := dirs.dest.Present?;
      if destExists && !overwrite {
        RunDone(Failed(Collision), destExists, dirs, job, faults, clock);
        return Failed(Collision);
      }
      Unroll(Progress(CreatingOutput, destExists), dirs, job, faults, clock);
      io := Touch();
      if io != Fine {
        RunDone(Stop(io, CreateOutput), destExists, dirs, job, faults, clock);
        return Stop(io, CreateOutput);
      }
      o := Publish(run, destExists, job);
    }

    /** The rest of the call once it may go ahead: temp directory, build, then one of the two ways to publish. */
    method Publish(run: nat, destExists: bool, ghost job: Job) returns (o: Outcome)
      requires job.run == run && destExists == dirs.dest.Present? && (destExists ==> job.overwrite)
      modifies this
      ensures CallStep(old(dirs), run, job.overwrite, o, dirs)
      ensures QuietFrom(old(clock)) ==>
                o == Published &&
                dirs == Dirs(Bundle(run), Absent, if old(dirs).dest == Absent then old(dirs).backup else Absent)
      ensures Ended(o, dirs, clock) == old(Rest(Progress(StattingTemp, destExists), job))
    {
      hide Run, RenameOp, RemoveOp, CreateOp, WriteOp;
      var io, site := PrepareTemp(job, destExists);
      if io != Fine {
        RunDone(Stop(io, site), destExists, dirs, job, faults, clock);
        return Stop(io, site);
      }
      io := BuildInto(job, run, destExists);
      if io == Crash {
        RunDone(Died, destExists, dirs, job, faults, clock);
        return Died;
      }
      if io == Error {
        o := CleanUp(job, Build, destExists);
        return o;
      }
      if destExists {
        o := Replace(run, job);
      } else {
        o := PublishFresh(run, job);
      }
    }

    /** An empty temp directory, whatever a crashed call left under that name. */
    method PrepareTemp(ghost job: Job, ghost replacing: bool) returns (io: Io, site: Site)
      modifies this
      ensures dirs == old(dirs).Put(Temp, dirs.temp)
      ensures io == Fine ==> dirs.temp == Present(map[])
      ensures io != Fine ==> site in {StatTemp, RemoveLeftover, MakeTemp}
      ensures clock > old(clock)
      ensures QuietFrom(old(clock)) ==> io == Fine
      ensures old(Rest(Progress(StattingTemp, replacing), job)) ==
              Rest(Progress(if io == Fine then Writing(0) else Done(Stop(io, site)), replacing), job)
    {
      hide Run, RenameOp, RemoveOp, CreateOp, WriteOp, Remnant;
      site := StatTemp;
      Unroll(Progress(StattingTemp, replacing), dirs, job, faults, clock);
      io := Touch();
      if io != Fine { return; }
      if dirs.temp.Present? {
        site := RemoveLeftover;
        Unroll(Progress(RemovingLeftover, replacing), dirs, job, faults, clock);
        io := RemoveAll(Temp);
        if io != Fine { return; }
      }
      site := MakeTemp;
      Unroll(Progress(MakingTemp, replacing), dirs, job, faults, clock);
      io := CreateTemp();
    }

    /** Publish into an empty place: one rename. */
    method PublishFresh(run: nat, ghost job: Job) returns (o: Outcome)
      requires dirs.dest == Absent && dirs.temp == Bundle(run)
      modifies this
      ensures dirs.backup == old(dirs).backup && (dirs.dest == Absent || dirs.dest == Bundle(run))
      ensures o == Published ==> dirs.dest == Bundle(run)
      ensures QuietFrom(old(clock)) ==> o == Published && dirs == old(dirs).Put(Dest, Bundle(run)).Put(Temp, Absent)
      ensures o.Failed? ==> o.site == MoveIntoPlace
      ensures Ended(o, dirs, clock) == old(Rest(Progress(MovingIntoPlace, false), job))
    {
      hide Run, RenameOp, RemoveOp, CreateOp, WriteOp;
      Unroll(Progress(MovingIntoPlace, false), dirs, job, faults, clock);
      var io := Rename(Temp, Dest);
      if io == Error {
        o := CleanUp(job, MoveIntoPlace, false);
        return o;
      }
      o := if io == Crash then Died else Published;
      RunDone(o, false, dirs, job, faults, clock);
    }

    /** Publish over an existing bundle: move it aside, rename, then drop the backup. */
    method Replace(run: nat, ghost job: Job) returns (o: Outcome)
      requires dirs.dest.Present? && dirs.temp == Bundle(run)
      modifies this
      ensures Complete(old(dirs).dest) ==> Sound(dirs) && Recoverable(dirs)
      ensures || (dirs.dest == old(dirs).dest && Remnant(dirs.backup, old(dirs).backup))
              || (dirs.dest == Absent && dirs.backup == old(dirs).dest)
              || (dirs.dest == Bundle(run) && Remnant(dirs.backup, old(dirs).dest))
      ensures o == Published ==> dirs.dest == Bundle(run)
      ensures o.Failed? ==> dirs.dest == old(dirs).dest || dirs.backup == old(dirs).dest
      ensures QuietFrom(old(clock)) ==> o == Published && dirs == Dirs(Bundle(run), Absent, Absent)
      ensures o.Failed? ==> o.site in {StatBackup, RemoveStaleBackup, MoveAside, MoveIntoPlace}
      ensures Ended(o, dirs, clock) == old(Rest(Progress(StattingBackup, true), job))
    {
      hide Run, RenameOp, RemoveOp, CreateOp, WriteOp;
      Unroll(Progress(StattingBackup, true), dirs, job, faults, clock);
      var io := Touch();
      if io != Fine {
        RunDone(Stop(io, StatBackup), true, dirs, job, faults, clock);
        return Stop(io, StatBackup);
      }
      if dirs.backup.Present? {
        Unroll(Progress(RemovingStale, true), dirs, job, faults, clock);
        io := RemoveAll(Backup);
        if io != Fine {
          RunDone(Stop(io, RemoveStaleBackup), true, dirs, job, faults, clock);
          return Stop(io, RemoveStaleBackup);
        }
      }
      o := Swap(run, job);
    }

    /** The two renames of a replacement, the restoring one, and the end of the backup. */
    method Swap(run: nat, ghost job: Job) returns (o: Outcome)
      requires dirs.dest.Present? && dirs.temp == Bundle(run) && dirs.backup == Absent
      modifies this
      ensures || (dirs.dest == old(dirs).dest && dirs.backup == Absent)
              || (dirs.dest == Absent && dirs.backup == old(dirs).dest)
              || (dirs.dest == Bundle(run) && Remnant(dirs.backup, old(dirs).dest))
      ensures o == Published ==> dirs.dest == Bundle(run)
      ensures o.Failed? ==> dirs.dest == old(dirs).dest || dirs.backup == old(dirs).dest
      ensures QuietFrom(old(clock)) ==> o == Published && dirs == Dirs(Bundle(run), Absent, Absent)
      ensures o.Failed? ==> o.site in {MoveAside, MoveIntoPlace}
      ensures Ended(o, dirs, clock) == old(Rest(Progress(MovingAside, true), job))
    {
      hide Run, RenameOp, RemoveOp, Perform, Follow;
      UnrollMoves(dirs, job, faults, clock);
      var io := Rename(Dest, Backup);
      if io == Crash {
        RunDone(Died, true, dirs, job, faults, clock);
        return Died;
      }
      if io == Error {
        o := CleanUp(job, MoveAside, true);
        return o;
      }
      UnrollMoves(dirs, job, faults, clock);
      io := Rename(Temp, Dest);
      if io == Crash {
        RunDone(Died, true, dirs, job, faults, clock);
        return Died;
      }
      if io == Error {
        UnrollMoves(dirs, job, faults, clock);
        io := Rename(Backup, Dest);
        if io == Crash {
          RunDone(Died, true, dirs, job, faults, clock);
          return Died;
        }
        o := CleanUp(job, MoveIntoPlace, true);
        return o;
      }
      UnrollMoves(dirs, job, faults, clock);
      io := RemoveAll(Backup);
      o := if io == Crash then Died else Published;
      RunDone(o, true, dirs, job, faults, clock);
    }
  }

  function Stop(io: Io, site: Site): Outcome
  {
    if io == Crash then Died else Failed(site)
  }

  function AfterWrite(n: nat, io: Io, replacing: bool): Stage
  {
    match io
    case Crash => Done(Died)
    case Error => Cleaning(Build)
    case Fine => if n < 4 then Writing(n + 1) else if replacing then StattingBackup else MovingIntoPlace
  }

  function AfterMove(io: Io, failed: Stage, moved: Stage): Stage
  {
    match io
    case Crash => Done(Died)
    case Error => failed
    case Fine => moved
  }

  /** The three renames of a replacement, one step of the machine each. */
  lemma UnrollMoves(d: Dirs, job: Job, faults: nat -> Fault, c: nat)
    ensures var a := RenameOp(d, Dest, Backup, faults(c));
            Run(Progress(MovingAside, true), d, job, faults, c) ==
            Run(Progress(AfterMove(a.io, Cleaning(MoveAside), MovingIntoPlace), true), a.dirs, job, faults, c + 1)
    ensures var a := RenameOp(d, Temp, Dest, faults(c));
            Run(Progress(MovingIntoPlace, true), d, job, faults, c) ==
            Run(Progress(AfterMove(a.io, Restoring, DroppingBackup), true), a.dirs, job, faults, c + 1)
    ensures var a := RenameOp(d, Backup, Dest, faults(c));
            Run(Progress(Restoring, true), d, job, faults, c) ==
            Run(Progress(AfterMove(a.io, Cleaning(MoveIntoPlace), Cleaning(MoveIntoPlace)), true), a.dirs, job,
                faults, c + 1)
    ensures var a := RemoveOp(d, Backup, faults(c));
            Run(Progress(DroppingBackup, true), d, job, faults, c) ==
            Run(Progress(AfterMove(a.io, Done(Published), Done(Published)), true), a.dirs, job, faults, c + 1)
  {
    hide Run, RenameOp, RemoveOp;
    Unroll(Progress(MovingAside, true), d, job, faults, c);
    Unroll(Progress(MovingIntoPlace, true), d, job, faults, c);
    Unroll(Progress(Restoring, true), d, job, faults, c);
    Unroll(Progress(DroppingBackup, true), d, job, faults, c);
  }

  lemma RunDone(o: Outcome, replacing: bool, d: Dirs, job: Job, faults: nat -> Fault, c: nat)
    ensures Run(Progress(Done(o), replacing), d, job, faults, c) == Ended(o, d, c)
  {
  }

  // ---- Faulty filesystem calls --------------------------------------------

  /** The first `n` files of the build. */
  function Built(n: nat, run: nat): Dir
  {
    Present(map f | f in {Fills, EquityCurve, Positions, GreeksAttribution, ManifestJson} && Order(f) < n :: Whole(run))
  }

  function Order(f: File): nat
  {
    match f
    case Fills => 0
    case EquityCurve => 1
    case Positions => 2
    case GreeksAttribution => 3
    case ManifestJson => 4
  }

  function Count(d: Dir): nat
  {
    if d.Present? then 1 else 0
  }

  /** The call has made `j` filesystem calls and none of them failed. */
  ghost predicate OnTrack(pre: Dirs, job: Job, p: Progress, d: Dirs, j: int)
  {
    var t, b := Count(pre.temp), Count(pre.backup);
    var allowed := pre.dest == Absent || job.overwrite;
    var built := pre.Put(Temp, Bundle(job.run));
    (!p.stage.StattingDest? && !p.stage.Done? ==> allowed && p.replacing == pre.dest.Present?) &&
    match p.stage
    case StattingDest => j == 0 && d == pre
    case CreatingOutput => j == 1 && d == pre
    case StattingTemp => j == 2 && d == pre
    case RemovingLeftover => j == 3 && t == 1 && d == pre
    case MakingTemp => j == 3 + t && d == pre.Put(Temp, Absent)
    case Writing(n) => n <= 4 && j == 4 + t + n && d == pre.Put(Temp, Built(n, job.run))
    case StattingBackup => p.replacing && j == 9 + t && d == built
    case RemovingStale => p.replacing && j == 10 + t && b == 1 && d == built
    case MovingAside => p.replacing && j == 10 + t + b && d == built.Put(Backup, Absent)
    case MovingIntoPlace =>
      if p.replacing then j == 11 + t + b && d == Dirs(Absent, Bundle(job.run), pre.dest)
      else j == 9 + t && d == built
    case DroppingBackup => p.replacing && j == 12 + t + b && d == Dirs(Bundle(job.run), Absent, pre.dest)
    case Done(o) =>
      if allowed then o == Published && d.dest == Bundle(job.run) && d.temp == Absent && j == Length(pre)
      else o == Failed(Collision) && d == pre && j == 1
    case _ => false
  }

  /** How many filesystem calls a permitted call makes when none of them fails. */
  function Length(pre: Dirs): nat
  {
    Count(pre.temp) + if pre.dest.Present? then 13 + Count(pre.backup) else 10
  }

  /**
   Whether a call leaves a temp directory whose first failing filesystem call is
   the `j`-th and fails as `f` says, the next two going as `g` and `h` say. A
   failure after the directory was made is followed by one attempt to remove it,
   after a failed replacing rename by the restoring rename first, and what comes
   of that attempt is not looked at.
   */
  predicate LeavesTemp(pre: Dirs, overwrite: bool, j: int, f: Fault, g: Fault, h: Fault)
  {
    var t, b := Count(pre.temp), Count(pre.backup);
    if pre.dest.Present? && !overwrite then t == 1
    else if j <= 2 then t == 1
    else if t == 1 && j == 3 then !f.Spurious?
    else if j == 3 + t then f.Spurious?
    else if j <= 8 + t then !g.TakesEffect()
    else if pre.dest == Absent then j == 9 + t && !f.Spurious? && !g.TakesEffect()
    else if j == 9 + t || (b == 1 && j == 10 + t) then true
    else if j == 10 + t + b then !g.TakesEffect()
    else j == 11 + t + b && !f.Spurious? && !h.TakesEffect()
  }

  /** Whether it publishes all the same: only dropping the old bundle's backup may fail. */
  predicate Publishes(pre: Dirs, overwrite: bool, j: int)
  {
    && (pre.dest == Absent || overwrite)
    && (0 <= j < Length(pre) ==> pre.dest.Present? && j == Length(pre) - 1)
  }

  /**
   A filesystem call has failed. It is settled whether the bundle is published,
   and whether the temp directory is left up to what the next two calls, going as
   `g` and `h` say, make of it.
   */
  ghost predicate Aftermath(p: Progress, d: Dirs, leaves: bool, publishes: bool, g: Fault, h: Fault)
  {
    match p.stage
    case Done(o) => (d.temp.Present? <==> leaves) && (o == Published <==> publishes)
    case Cleaning(_) => !publishes && (leaves <==> d.temp.Present? && !g.TakesEffect())
    case Restoring => !publishes && (leaves <==> d.temp.Present? && !h.TakesEffect())
    case _ => false
  }

  lemma BuiltGrows(pre: Dirs, n: nat, run: nat, f: Fault)
    requires f.NoFault?
    ensures Built(0, run) == Present(map[]) && Built(5, run) == Bundle(run) && Built(n, run).Present?
    ensures n <= 4 ==>
            WriteOp(pre.Put(Temp, Built(n, run)), FileAt(n), run, f) == After(pre.Put(Temp, Built(n + 1, run)), Fine)
  {
    if n <= 4 {
      assert Built(n, run).files[FileAt(n) := Whole(run)] == Built(n + 1, run).files;
    }
  }

  lemma QuietStep(pre: Dirs, job: Job, p: Progress, d: Dirs, j: int, f: Fault)
    requires OnTrack(pre, job, p, d, j) && !p.stage.Done? && f.NoFault?
    ensures var a := Perform(p.stage, d, job.run, f); OnTrack(pre, job, Follow(p, a, job.overwrite), a.dirs, j + 1)
  {
    hide Built, WriteOp;
    BuiltGrows(pre, if p.stage.Writing? then p.stage.next else 0, job.run, f);
  }

  lemma FaultyStep(pre: Dirs, job: Job, p: Progress, d: Dirs, j: int, f: Fault, g: Fault, h: Fault)
    requires OnTrack(pre, job, p, d, j) && !p.stage.Done? && !f.NoFault? && !f.Crashes()
    ensures var a := Perform(p.stage, d, job.run, f);
            Aftermath(Follow(p, a, job.overwrite), a.dirs,
                      LeavesTemp(pre, job.overwrite, j, f, g, h), Publishes(pre, job.overwrite, j), g, h)
  {
    hide Built;
    assert forall n: nat :: Built(n, job.run).Present? by { BuiltPresent(job.run); }
  }

  lemma BuiltPresent(run: nat)
    ensures forall n: nat :: Built(n, run).Present?
  {
  }

  lemma AftermathStep(p: Progress, d: Dirs, job: Job, leaves: bool, publishes: bool, g: Fault, h: Fault, next: Fault)
    requires Aftermath(p, d, leaves, publishes, g, h) && !p.stage.Done? && !g.Crashes()
    ensures var a := Perform(p.stage, d, job.run, g);
            Aftermath(Follow(p, a, job.overwrite), a.dirs, leaves, publishes, h, next)
  {
  }

  lemma TrackStarts(pre: Dirs, job: Job)
    ensures OnTrack(pre, job, START, pre, 0)
  {
  }

  lemma TrackIsShort(pre: Dirs, job: Job, p: Progress, d: Dirs, j: int)
    requires OnTrack(pre, job, p, d, j)
    ensures !p.stage.Done? ==> j < Length(pre)
  {
  }

  /** A call that ended without meeting a fault. */
  lemma TrackEnded(pre: Dirs, job: Job, p: Progress, d: Dirs, j: nat, first: nat, f: Fault, g: Fault, h: Fault)
    requires OnTrack(pre, job, p, d, j) && p.stage.Done? && j <= first <= Length(pre)
    ensures d.temp.Present? <==> LeavesTemp(pre, job.overwrite, first, f, g, h)
    ensures p.stage.outcome == Published <==> Publishes(pre, job.overwrite, first)
  {
  }

  /** The first of the `n` filesystem calls from number `c` that does not go through, counted from `c`. */
  function FirstFault(faults: nat -> Fault, c: nat, n: nat): (j: nat)
    ensures j <= n && (forall i | c <= i < c + j :: faults(i).NoFault?) && (j < n ==> !faults(c + j).NoFault?)
    decreases n
  {
    if n == 0 || !faults(c).NoFault? then 0 else 1 + FirstFault(faults, c + 1, n - 1)
  }

  /**
   Under every script that lets the process live, however many calls it fails:
   whether a temp directory is left, and whether the bundle is published, is
   settled by the directories before the call, the overwrite flag, the position
   of the first failing call, and the ways that one and the next two go.
   */
  lemma TempLeftBehind(pre: Dirs, job: Job, faults: nat -> Fault, c: nat)
    requires forall i: nat :: !faults(i).Crashes()
    ensures var e, j := Run(START, pre, job, faults, c), FirstFault(faults, c, Length(pre));
            && (e.dirs.temp.Present? <==>
                LeavesTemp(pre, job.overwrite, j, faults(c + j), faults(c + j + 1), faults(c + j + 2)))
            && (e.outcome == Published <==> Publishes(pre, job.overwrite, j))
  {
    hide Perform, Follow, OnTrack, Aftermath, LeavesTemp, Publishes, Run, Length;
    var j := FirstFault(faults, c, Length(pre));
    var leaves := LeavesTemp(pre, job.overwrite, j, faults(c + j), faults(c + j + 1), faults(c + j + 2));
    var publishes := Publishes(pre, job.overwrite, j);
    var p, d, i := START, pre, c;
    TrackStarts(pre, job);
    while !p.stage.Done?
      invariant c <= i && Run(START, pre, job, faults, c) == Run(p, d, job, faults, i)
      invariant if i <= c + j then OnTrack(pre, job, p, d, i - c)
                else Aftermath(p, d, leaves, publishes, faults(i), faults(i + 1))
      decreases Rank(p.stage)
    {
      var a := Perform(p.stage, d, job.run, faults(i));
      Unroll(p, d, job, faults, i);
      FollowDescends(p, a, job.overwrite);
      if i > c + j {
        AftermathStep(p, d, job, leaves, publishes, faults(i), faults(i + 1), faults(i + 2));
      } else {
        TrackIsShort(pre, job, p, d, i - c);
        if i == c + j {
          FaultyStep(pre, job, p, d, j, faults(i), faults(i + 1), faults(i + 2));
        } else {
          QuietStep(pre, job, p, d, i - c, faults(i));
        }
      }
      p, d, i := Follow(p, a, job.overwrite), a.dirs, i + 1;
    }
    RunDone(p.stage.outcome, p.replacing, d, job, faults, i);
    if i <= c + j {
      TrackEnded(pre, job, p, d, i - c, j, faults(c + j), faults(c + j + 1), faults(c + j + 2));
    } else {
      AftermathEnded(p, d, leaves, publishes, faults(i), faults(i + 1));
    }
  }

  lemma AftermathEnded(p: Progress, d: Dirs, leaves: bool, publishes: bool, g: Fault, h: Fault)
    requires Aftermath(p, d, leaves, publishes, g, h) && p.stage.Done?
    ensures (d.temp.Present? <==> leaves) && (p.stage.outcome == Published <==> publishes)
  {
  }

  /** One refused removal after a table that could not be written is enough: nothing looks at its outcome. */
  lemma CleanupIsIgnored(pre: Dirs, job: Job, faults: nat -> Fault, c: nat)
    requires pre.dest == Absent && pre.temp == Absent && (forall i: nat :: !faults(i).Crashes())
    requires (forall i | c <= i < c + 4 :: faults(i).NoFault?) && faults(c + 4).Refused? && faults(c + 5).Refused?
    ensures var e := Run(START, pre, job, faults, c); e.outcome.Failed? && e.dirs.temp.Present?
  {
    hide Run;
    TempLeftBehind(pre, job, faults, c);
    var j := FirstFault(faults, c, Length(pre));
    assert j == 4;
    NoneDies(START, pre, job, faults, c);
  }

  lemma {:induction false} NoneDies(p: Progress, d: Dirs, job: Job, faults: nat -> Fault, c: nat)
    requires (forall i: nat :: !faults(i).Crashes()) && p.stage != Done(Died)
    ensures Run(p, d, job, faults, c).outcome != Died
    decreases Rank(p.stage)
  {
    if !p.stage.Done? {
      var a := Perform(p.stage, d, job.run, faults(c));
      FollowDescends(p, a, job.overwrite);
      NoneDies(Follow(p, a, job.overwrite), a.dirs, job, faults, c + 1);
    }
  }

  /** Without a fault a call publishes unless the bundle is there and may not be replaced. */
  lemma QuietRun(pre: Dirs, job: Job, faults: nat -> Fault, c: nat)
    requires forall i: nat :: faults(i).NoFault?
    ensures var e := Run(START, pre, job, faults, c);
            if pre.dest.Present? && !job.overwrite then e.outcome == Failed(Collision) && e.dirs == pre
            else e.outcome == Published && e.dirs.dest == Bundle(job.run)
  {
    hide Perform, Follow, OnTrack, Run;
    var p, d, i := START, pre, c;
    TrackStarts(pre, job);
    while !p.stage.Done?
      invariant c <= i && Run(START, pre, job, faults, c) == Run(p, d, job, faults, i)
      invariant OnTrack(pre, job, p, d, i - c)
      decreases Rank(p.stage)
    {
      var a := Perform(p.stage, d, job.run, faults(i));
      Unroll(p, d, job, faults, i);
      FollowDescends(p, a, job.overwrite);
      QuietStep(pre, job, p, d, i - c, faults(i));
      p, d, i := Follow(p, a, job.overwrite), a.dirs, i + 1;
    }
    RunDone(p.stage.outcome, p.replacing, d, job, faults, i);
    TrackOutcome(pre, job, p, d, i - c);
  }

  lemma TrackOutcome(pre: Dirs, job: Job, p: Progress, d: Dirs, j: nat)
    requires OnTrack(pre, job, p, d, j) && p.stage.Done?
    ensures if pre.dest.Present? && !job.overwrite then p.stage.outcome == Failed(Collision) && d == pre
            else p.stage.outcome == Published && d.dest == Bundle(job.run)
  {
  }

  // ---- Runs of many calls -------------------------------------------------

  datatype Call = Call(run: nat, overwrite: bool, outcome: Outcome)

  /** Calls made one after another for one run id, starting from an empty output directory. */
  ghost predicate History(states: seq<Dirs>, calls: seq<Call>)
  {
    && |states| == |calls| + 1
    && states[0] == Dirs(Absent, Absent, Absent)
    && forall i | 0 <= i < |calls| ::
         CallStep(states[i], calls[i].run, calls[i].overwrite, calls[i].outcome, states[i + 1])
  }

  ghost predicate PublishedBy(d: Dir, calls: seq<Call>, from: nat, to: nat)
    requires to <= |calls|
  {
    exists k | from <= k < to :: d == Bundle(calls[k].run)
  }

  /** The destination is never partial: it is absent, or the whole bundle of an earlier call. */
  lemma {:induction false} DestinationNeverPartial(states: seq<Dirs>, calls: seq<Call>, i: nat)
    requires History(states, calls) && i <= |calls|
    ensures states[i].dest == Absent || PublishedBy(states[i].dest, calls, 0, i)
    ensures Sound(states[i])
  {
    if i > 0 {
      DestinationNeverPartial(states, calls, i - 1);
      assert CallStep(states[i - 1], calls[i - 1].run, calls[i - 1].overwrite, calls[i - 1].outcome, states[i]);
      if states[i].dest == Bundle(calls[i - 1].run) {
      } else if states[i].dest != Absent {
        var k :| 0 <= k < i - 1 && states[i - 1].dest == Bundle(calls[k].run);
        assert states[i].dest == Bundle(calls[k].run);
      }
    }
  }

  /**
   Once call `j` has put its bundle in place, whether or not it lived to say so,
   the destination, or the backup while the destination is absent, holds a
   complete bundle no older than that one.
   */
  lemma {:induction false} PublishedNeverLost(states: seq<Dirs>, calls: seq<Call>, j: nat, i: nat)
    requires History(states, calls) && j < i <= |calls|
    requires states[j + 1].dest == Bundle(calls[j].run)
    ensures || PublishedBy(states[i].dest, calls, j, i)
            || (states[i].dest == Absent && PublishedBy(states[i].backup, calls, j, i))
    decreases i
  {
    var c := calls[i - 1];
    assert CallStep(states[i - 1], c.run, c.overwrite, c.outcome, states[i]);
    if i == j + 1 {
      assert states[i].dest == Bundle(calls[j].run);
    } else {
      PublishedNeverLost(states, calls, j, i - 1);
      if states[i].dest == Bundle(c.run) {
      } else if states[i - 1].dest == Absent {
        var k :| j <= k < i - 1 && states[i - 1].backup == Bundle(calls[k].run);
        assert states[i].backup == Bundle(calls[k].run);
      } else {
        var k :| j <= k < i - 1 && states[i - 1].dest == Bundle(calls[k].run);
        assert states[i].dest == Bundle(calls[k].run) || states[i].backup == Bundle(calls[k].run);
      }
    }
  }

  /** A complete bundle at the destination or the backup is never lost again, whoever put it there. */
  lemma {:induction false} StaysRecoverable(states: seq<Dirs>, calls: seq<Call>, j: nat, i: nat)
    requires History(states, calls) && j <= i <= |calls| && Recoverable(states[j])
    ensures Recoverable(states[i])
    decreases i
  {
    hide CallStep, Complete;
    if j < i {
      StaysRecoverable(states, calls, j, i - 1);
      DestinationNeverPartial(states, calls, i - 1);
      var c := calls[i - 1];
      CallRecovers(states[i - 1], c.run, c.overwrite, c.outcome, states[i]);
    }
  }

  lemma CallRecovers(pre: Dirs, run: nat, overwrite: bool, o: Outcome, post: Dirs)
    requires CallStep(pre, run, overwrite, o, post) && Sound(pre) && Recoverable(pre)
    ensures Recoverable(post)
  {
  }
}
