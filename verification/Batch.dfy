/** The parse cache of a scenario batch, filled once, and the chunks its runs are cut into (src/batch.rs). */
module Batch {
  import opened Common
  import opened Sorting
  import opened Market

  // ---- Opening a tape, with and without the cache -------------------------

  datatype Source = Parquet(path: string, pin: string) | Simulator | Csv(dir: string)

  datatype Config = Config(source: Source, limits: Limits, seed: u64)

  datatype PlannedRun = PlannedRun(index: u32, config: Config)

  /** A parsed tape and the digest of the bytes it was parsed from. */
  datatype SharedTape = SharedTape(snapshots: seq<ChainSnapshot>, sha: string)

  /** The files of the batch, unchanged while it runs, what parsing one does, and how errors render. */
  datatype Disk = Disk(files: map<string, seq<int>>, sha: seq<int> -> string,
                       parse: (seq<int>, Limits) -> Result<seq<ChainSnapshot>, Error>,
                       message: Error -> string)

  const MALFORMED := "malformed data: "

  /** The text of an error, as an index entry records it. */
  function Text(disk: Disk, e: Error): string
  {
    if e.Data? then MALFORMED + e.descriptor else disk.message(e)
  }

  /** `ParquetFeed::open_verified`. */
  function OpenVerified(disk: Disk, path: string, pin: string, lim: Limits): Result<SharedTape, Error>
  {
    if path !in disk.files then Err(DataIo)
    else
      var bytes := disk.files[path];
      var snapshots :- disk.parse(bytes, lim);
      if pin != "" && disk.sha(bytes) != pin then Err(Conversion)
      else Ok(SharedTape(snapshots, disk.sha(bytes)))
  }

  function OpenFresh(disk: Disk, c: Config): Result<SharedTape, Error>
    requires c.source.Parquet?
  {
    OpenVerified(disk, c.source.path, c.source.pin, c.limits)
  }

  /** A failed open is cached as the text of its error. */
  type SharedTapes = map<string, Result<SharedTape, string>>

  function Described(disk: Disk, r: Result<SharedTape, Error>): Result<SharedTape, string>
  {
    match r
    case Ok(tape) => Ok(tape)
    case Err(e) => Err(Text(disk, e))
  }

  /** The feed dispatch of `open_and_run` for a Parquet source. */
  function OpenCached(disk: Disk, c: Config, shared: SharedTapes): Result<SharedTape, Error>
    requires c.source.Parquet?
  {
    var path, pin := c.source.path, c.source.pin;
    if path in shared && shared[path].Ok? && (pin == "" || shared[path].value.sha == pin) then Ok(shared[path].value)
    else if path in shared && shared[path].Err? then Err(Data(shared[path].error))
    else OpenFresh(disk, c)
  }

  predicate Reads(run: PlannedRun, path: string)
  {
    run.config.source.Parquet? && run.config.source.path == path
  }

  /** The first planned run over a path: the one whose pin and limits the cache uses. */
  ghost predicate FirstOver(planned: seq<PlannedRun>, path: string, i: int)
  {
    0 <= i < |planned| && Reads(planned[i], path) && forall k | 0 <= k < i :: !Reads(planned[k], path)
  }

  /** Every path of the batch is cached as its first run opens it, and nothing else is. */
  ghost predicate CacheOf(disk: Disk, planned: seq<PlannedRun>, shared: SharedTapes)
  {
    && (forall i | 0 <= i < |planned| :: planned[i].config.source.Parquet? ==> planned[i].config.source.path in shared)
    && forall path | path in shared :: exists i ::
         FirstOver(planned, path, i) && shared[path] == Described(disk, OpenFresh(disk, planned[i].config))
  }

  /** `materialise_shared_tapes`; `opens` lists the paths it opened, none twice. */
  method MaterialiseSharedTapes(disk: Disk, planned: seq<PlannedRun>)
    returns (shared: SharedTapes, ghost opens: seq<string>)
    ensures CacheOf(disk, planned, shared)
    ensures (forall i, j | 0 <= i < j < |opens| :: opens[i] != opens[j]) && forall p :: p in opens <==> p in shared
  {
    hide OpenVerified;
    shared := map[];
    opens := [];
    var i := 0;
    assert planned[..0] == [];
    while i < |planned|
      invariant 0 <= i <= |planned|
      invariant CacheOf(disk, planned[..i], shared)
      invariant (forall a, b | 0 <= a < b < |opens| :: opens[a] != opens[b]) && forall p :: p in opens <==> p in shared
    {
      var run := planned[i];
      ghost var before, shared0 := planned[..i], shared;
      if run.config.source.Parquet? && run.config.source.path !in shared {
        var path := run.config.source.path;
        var outcome := Described(disk, OpenFresh(disk, run.config));
        shared := shared[path := outcome];
        opens := opens + [path];
      }
      CacheExtends(disk, before, run, shared0);
      assert planned[..i + 1] == before + [run];
      i := i + 1;
    }
    assert planned[..i] == planned;
  }

  lemma CacheExtends(disk: Disk, before: seq<PlannedRun>, run: PlannedRun, shared: SharedTapes)
    requires CacheOf(disk, before, shared)
    ensures run.config.source.Parquet? && run.config.source.path !in shared ==>
            CacheOf(disk, before + [run],
                    shared[run.config.source.path := Described(disk, OpenFresh(disk, run.config))])
    ensures !(run.config.source.Parquet? && run.config.source.path !in shared) ==> CacheOf(disk, before + [run], shared)
  {
    hide OpenVerified;
    var planned := before + [run];
    forall path | path in shared
      ensures exists i ::
                FirstOver(planned, path, i) && shared[path] == Described(disk, OpenFresh(disk, planned[i].config))
    {
      var i :| FirstOver(before, path, i) && shared[path] == Described(disk, OpenFresh(disk, before[i].config));
      assert planned[i] == before[i] && FirstOver(planned, path, i);
    }
    if run.config.source.Parquet? && run.config.source.path !in shared {
      var path := run.config.source.path;
      forall k | 0 <= k < |before| ensures !Reads(planned[k], path) {
        assert planned[k] == before[k];
      }
      assert FirstOver(planned, path, |before|);
    }
  }

  /** All runs over one path share the pin and the limits: what the batch generator guarantees. */
  ghost predicate Uniform(planned: seq<PlannedRun>)
  {
    forall i, j | 0 <= i < |planned| && 0 <= j < |planned| ::
      planned[j].config.source.Parquet? && Reads(planned[i], planned[j].config.source.path) ==>
      planned[i].config.source == planned[j].config.source && planned[i].config.limits == planned[j].config.limits
  }

  /**
   In a uniform batch the cache never changes a tape: each run opens as it would
   alone, and where it would fail it fails, with the text of the first failure
   wrapped once more.
   */
  lemma CachedOpenIsFresh(disk: Disk, planned: seq<PlannedRun>, shared: SharedTapes, i: nat)
    requires CacheOf(disk, planned, shared) && Uniform(planned)
    requires i < |planned| && planned[i].config.source.Parquet?
    ensures var c := planned[i].config;
            match OpenFresh(disk, c)
            case Ok(tape) => OpenCached(disk, c, shared) == Ok(tape)
            case Err(e) => OpenCached(disk, c, shared) == Err(Data(Text(disk, e)))
  {
    var c := planned[i].config;
    var path := c.source.path;
    assert path in shared;
    var k :| FirstOver(planned, path, k) && shared[path] == Described(disk, OpenFresh(disk, planned[k].config));
    assert Reads(planned[k], planned[i].config.source.path);
  }

  /** Whatever the cache holds, a pinned run is never served a tape with another identity. */
  lemma PinAlwaysHonoured(disk: Disk, c: Config, shared: SharedTapes)
    requires c.source.Parquet? && c.source.pin != "" && OpenCached(disk, c, shared).Ok?
    ensures OpenCached(disk, c, shared).value.sha == c.source.pin
  {
  }

  /** The file is there and its digest is the pinned one, or none is pinned. */
  predicate PinHolds(disk: Disk, c: Config)
    requires c.source.Parquet?
  {
    c.source.path in disk.files && (c.source.pin == "" || disk.sha(disk.files[c.source.path]) == c.source.pin)
  }

  /** What the file of a run parses to under its limits; nothing when it does not. */
  function ParseOf(disk: Disk, c: Config): Option<seq<ChainSnapshot>>
    requires c.source.Parquet? && c.source.path in disk.files
  {
    match disk.parse(disk.files[c.source.path], c.limits)
    case Ok(snapshots) => Some(snapshots)
    case Err(_) => None
  }

  /** Both fail, or both succeed with the same tape. */
  predicate SameTape(a: Result<SharedTape, Error>, b: Result<SharedTape, Error>)
  {
    (a.Ok? <==> b.Ok?) && (a.Ok? ==> a.value == b.value)
  }

  /**
   For runs that differ, cached and fresh give the same tape or both fail
   exactly when this run's own pin fails; or the first run over the path has a
   pin that holds and the file parses alike under both limits; or the first
   run's pin fails and the file does not parse under this run's limits.
   */
  lemma CacheAgreement(disk: Disk, planned: seq<PlannedRun>, shared: SharedTapes, k: nat, c: Config)
    requires CacheOf(disk, planned, shared) && c.source.Parquet?
    requires FirstOver(planned, c.source.path, k)
    ensures SameTape(OpenCached(disk, c, shared), OpenFresh(disk, c)) <==>
            (PinHolds(disk, c) ==>
             if PinHolds(disk, planned[k].config) then ParseOf(disk, planned[k].config) == ParseOf(disk, c)
             else ParseOf(disk, c).None?)
  {
    assert c.source.path in shared;
    var i :| FirstOver(planned, c.source.path, i) &&
             shared[c.source.path] == Described(disk, OpenFresh(disk, planned[i].config));
    assert Reads(planned[i], c.source.path) && Reads(planned[k], c.source.path);
  }

  /** Mixed pins diverge: after a wrongly pinned first run, a rightly pinned second run fails from the cache. */
  lemma MixedPinsDiverge(disk: Disk, wrong: Config, right: Config, shared: SharedTapes)
    requires wrong.source.Parquet? && right.source.Parquet? && wrong.source.path == right.source.path
    requires OpenFresh(disk, right).Ok? && right.source.pin != ""
    requires wrong.source.pin != "" && wrong.source.pin != right.source.pin && wrong.limits == right.limits
    requires CacheOf(disk, [PlannedRun(0, wrong), PlannedRun(1, right)], shared)
    ensures OpenCached(disk, right, shared).Err?
  {
    var planned := [PlannedRun(0, wrong), PlannedRun(1, right)];
    assert FirstOver(planned, right.source.path, 0);
    CacheAgreement(disk, planned, shared, 0, right);
  }

  // ---- Cutting the runs into chunks ---------------------------------------

  function WorkerCount(runs: nat, available: nat): (w: nat)
    ensures 1 <= w && w <= (if runs == 0 then 1 else runs) && (available > 0 ==> w <= available)
    ensures w < runs ==> w >= available
  {
    var m := if runs < available then runs else available;
    if m < 1 then 1 else m
  }

  function DivCeil(a: nat, b: nat): nat
    requires b > 0
  {
    (a + b - 1) / b
  }

  /** The length of a chunk: the runs divided by the workers, rounded up. */
  function ChunkSize(runs: nat, available: nat): (s: nat)
    requires runs > 0
    ensures s > 0
  {
    CeilCovers(runs, WorkerCount(runs, available));
    DivCeil(runs, WorkerCount(runs, available))
  }

  /** The runs fit into that many chunks, and would not if chunks were one run shorter. */
  lemma ChunkSizeLeast(runs: nat, available: nat)
    requires runs > 0
    ensures var s, w := ChunkSize(runs, available), WorkerCount(runs, available); (s - 1) * w < runs <= s * w
  {
    var w := WorkerCount(runs, available);
    CeilCovers(runs, w);
    var s := (runs + w - 1) / w;
    assert runs + w - 1 == s * w + (runs + w - 1) % w;
    assert (s - 1) * w == s * w - w;
  }

  /** `slice::chunks`. */
  function Chunks<T>(s: seq<T>, size: nat): (r: seq<seq<T>>)
    requires size > 0
    ensures forall i | 0 <= i < |r| :: 0 < |r[i]| <= size
  {
    if s == [] then []
    else if |s| <= size then [s]
    else [s[..size]] + Chunks(s[size..], size)
  }

  function Concat<T>(parts: seq<seq<T>>): seq<T>
  {
    if parts == [] then [] else Concat(parts[..|parts| - 1]) + parts[|parts| - 1]
  }

  lemma {:induction false} ConcatCons<T>(head: seq<T>, parts: seq<seq<T>>)
    ensures Concat([head] + parts) == head + Concat(parts)
    decreases |parts|
  {
    if parts == [] {
      assert [head] + parts == [head] && [head][..0] == [];
    } else {
      var all := [head] + parts;
      assert all[..|all| - 1] == [head] + parts[..|parts| - 1];
      ConcatCons(head, parts[..|parts| - 1]);
    }
  }

  /** The chunks partition the runs in order. */
  lemma {:induction false} ChunksPartition<T>(s: seq<T>, size: nat)
    requires size > 0
    ensures Concat(Chunks(s, size)) == s
    decreases |s|
  {
    if s == [] {
    } else if |s| <= size {
      assert [s][..0] == [];
    } else {
      ChunksPartition(s[size..], size);
      ConcatCons(s[..size], Chunks(s[size..], size));
      assert s == s[..size] + s[size..];
    }
  }

  lemma {:induction false} ChunkCount<T>(s: seq<T>, size: nat, workers: nat)
    requires size > 0 && |s| <= size * workers
    ensures |Chunks(s, size)| <= workers
    decreases |s|
  {
    if s == [] {
    } else if |s| <= size {
      assert workers > 0;
    } else {
      assert size * workers == size * (workers - 1) + size;
      assert workers > 0;
      ChunkCount(s[size..], size, workers - 1);
    }
  }

  lemma CeilCovers(n: nat, w: nat)
    requires w > 0
    ensures n <= DivCeil(n, w) * w
    ensures n > 0 ==> DivCeil(n, w) > 0
  {
    var q := (n + w - 1) / w;
    assert n + w - 1 == w * q + (n + w - 1) % w;
    assert w * q == q * w;
    assert q == 0 ==> w * q == 0;
  }

  /** No more chunks than workers. */
  lemma ChunksFitWorkers<T>(s: seq<T>, available: nat)
    requires s != []
    ensures var w := WorkerCount(|s|, available);
            DivCeil(|s|, w) > 0 && |Chunks(s, DivCeil(|s|, w))| <= w
  {
    var w := WorkerCount(|s|, available);
    CeilCovers(|s|, w);
    ChunkCount(s, DivCeil(|s|, w), w);
  }

  /** Where part `w` starts in the concatenation. */
  function PartStart<T>(parts: seq<seq<T>>, w: nat): nat
    requires w <= |parts|
  {
    |Concat(parts[..w])|
  }

  /** Element `i` of part `w` sits at its offset, past every element of the earlier parts. */
  lemma {:induction false} ConcatAt<T>(parts: seq<seq<T>>, w: nat, i: nat)
    requires w < |parts| && i < |parts[w]|
    ensures PartStart(parts, w) + i < |Concat(parts)| && Concat(parts)[PartStart(parts, w) + i] == parts[w][i]
    decreases |parts|
  {
    var init := parts[..|parts| - 1];
    if w == |parts| - 1 {
      assert parts[..w] == init;
    } else {
      ConcatAt(init, w, i);
      assert init[..w] == parts[..w];
    }
  }

  /** Where chunk `w` starts. */
  function ChunkStart(size: nat, w: nat): nat
  {
    if w == 0 then 0 else size + ChunkStart(size, w - 1)
  }

  lemma {:induction false} ChunkStarts(size: nat, w: nat)
    ensures ChunkStart(size, w) == w * size
  {
    if w > 0 {
      ChunkStarts(size, w - 1);
      assert w * size == (w - 1) * size + size;
    }
  }

  lemma {:induction false} ChunkMember<T>(s: seq<T>, size: nat, w: nat, i: nat)
    requires i < size && ChunkStart(size, w) + i < |s|
    ensures w < |Chunks(s, size)| && i < |Chunks(s, size)[w]| && Chunks(s, size)[w][i] == s[ChunkStart(size, w) + i]
    decreases w
  {
    if w > 0 {
      ChunkMember(s[size..], size, w - 1, i);
    }
  }

  lemma {:induction false} ChunkOffset<T>(s: seq<T>, size: nat, w: nat, i: nat)
    requires size > 0 && w < |Chunks(s, size)| && i < |Chunks(s, size)[w]|
    ensures ChunkStart(size, w) + i < |s| && Chunks(s, size)[w][i] == s[ChunkStart(size, w) + i]
    decreases w
  {
    if w > 0 {
      ChunkOffset(s[size..], size, w - 1, i);
    }
  }

  /** Run `m` of the batch is run `m % size` of chunk `m / size`. */
  lemma ChunkAt<T>(s: seq<T>, size: nat, m: nat)
    requires size > 0 && m < |s|
    ensures var chunks := Chunks(s, size);
            m / size < |chunks| && m % size < |chunks[m / size]| && chunks[m / size][m % size] == s[m]
  {
    hide Chunks;
    assert m == m / size * size + m % size;
    ChunkStarts(size, m / size);
    ChunkMember(s, size, m / size, m % size);
  }

  /** And run `i` of chunk `w` is the run `m` with that quotient and remainder. */
  lemma ChunkIndex<T>(s: seq<T>, size: nat, w: nat, i: nat) returns (m: nat)
    requires size > 0 && w < |Chunks(s, size)| && i < |Chunks(s, size)[w]|
    ensures m < |s| && Chunks(s, size)[w][i] == s[m] && m / size == w && m % size == i
  {
    hide Chunks;
    ChunkOffset(s, size, w, i);
    m := ChunkStart(size, w) + i;
    ChunkStarts(size, w);
    assert m == m / size * size + m % size;
    QuotientUnique(w, i, m / size, m % size, size);
  }
}
