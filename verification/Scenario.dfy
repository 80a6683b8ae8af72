/**
 A scenario batch from its parameters to its entries: expansion into seeded
 configs, the parse cache, the pool (src/engine/scenario.rs, src/batch.rs).
 */
module Scenario {
  import opened Common
  import opened Batch
  import opened Pool
  import Race
  import P = Publish

  // ---- Expansion ----------------------------------------------------------

  /** The walk shock of an override, and whether it yields finite session parameters. */
  datatype Shock = Unshocked | Shocked(applies: bool)

  datatype ConfigOverride = ConfigOverride(seed: Option<u64>, shock: Shock)

  datatype Params = Params(stressTest: bool, baseSeed: u64, count: u32, sweep: seq<ConfigOverride>)

  /** `child_seed`, a fixed hash of the base seed and the index. */
  type ChildSeed = (u64, nat) -> u64

  const MAX_RUNS := 1_000_000

  function Overrides(params: Params): (r: seq<ConfigOverride>)
    ensures r != []
  {
    if params.sweep == [] then [ConfigOverride(None, Unshocked)] else params.sweep
  }

  function SeedOf(over: ConfigOverride, baseSeed: u64, index: nat, child: ChildSeed): u64
  {
    match over.seed
    case Some(seed) => seed
    case None => child(baseSeed, index)
  }

  /** `derive_config`: only the engine seed varies; a simulator session also takes the shock. */
  function DeriveConfig(base: Config, baseSeed: u64, index: nat, over: ConfigOverride, child: ChildSeed)
    : Result<Config, Error>
  {
    if base.source.Simulator? && over.shock == Shocked(false) then Err(Conversion)
    else Ok(base.(seed := SeedOf(over, baseSeed, index, child)))
  }

  /** The expansion is refused for misplaced shocks, replicated explicit seeds, or too many runs. */
  predicate Expandable(params: Params, base: Config)
  {
    var overs := Overrides(params);
    && (params.stressTest || forall o | 0 <= o < |overs| :: overs[o].shock.Unshocked?)
    && (params.count <= 1 || forall o | 0 <= o < |overs| :: overs[o].seed.None?)
    && |overs| * params.count <= MAX_RUNS
    && (params.count > 0 && base.source.Simulator? ==> forall o | 0 <= o < |overs| :: overs[o].shock != Shocked(false))
  }

  /** The override each run belongs to: every override, `count` times over. */
  function Owners(overs: seq<ConfigOverride>, count: nat): seq<ConfigOverride>
  {
    if overs == [] then []
    else Owners(overs[..|overs| - 1], count) + seq(count, _ => overs[|overs| - 1])
  }

  /** Run `i` is the base config with the seed its override and its index give it; nothing else varies. */
  ghost predicate Expansion(owners: seq<ConfigOverride>, base: Config, baseSeed: u64, child: ChildSeed,
      configs: seq<Config>)
  {
    |configs| == |owners| && forall i | 0 <= i < |configs| ::
      configs[i] == base.(seed := SeedOf(owners[i], baseSeed, i, child))
  }

  lemma {:induction false} OwnersCount(overs: seq<ConfigOverride>, count: nat)
    ensures |Owners(overs, count)| == |overs| * count
    ensures forall i | 0 <= i < |Owners(overs, count)| :: Owners(overs, count)[i] in overs
  {
    if overs != [] {
      OwnersCount(overs[..|overs| - 1], count);
      assert |overs| * count == (|overs| - 1) * count + count;
    }
  }

  lemma {:induction false} OwnersLength(overs: seq<ConfigOverride>, count: nat)
    ensures |Owners(overs, count)| == ChunkStart(count, |overs|)
  {
    if overs != [] {
      OwnersLength(overs[..|overs| - 1], count);
    }
  }

  lemma {:induction false} OwnerOf(overs: seq<ConfigOverride>, count: nat, o: nat, k: nat)
    requires o < |overs| && k < count
    ensures var i := ChunkStart(count, o) + k; i < |Owners(overs, count)| && Owners(overs, count)[i] == overs[o]
    decreases |overs|
  {
    var n := |overs| - 1;
    OwnersLength(overs[..n], count);
    if o < n {
      OwnerOf(overs[..n], count, o, k);
    }
  }

  /** Override `o` owns the runs from `o * count` on, `count` of them. */
  lemma OwnerAt(overs: seq<ConfigOverride>, count: nat, i: nat)
    requires i < |Owners(overs, count)|
    ensures count > 0 && i / count < |overs| && Owners(overs, count)[i] == overs[i / count]
  {
    hide Owners;
    OwnersLength(overs, count);
    ChunkStarts(count, |overs|);
    assert |overs| * 0 == 0;
    if count > 0 {
      var o, k := i / count, i % count;
      assert i == o * count + k;
      if |overs| < o {
        Multiples(|overs|, o, count);
      }
      ChunkStarts(count, o);
      OwnerOf(overs, count, o, k);
    }
  }

  /**
   What an expansion is, field by field: run `i` belongs to override `i / count`
   of the sweep, or to none when there is no sweep; it has that override's seed
   if it carries one, and otherwise the child seed of its own index; nothing else
   of the base varies.
   */
  ghost predicate Expands(params: Params, base: Config, child: ChildSeed, configs: seq<Config>)
  {
    && |configs| == (if params.sweep == [] then 1 else |params.sweep|) * params.count
    && forall i | 0 <= i < |configs| ::
         && configs[i].source == base.source && configs[i].limits == base.limits
         && configs[i].seed == SeedSaid(params, child, i)
  }

  /** The seed of run `i`. */
  function SeedSaid(params: Params, child: ChildSeed, i: nat): u64
  {
    if params.count > 0 && i / params.count < |params.sweep| && params.sweep[i / params.count].seed.Some? then
      params.sweep[i / params.count].seed.value
    else child(params.baseSeed, i)
  }

  lemma ExpansionSaid(params: Params, base: Config, child: ChildSeed, configs: seq<Config>)
    ensures Expansion(Owners(Overrides(params), params.count), base, params.baseSeed, child, configs) <==>
            Expands(params, base, child, configs)
  {
    var overs, count := Overrides(params), params.count;
    OwnersCount(overs, count);
    forall i | 0 <= i < |overs| * count
      ensures SeedOf(Owners(overs, count)[i], params.baseSeed, i, child) == SeedSaid(params, child, i)
    {
      OwnerAt(overs, count, i);
    }
  }

  /** `expand`: refused exactly when it is not expandable, and otherwise one config per override and replicate. */
  method Expand(params: Params, base: Config, child: ChildSeed) returns (r: Result<seq<Config>, Error>)
    ensures r.Ok? <==> Expandable(params, base)
    ensures r.Ok? ==> Expansion(Owners(Overrides(params), params.count), base, params.baseSeed, child, r.value)
    ensures r.Ok? ==> Expands(params, base, child, r.value)
  {
    hide Expands, SeedOf;
    var overs, count := Overrides(params), params.count;
    if !params.stressTest && exists o | 0 <= o < |overs| :: !overs[o].shock.Unshocked? {
      return Err(Misconfigured);
    }
    if count > 1 && exists o | 0 <= o < |overs| :: overs[o].seed.Some? {
      return Err(Misconfigured);
    }
    if |overs| * count > MAX_RUNS {
      return Err(Misconfigured);
    }
    var out: seq<Config> := [];
    var o := 0;
    while o < |overs|
      invariant 0 <= o <= |overs|
      invariant Expansion(Owners(overs[..o], count), base, params.baseSeed, child, out)
      invariant count > 0 && base.source.Simulator? ==> forall u | 0 <= u < o :: overs[u].shock != Shocked(false)
    {
      ghost var before := Owners(overs[..o], count);
      assert overs[..o + 1][..o] == overs[..o];
      var k := 0;
      while k < count
        invariant 0 <= k <= count
        invariant Expansion(before + seq(k, _ => overs[o]), base, params.baseSeed, child, out)
        invariant k > 0 && base.source.Simulator? ==> overs[o].shock != Shocked(false)
      {
        var config := DeriveConfig(base, params.baseSeed, |out|, overs[o], child);
        if config.Err? {
          return Err(config.error);
        }
        out := out + [config.value];
        k := k + 1;
      }
      o := o + 1;
    }
    assert overs[..o] == overs;
    ExpansionSaid(params, base, child, out);
    return Ok(out);
  }

  function Plan(configs: seq<Config>): (r: seq<PlannedRun>)
    requires |configs| <= MAX_RUNS
    ensures |r| == |configs| && forall i | 0 <= i < |r| :: r[i] == PlannedRun(i, configs[i])
  {
    seq(|configs|, i requires 0 <= i < |configs| => PlannedRun(i, configs[i]))
  }

  /** The overrides can vary neither source nor limits, so the runs over a path share both. */
  lemma ExpandedIsUniform(owners: seq<ConfigOverride>, base: Config, baseSeed: u64, child: ChildSeed,
      configs: seq<Config>)
    requires Expansion(owners, base, baseSeed, child, configs) && |configs| <= MAX_RUNS
    ensures Uniform(Plan(configs)) && Indexed(Plan(configs))
  {
  }

  // ---- From a config to a publishable run ---------------------------------

  datatype Replay = Panicked | Rejected(error: Error) | Produced(bundle: nat)

  /** Everything around the cache: validation, other feeds, the replay with its analytics, the run id. */
  datatype Pipeline = Pipeline(
    validate: Config -> Result<(), Error>, session: PlannedRun -> Result<SharedTape, Error>,
    replay: (Config, SharedTape) -> Replay, runId: (Config, string) -> string)

  /** `run_one` up to the first filesystem call, for a feed opened one way or the other. */
  function PrepareFrom(disk: Disk, pl: Pipeline, p: PlannedRun, feed: Result<SharedTape, Error>): Prepared
  {
    match pl.validate(p.config)
    case Err(e) => Refused(Text(disk, e))
    case Ok(_) =>
      match feed
      case Err(e) => Refused(Text(disk, e))
      case Ok(tape) =>
        match pl.replay(p.config, tape)
        case Panicked => Panics
        case Rejected(e) => Refused(Text(disk, e))
        case Produced(bundle) => Ready(pl.runId(p.config, tape.sha), bundle)
  }

  function CachedPrepare(disk: Disk, pl: Pipeline, shared: SharedTapes): PlannedRun -> Prepared
  {
    (p: PlannedRun) =>
      PrepareFrom(disk, pl, p, if p.config.source.Parquet? then OpenCached(disk, p.config, shared) else pl.session(p))
  }

  /** The same run with a verified open of its own. */
  function FreshPrepare(disk: Disk, pl: Pipeline): PlannedRun -> Prepared
  {
    (p: PlannedRun) =>
      PrepareFrom(disk, pl, p, if p.config.source.Parquet? then OpenFresh(disk, p.config) else pl.session(p))
  }

  /** A run that is valid but whose file does not open. */
  predicate OpenFails(disk: Disk, pl: Pipeline, p: PlannedRun)
  {
    pl.validate(p.config).Ok? && p.config.source.Parquet? && OpenFresh(disk, p.config).Err?
  }

  /** What the cache makes of a prepared run: where the open fails, the text is wrapped once more. */
  function Rewrapped(disk: Disk, pl: Pipeline, p: PlannedRun, lone: Prepared): Prepared
  {
    if OpenFails(disk, pl, p) then Refused(MALFORMED + Text(disk, OpenFresh(disk, p.config).error)) else lone
  }

  lemma CachedIsRewrapped(disk: Disk, pl: Pipeline, planned: seq<PlannedRun>, shared: SharedTapes, i: nat)
    requires CacheOf(disk, planned, shared) && Uniform(planned) && i < |planned|
    ensures CachedPrepare(disk, pl, shared)(planned[i]) ==
            Rewrapped(disk, pl, planned[i], FreshPrepare(disk, pl)(planned[i]))
  {
    hide OpenCached, OpenFresh, CacheOf, Uniform;
    if planned[i].config.source.Parquet? {
      CachedOpenIsFresh(disk, planned, shared, i);
    }
  }

  /** The bytes of the file a run is over parse under its limits, and have the digest it pins, if it pins one. */
  predicate Opens(disk: Disk, c: Config, tape: SharedTape)
    requires c.source.Parquet?
  {
    && c.source.path in disk.files
    && disk.parse(disk.files[c.source.path], c.limits) == Ok(tape.snapshots)
    && tape.sha == disk.sha(disk.files[c.source.path]) && (c.source.pin == "" || tape.sha == c.source.pin)
  }

  lemma OpensIff(disk: Disk, c: Config, tape: SharedTape)
    requires c.source.Parquet?
    ensures OpenFresh(disk, c) == Ok(tape) <==> Opens(disk, c, tape)
  {
  }

  /**
   A run over a file gets as far as publishing exactly when its config is valid,
   its file opens and the replay produces a bundle; its run id is then that of
   its config and the digest of its file.
   */
  lemma ReadyIff(disk: Disk, pl: Pipeline, p: PlannedRun, id: string, bundle: nat)
    requires p.config.source.Parquet?
    ensures FreshPrepare(disk, pl)(p) == Ready(id, bundle) <==>
            && pl.validate(p.config).Ok?
            && exists tape :: Opens(disk, p.config, tape) && pl.replay(p.config, tape) == Produced(bundle) &&
                              id == pl.runId(p.config, tape.sha)
  {
    hide OpenFresh, Opens, Text;
    assert FreshPrepare(disk, pl)(p) == PrepareFrom(disk, pl, p, OpenFresh(disk, p.config));
    forall tape ensures OpenFresh(disk, p.config) == Ok(tape) <==> Opens(disk, p.config, tape) {
      OpensIff(disk, p.config, tape);
    }
  }

  /** Its entry says that it was written exactly when its call alone would have published; the entry names its id. */
  lemma LoneWritten(env: Env, out: Output, p: PlannedRun, id: string)
    ensures Alone(env, out, p) == Some(BatchRunEntry(p.index, Written(id))) <==>
            && env.prepare(p).Ready? && env.prepare(p).id == id
            && AlonePublished(env, out, p, id, env.prepare(p).bundle).outcome == P.Published
  {
    hide P.Run;
  }

  /** The environments of the batch as it runs, and of the runs made one by one with fresh opens. */
  function CachedEnv(disk: Disk, pl: Pipeline, shared: SharedTapes, overwrite: bool,
      scripts: nat -> nat -> P.Fault): Env
  {
    Env(CachedPrepare(disk, pl, shared), overwrite, scripts)
  }

  function FreshEnv(disk: Disk, pl: Pipeline, overwrite: bool, scripts: nat -> nat -> P.Fault): Env
  {
    Env(FreshPrepare(disk, pl), overwrite, scripts)
  }

  /** The entry a run gets through the cache, given the one it gets alone with a fresh open. */
  function EntryThroughCache(disk: Disk, pl: Pipeline, p: PlannedRun, lone: BatchRunEntry): BatchRunEntry
  {
    if OpenFails(disk, pl, p) then
      BatchRunEntry(p.index, Failed(MALFORMED + Text(disk, OpenFresh(disk, p.config).error)))
    else lone
  }

  /**
   The batch as a whole. Fanned out over the cache, under any schedule and
   whatever the filesystem does, a uniform batch of runs apart is the sequential
   map over runs that each open their own file afresh: the same entries, but for
   the wrapping of the text of a failed open.
   */
  lemma BatchIsFreshMap(disk: Disk, pl: Pipeline, planned: seq<PlannedRun>, shared: SharedTapes, overwrite: bool,
                        scripts: nat -> nat -> P.Fault, available: nat, out: Output, schedule: seq<nat>)
    requires CacheOf(disk, planned, shared) && Uniform(planned) && Indexed(planned)
    requires AllApart(FreshEnv(disk, pl, overwrite, scripts), out, planned)
    ensures var env := CachedEnv(disk, pl, shared, overwrite, scripts);
            var r := FanOutOf(env, planned, available, out, schedule).entries;
            var m := SequentialMap(FreshEnv(disk, pl, overwrite, scripts), out, planned);
            && (r.Ok? <==> m.Ok?)
            && (r.Ok? ==> |r.value| == |m.value| == |planned| && forall i | 0 <= i < |planned| ::
                  r.value[i] == EntryThroughCache(disk, pl, planned[i], m.value[i]))
  {
    hide FanOutOf, Alone, CachedEnv, FreshEnv, OpenFails;
    var cached, lone := CachedEnv(disk, pl, shared, overwrite, scripts), FreshEnv(disk, pl, overwrite, scripts);
    CacheKeepsApart(disk, pl, planned, shared, overwrite, scripts, out);
    ScheduleIrrelevant(cached, planned, available, out, schedule);
    forall i | 0 <= i < |planned|
      ensures Alone(lone, out, planned[i]).Some? <==> Alone(cached, out, planned[i]).Some?
      ensures Alone(lone, out, planned[i]).Some? ==>
                Alone(cached, out, planned[i]) ==
                Some(EntryThroughCache(disk, pl, planned[i], Alone(lone, out, planned[i]).value))
    {
      LoneThroughCache(disk, pl, planned, shared, overwrite, scripts, out, i);
    }
  }

  lemma LoneThroughCache(disk: Disk, pl: Pipeline, planned: seq<PlannedRun>, shared: SharedTapes, overwrite: bool,
                         scripts: nat -> nat -> P.Fault, out: Output, i: nat)
    requires CacheOf(disk, planned, shared) && Uniform(planned) && i < |planned|
    ensures var lone, cached := Alone(FreshEnv(disk, pl, overwrite, scripts), out, planned[i]),
                                Alone(CachedEnv(disk, pl, shared, overwrite, scripts), out, planned[i]);
            && (lone.Some? <==> cached.Some?)
            && (lone.Some? ==> cached == Some(EntryThroughCache(disk, pl, planned[i], lone.value)))
  {
    hide P.Run, CachedPrepare, FreshPrepare, OpenFresh, Text, CacheOf, Uniform;
    CachedIsRewrapped(disk, pl, planned, shared, i);
    FailureRefuses(disk, pl, planned[i]);
  }

  lemma CacheKeepsApart(disk: Disk, pl: Pipeline, planned: seq<PlannedRun>, shared: SharedTapes, overwrite: bool,
                        scripts: nat -> nat -> P.Fault, out: Output)
    requires CacheOf(disk, planned, shared) && Uniform(planned)
    requires AllApart(FreshEnv(disk, pl, overwrite, scripts), out, planned)
    ensures AllApart(CachedEnv(disk, pl, shared, overwrite, scripts), out, planned)
  {
    hide CachedPrepare, FreshPrepare, OpenFresh, Text, CacheOf, Uniform;
    var cached, lone := CachedEnv(disk, pl, shared, overwrite, scripts), FreshEnv(disk, pl, overwrite, scripts);
    forall i, j | 0 <= i < j < |planned| ensures Apart(cached, out, planned[i], planned[j]) {
      CachedIsRewrapped(disk, pl, planned, shared, i);
      CachedIsRewrapped(disk, pl, planned, shared, j);
      assert Apart(lone, out, planned[i], planned[j]);
    }
  }

  lemma FailureRefuses(disk: Disk, pl: Pipeline, p: PlannedRun)
    ensures OpenFails(disk, pl, p) ==> FreshPrepare(disk, pl)(p).Refused?
  {
    if OpenFails(disk, pl, p) {
      assert FreshPrepare(disk, pl)(p) == PrepareFrom(disk, pl, p, OpenFresh(disk, p.config));
    }
  }

  // ---- Seeds decide -------------------------------------------------------

  ghost predicate DistinctSeeds(configs: seq<Config>)
  {
    forall i, j | 0 <= i < j < |configs| :: configs[i].seed != configs[j].seed
  }

  /** The run id hashes the seed: configs that differ in it alone never share an id. */
  ghost predicate IdTellsSeed(pl: Pipeline, base: Config)
  {
    forall s: u64, t: u64, x: string, y: string ::
      pl.runId(base.(seed := s), x) == pl.runId(base.(seed := t), y) ==> s == t
  }

  /**
   Distinct seeds are enough, whatever the source, whatever lies in the output
   directory and whether or not the runs get to publish.
   */
  lemma SeedsSuffice(owners: seq<ConfigOverride>, base: Config, baseSeed: u64, child: ChildSeed, configs: seq<Config>,
                     disk: Disk, pl: Pipeline, overwrite: bool, scripts: nat -> nat -> P.Fault, out: Output)
    requires Expansion(owners, base, baseSeed, child, configs) && |configs| <= MAX_RUNS
    requires IdTellsSeed(pl, base) && DistinctSeeds(configs)
    ensures AllApart(FreshEnv(disk, pl, overwrite, scripts), out, Plan(configs))
  {
    hide Barred, OpenFresh, Text, SeedOf;
    var env, planned := FreshEnv(disk, pl, overwrite, scripts), Plan(configs);
    forall i, j | 0 <= i < j < |configs| ensures Apart(env, out, planned[i], planned[j]) {
      assert configs[i] == base.(seed := configs[i].seed) && configs[j] == base.(seed := configs[j].seed);
    }
  }

  /** No override fixes a seed, and the child seeds of the runs are distinct: a condition on the parameters alone. */
  ghost predicate SeedsSpread(params: Params, child: ChildSeed)
  {
    var total := (if params.sweep == [] then 1 else |params.sweep|) * params.count;
    && (forall o | 0 <= o < |params.sweep| :: params.sweep[o].seed.None?)
    && forall i, j | 0 <= i < j < total :: child(params.baseSeed, i) != child(params.baseSeed, j)
  }

  lemma SpreadIsDistinct(params: Params, base: Config, child: ChildSeed, configs: seq<Config>)
    requires Expands(params, base, child, configs) && SeedsSpread(params, child)
    ensures DistinctSeeds(configs)
  {
    hide SeedSaid;
    forall i | 0 <= i < |configs| ensures configs[i].seed == child(params.baseSeed, i) { Unseeded(params, child, i); }
  }

  lemma Unseeded(params: Params, child: ChildSeed, i: nat)
    requires forall o | 0 <= o < |params.sweep| :: params.sweep[o].seed.None?
    ensures SeedSaid(params, child, i) == child(params.baseSeed, i)
  {
  }

  /** The entries are those of the sequential map with fresh opens, but for the wrapped text of failed ones. */
  ghost predicate IsFreshMap(disk: Disk, pl: Pipeline, overwrite: bool, scripts: nat -> nat -> P.Fault, out: Output,
                             configs: seq<Config>, r: Result<seq<BatchRunEntry>, Error>)
    requires |configs| <= MAX_RUNS
  {
    var m := SequentialMap(FreshEnv(disk, pl, overwrite, scripts), out, Plan(configs));
    && (r.Ok? <==> m.Ok?)
    && (r.Ok? ==> |r.value| == |m.value| == |configs| && forall i | 0 <= i < |configs| ::
          r.value[i] == EntryThroughCache(disk, pl, Plan(configs)[i], m.value[i]))
  }

  /**
   For a batch over one file, all of whose runs get to publish into places that
   are free or may be replaced, the runs are apart exactly when their seeds are
   distinct; and on one machine they are harmless to each other (`Race.RaceIff`)
   exactly when runs of one seed may overwrite and share a worker.
   */
  lemma SeedsDecide(owners: seq<ConfigOverride>, base: Config, baseSeed: u64, child: ChildSeed, configs: seq<Config>,
                    disk: Disk, pl: Pipeline, overwrite: bool, scripts: nat -> nat -> P.Fault, available: nat,
                    out: Output)
    requires Expansion(owners, base, baseSeed, child, configs) && |configs| <= MAX_RUNS
    requires base.source.Parquet? && IdTellsSeed(pl, base)
    requires forall i | 0 <= i < |configs| ::
               var r := FreshPrepare(disk, pl)(Plan(configs)[i]);
               r.Ready? && !Barred(FreshEnv(disk, pl, overwrite, scripts), out, r.id)
    ensures AllApart(FreshEnv(disk, pl, overwrite, scripts), out, Plan(configs)) <==> DistinctSeeds(configs)
    ensures Race.Harmless(FreshEnv(disk, pl, overwrite, scripts), Plan(configs), available, out) <==>
            forall i, j | 0 <= i < j < |configs| ::
              configs[i].seed != configs[j].seed || (overwrite && Race.SameChunk(Plan(configs), available, i, j))
  {
    hide Barred, OpenFresh, Text, SeedOf, Race.SameChunk;
    var env, planned := FreshEnv(disk, pl, overwrite, scripts), Plan(configs);
    forall i, j | 0 <= i < j < |configs|
      ensures Apart(env, out, planned[i], planned[j]) <==> configs[i].seed != configs[j].seed
    {
      var a, b := env.prepare(planned[i]), env.prepare(planned[j]);
      assert configs[i] == base.(seed := configs[i].seed) && configs[j] == base.(seed := configs[j].seed);
    }
  }

  /**
   `run_scenario_batch` up to its index file: expand, fill the cache, fan out.
   The promised result is there when the runs are apart, and, what can be seen
   before the call, when the expanded seeds are distinct.
   */
  method RunScenarioBatch(params: Params, base: Config, child: ChildSeed, disk: Disk, pl: Pipeline, overwrite: bool,
                          scripts: nat -> nat -> P.Fault, available: nat, out: Output, schedule: seq<nat>)
    returns (r: Result<seq<BatchRunEntry>, Error>, out': Output, ghost configs: seq<Config>)
    ensures !Expandable(params, base) ==> r.Err? && out' == out
    ensures Expandable(params, base) ==>
              && Expansion(Owners(Overrides(params), params.count), base, params.baseSeed, child, configs)
              && |configs| <= MAX_RUNS
              && (AllApart(FreshEnv(disk, pl, overwrite, scripts), out, Plan(configs)) ==>
                  IsFreshMap(disk, pl, overwrite, scripts, out, configs, r))
              && (IdTellsSeed(pl, base) && DistinctSeeds(configs) ==>
                  IsFreshMap(disk, pl, overwrite, scripts, out, configs, r))
              && Expands(params, base, child, configs)
    ensures Expandable(params, base) && IdTellsSeed(pl, base) && SeedsSpread(params, child) ==>
              |configs| <= MAX_RUNS && IsFreshMap(disk, pl, overwrite, scripts, out, configs, r)
  {
    hide FanOutOf, SequentialMap, CachedEnv, FreshEnv, EntryThroughCache, CacheOf, DistinctSeeds, IdTellsSeed;
    hide Expands, SeedsSpread;
    var expanded := Expand(params, base, child);
    if expanded.Err? {
      return Err(expanded.error), out, [];
    }
    configs := expanded.value;
    OwnersCount(Overrides(params), params.count);
    ExpandedIsUniform(Owners(Overrides(params), params.count), base, params.baseSeed, child, configs);
    var planned := Plan(expanded.value);
    var shared, opens := MaterialiseSharedTapes(disk, planned);
    r, out' := FanOut(CachedEnv(disk, pl, shared, overwrite, scripts), planned, available, out, schedule);
    if SeedsSpread(params, child) {
      SpreadIsDistinct(params, base, child, configs);
    }
    if IdTellsSeed(pl, base) && DistinctSeeds(configs) {
      SeedsSuffice(Owners(Overrides(params), params.count), base, params.baseSeed, child, configs, disk, pl,
                   overwrite, scripts, out);
    }
    if AllApart(FreshEnv(disk, pl, overwrite, scripts), out, planned) {
      BatchIsFreshMap(disk, pl, planned, shared, overwrite, scripts, available, out, schedule);
    }
  }

  /** Two overrides with one explicit seed are accepted, since only replicas of an override are checked for it. */
  lemma SameSeedsExpand(baseSeed: u64, seed: u64, base: Config, child: ChildSeed) returns (params: Params)
    ensures params.count == 1 && |params.sweep| == 2 && params.sweep[0].seed == params.sweep[1].seed == Some(seed)
    ensures Expandable(params, base)
    ensures Expansion(Owners(Overrides(params), 1), base, params.baseSeed, child,
                      [base.(seed := seed), base.(seed := seed)])
  {
    var over := ConfigOverride(Some(seed), Unshocked);
    params := Params(false, baseSeed, 1, [over, over]);
    assert [over, over][..1] == [over] && [over][..0] == [];
    assert Owners([over], 1) == [over] && Owners([over, over], 1) == [over, over];
  }

  /** And they race: on a calm filesystem some schedule makes the batch differ from the sequential map. */
  lemma SameSeedsRace(seed: u64, base: Config, configs: seq<Config>, disk: Disk, pl: Pipeline, shared: SharedTapes,
                      overwrite: bool, scripts: nat -> nat -> P.Fault, out: Output)
    returns (schedule: seq<nat>)
    requires base.source.Parquet? && Race.Calm(FreshEnv(disk, pl, overwrite, scripts))
    requires configs == [base.(seed := seed), base.(seed := seed)] && CacheOf(disk, Plan(configs), shared)
    requires var r := FreshPrepare(disk, pl)(PlannedRun(0, base.(seed := seed)));
             r.Ready? && !Barred(FreshEnv(disk, pl, overwrite, scripts), out, r.id)
    ensures FanOutOf(CachedEnv(disk, pl, shared, overwrite, scripts), Plan(configs), 2, out, schedule).entries !=
            SequentialMap(FreshEnv(disk, pl, overwrite, scripts), out, Plan(configs))
  {
    hide FanOutOf, SequentialMap, FreshPrepare, CachedPrepare, OpenFresh, OpenCached, Text, P.Run, CacheOf;
    var cached, lone := CachedEnv(disk, pl, shared, overwrite, scripts), FreshEnv(disk, pl, overwrite, scripts);
    var planned := Plan(configs);
    SameConfig(disk, pl, planned[0], planned[1]);
    forall i | 0 <= i < 2
      ensures cached.prepare(planned[i]) == lone.prepare(planned[i])
      ensures Alone(cached, out, planned[i]) == Alone(lone, out, planned[i])
    {
      CachedIsRewrapped(disk, pl, planned, shared, i);
      FailureRefuses(disk, pl, planned[i]);
    }
    Race.OneEach(planned, 0, 1);
    schedule := Race.RaceBreaks(cached, planned, 2, out, 0, 1);
    SameMap(cached, lone, planned, out);
  }

  /** For one file, preparing a run looks at its config alone. */
  lemma SameConfig(disk: Disk, pl: Pipeline, p: PlannedRun, q: PlannedRun)
    requires p.config == q.config && p.config.source.Parquet?
    ensures FreshPrepare(disk, pl)(p) == FreshPrepare(disk, pl)(q)
  {
    hide OpenFresh, Text;
    assert FreshPrepare(disk, pl)(p) == PrepareFrom(disk, pl, p, OpenFresh(disk, p.config));
    assert FreshPrepare(disk, pl)(q) == PrepareFrom(disk, pl, q, OpenFresh(disk, p.config));
  }

  lemma SameMap(a: Env, b: Env, planned: seq<PlannedRun>, out: Output)
    requires forall i | 0 <= i < |planned| :: Alone(a, out, planned[i]) == Alone(b, out, planned[i])
    ensures SequentialMap(a, out, planned) == SequentialMap(b, out, planned)
  {
    hide Alone;
    if SequentialMap(a, out, planned).Ok? {
      MapValue(b, out, planned, SequentialMap(a, out, planned).value);
    }
  }
}
