/**
 The CSV feed: a directory of per-step files replayed in name order, and its
 hash preimage (src/data/historical.rs).
 */
module CsvDirectory {
  import opened Common
  import opened Sorting
  import opened Market
  import opened Convert
  import opened Tape

  /** A directory entry; within one directory no two entries share a name. */
  datatype DirEntry = DirEntry(name: Bytes, isFile: bool, content: Bytes)

  /** What parsing one file yields, its cells already typed. */
  datatype Parsed = Parsed(
    ts: i64, underlying: string, underlyingPrice: u64, tick: u64, multiplier: u32, quotes: seq<RawQuote>)

  /** The library parts: CSV parsing under the limits, and the hex content digest. */
  datatype Env = Env(parse: (Bytes, u32) -> Result<Parsed, Error>, digest: Bytes -> Bytes, lim: Limits)

  function NameKey(e: DirEntry): Key { e.name }

  datatype Progress = Progress(tape: seq<ChainSnapshot>, anchor: Option<i64>, decoded: nat, preimage: Bytes)

  const START := Progress([], None, 0, [])

  /** Name, a zero byte, content digest. */
  function FileRecord(e: DirEntry, env: Env): Bytes
  {
    e.name + [0] + env.digest(e.content)
  }

  function MetaOf(p: Parsed, step: u32, anchor: i64): SnapshotMeta
  {
    SnapshotMeta(p.ts, step, anchor, p.underlying, p.underlyingPrice, p.tick, p.multiplier)
  }

  function AnchorOr(anchor: Option<i64>, ts: i64): i64
  {
    if anchor.Some? then anchor.value else ts
  }

  /** One file: ceilings, identity, parse, convert, push. */
  function AddFile(p: Progress, e: DirEntry, index: nat, env: Env): Result<Progress, Error>
  {
    if !FitsU32(index) then Err(ArithmeticOverflow)
    else if |e.content| > env.lim.maxFileBytes then Err(TapeTooLarge(MaxFileBytes))
    else if !FitsU64(p.decoded + |e.content|) then Err(ArithmeticOverflow)
    else if p.decoded + |e.content| > env.lim.maxDecompressedBytes then Err(TapeTooLarge(MaxDecompressedBytes))
    else
      var parsed :- env.parse(e.content, index);
      var anchor := AnchorOr(p.anchor, parsed.ts);
      var s :- Snapshot(MetaOf(parsed, index, anchor), parsed.quotes);
      var tape :- Push(p.tape, s, env.lim);
      Ok(Progress(tape, Some(anchor), p.decoded + |e.content|, p.preimage + FileRecord(e, env)))
  }

  function AddFiles(files: seq<DirEntry>, env: Env): Result<Progress, Error>
  {
    if files == [] then Ok(START)
    else
      var p :- AddFiles(files[..|files| - 1], env);
      AddFile(p, files[|files| - 1], |files| - 1, env)
  }

  /** The tape and the hashed bytes. */
  datatype Opened = Opened(tape: seq<ChainSnapshot>, preimage: Bytes)

  /** What a directory with these entries opens to, once sorted. */
  function Replay(files: seq<DirEntry>, env: Env): Result<Opened, Error>
  {
    var p :- AddFiles(files, env);
    var _ :- Sequence(p.tape);
    Ok(Opened(p.tape, p.preimage))
  }

  predicate Collectable(entries: seq<DirEntry>, lim: Limits)
  {
    |entries| <= lim.maxSteps && forall i | 0 <= i < |entries| :: entries[i].isFile
  }

  lemma {:induction false} AddErrorStays(files: seq<DirEntry>, i: nat, env: Env)
    requires i <= |files| && AddFiles(files[..i], env).Err?
    ensures AddFiles(files, env) == AddFiles(files[..i], env)
    decreases |files|
  {
    hide AddFile;
    if i < |files| {
      var init := files[..|files| - 1];
      assert init[..i] == files[..i];
      AddErrorStays(init, i, env);
    } else {
      assert files[..i] == files;
    }
  }

  /** The loop body on the builder. */
  method AddToBuilder(builder: TapeBuilder, p: Progress, e: DirEntry, index: nat, env: Env)
    returns (r: Result<Progress, Error>)
    requires builder.Valid() && builder.lim == env.lim && builder.tape == p.tape
    modifies builder
    ensures builder.Valid()
    ensures r == AddFile(p, e, index, env)
    ensures r.Ok? ==> builder.tape == r.value.tape
  {
    hide Snapshot, TotalBytes, FileRecord;
    if !FitsU32(index) {
      return Err(ArithmeticOverflow);
    }
    if |e.content| > env.lim.maxFileBytes {
      return Err(TapeTooLarge(MaxFileBytes));
    }
    var decoded := p.decoded + |e.content|;
    if !FitsU64(decoded) {
      return Err(ArithmeticOverflow);
    }
    if decoded > env.lim.maxDecompressedBytes {
      return Err(TapeTooLarge(MaxDecompressedBytes));
    }
    var preimage := p.preimage + FileRecord(e, env);
    var parsed := env.parse(e.content, index);
    if parsed.Err? {
      return Err(parsed.error);
    }
    var anchor := AnchorOr(p.anchor, parsed.value.ts);
    var s := RawQuotesToSnapshot(MetaOf(parsed.value, index, anchor), parsed.value.quotes);
    if s.Err? {
      return Err(s.error);
    }
    var pushed := builder.PushChecked(s.value);
    if pushed.Err? {
      return Err(pushed.error);
    }
    return Ok(Progress(builder.tape, Some(anchor), decoded, preimage));
  }

  /** `CsvFeed::open`: collect, sort by name, replay. */
  method Open(entries: seq<DirEntry>, env: Env) returns (r: Result<Opened, Error>)
    ensures Collectable(entries, env.lim) ==> r == Replay(Sort(entries, NameKey), env)
    ensures !Collectable(entries, env.lim) ==> r.Err?
    ensures r.Ok? ==> WithinBudget(r.value.tape, env.lim)
  {
    hide AddFile, Sort, Sequence;
    var files: seq<DirEntry> := [];
    var i := 0;
    while i < |entries|
      invariant 0 <= i <= |entries| && files == entries[..i]
      invariant i <= env.lim.maxSteps && forall k | 0 <= k < i :: entries[k].isFile
    {
      if !entries[i].isFile {
        return Err(Conversion);
      }
      files := files + [entries[i]];
      i := i + 1;
      if |files| > env.lim.maxSteps {
        return Err(TapeTooLarge(MaxSteps));
      }
    }
    assert files == entries;
    files := Sort(files, NameKey);
    var builder := new TapeBuilder(env.lim);
    var p := START;
    i := 0;
    while i < |files|
      invariant 0 <= i <= |files|
      invariant fresh(builder) && builder.Valid() && builder.lim == env.lim && builder.tape == p.tape
      invariant AddFiles(files[..i], env) == Ok(p)
    {
      assert files[..i + 1][..i] == files[..i];
      var added := AddToBuilder(builder, p, files[i], i, env);
      if added.Err? {
        AddErrorStays(files, i + 1, env);
        return Err(added.error);
      }
      p := added.value;
      i := i + 1;
    }
    assert files[..i] == files;
    var meta := FromTape(builder.tape);
    if meta.Err? {
      return Err(meta.error);
    }
    return Ok(Opened(builder.tape, p.preimage));
  }

  /**
   The order in which the filesystem enumerates a directory is invisible: every
   order collects alike, sorts to the same list, and so opens to the same tape
   and the same hashed bytes.
   */
  lemma EnumerationIrrelevant(entries: seq<DirEntry>, shuffled: seq<DirEntry>, env: Env)
    requires multiset(entries) == multiset(shuffled) && DistinctKeys(entries, NameKey)
    ensures Collectable(entries, env.lim) <==> Collectable(shuffled, env.lim)
    ensures Replay(Sort(entries, NameKey), env) == Replay(Sort(shuffled, NameKey), env)
  {
    hide Replay;
    SortForgetsOrder(entries, shuffled, NameKey);
    CollectForgetsOrder(entries, shuffled, env.lim);
    CollectForgetsOrder(shuffled, entries, env.lim);
  }

  lemma CollectForgetsOrder(entries: seq<DirEntry>, shuffled: seq<DirEntry>, lim: Limits)
    requires multiset(entries) == multiset(shuffled)
    ensures Collectable(entries, lim) ==> Collectable(shuffled, lim)
  {
    assert |multiset(entries)| == |multiset(shuffled)|;
    if Collectable(entries, lim) {
      forall i | 0 <= i < |shuffled| ensures shuffled[i].isFile {
        ElementOf(shuffled[i], shuffled, entries);
      }
    }
  }

  // ---- What a directory opens to ------------------------------------------

  function SizeOf(files: seq<DirEntry>): nat
  {
    if files == [] then 0 else SizeOf(files[..|files| - 1]) + |files[|files| - 1].content|
  }

  /** The listing that is hashed: every name, a zero byte, and the digest of the content. */
  function Listing(files: seq<DirEntry>, env: Env): Bytes
  {
    if files == [] then []
    else
      var e := files[|files| - 1];
      Listing(files[..|files| - 1], env) + (e.name + [0] + env.digest(e.content))
  }

  /** The snapshot is the parsed file: its header, an entry for every quote and nothing else, no contract twice. */
  ghost predicate FileIs(p: Parsed, step: u32, anchor: i64, s: ChainSnapshot)
  {
    && s.step == step && s.ts == p.ts && s.underlying == p.underlying && s.underlyingPrice == p.underlyingPrice
    && s.tick == p.tick > 0 && s.multiplier == p.multiplier > 0
    && StrictlySortedBy(s.quotes, EntryKey)
    && var meta := SnapshotMeta(s.ts, s.step, anchor, s.underlying, s.underlyingPrice, s.tick, s.multiplier);
       Correspond(meta, p.quotes, s.quotes) && OneQuoteEach(meta, p.quotes)
  }

  /** File `i` is of allowed size, parses, and is snapshot `i`, its relative expiries counted from the first file. */
  ghost predicate StepIs(files: seq<DirEntry>, env: Env, i: nat, tape: seq<ChainSnapshot>)
    requires i < |files| && i < |tape|
  {
    && FitsU32(i) && |files[i].content| <= env.lim.maxFileBytes
    && SizeOf(files[..i + 1]) <= env.lim.maxDecompressedBytes
    && match env.parse(files[i].content, i)
       case Ok(p) => FileIs(p, i, tape[0].ts, tape[i])
       case Err(_) => false
  }

  ghost predicate StepsAre(files: seq<DirEntry>, env: Env, tape: seq<ChainSnapshot>)
  {
    |tape| == |files| && forall i | 0 <= i < |files| :: StepIs(files, env, i, tape)
  }

  lemma SnapshotIsFile(p: Parsed, step: u32, anchor: i64, s: ChainSnapshot)
    ensures Snapshot(MetaOf(p, step, anchor), p.quotes) == Ok(s) <==> FileIs(p, step, anchor, s)
  {
    hide Snapshot, Correspond, OneQuoteEach, StrictlySortedBy;
    SnapshotIff(MetaOf(p, step, anchor), p.quotes, s);
  }

  /** What has been collected after some files: their snapshots, sizes and listing. */
  ghost predicate Collected(files: seq<DirEntry>, env: Env, p: Progress)
  {
    && StepsAre(files, env, p.tape) && WithinBudget(p.tape, env.lim)
    && p.anchor == (if p.tape == [] then None else Some(p.tape[0].ts))
    && p.decoded == SizeOf(files) && p.preimage == Listing(files, env)
  }

  /** The last file is the last step, the rest are those before. */
  lemma StepsSnoc(files: seq<DirEntry>, env: Env, tape: seq<ChainSnapshot>)
    requires files != [] && |tape| == |files|
    ensures var n := |files| - 1;
            StepsAre(files, env, tape) <==> StepsAre(files[..n], env, tape[..n]) && StepIs(files, env, n, tape)
  {
    hide FileIs;
    var n := |files| - 1;
    forall i | 0 <= i < n ensures StepIs(files, env, i, tape) <==> StepIs(files[..n], env, i, tape[..n]) {
      assert files[..n][..i + 1] == files[..i + 1];
    }
  }

  /** What is collected after one more file. */
  lemma CollectedSnoc(files: seq<DirEntry>, env: Env, p0: Progress, p: Progress)
    requires files != [] && Collected(files[..|files| - 1], env, p0)
    ensures var n, e := |files| - 1, files[|files| - 1];
            |p.tape| == |files| && p.tape[..n] == p0.tape && Collected(files, env, p) <==>
            && |p.tape| == |files| && p.tape[..n] == p0.tape && StepIs(files, env, n, p.tape)
            && WithinBudget(p.tape, env.lim) && p.anchor == Some(p.tape[0].ts)
            && p.decoded == p0.decoded + |e.content| && p.preimage == p0.preimage + FileRecord(e, env)
  {
    hide StepIs, WithinBudget, StepsAre;
    if |p.tape| == |files| {
      StepsSnoc(files, env, p.tape);
    }
  }

  lemma AddFileIff(files: seq<DirEntry>, env: Env, p0: Progress, p: Progress)
    requires files != [] && Collected(files[..|files| - 1], env, p0)
    ensures AddFile(p0, files[|files| - 1], |files| - 1, env) == Ok(p) <==>
            |p.tape| == |files| && p.tape[..|files| - 1] == p0.tape && Collected(files, env, p)
  {
    hide Snapshot, FileIs, Push, WithinBudget, StepsAre, FileRecord;
    var n, e := |files| - 1, files[|files| - 1];
    CollectedSnoc(files, env, p0, p);
    assert files[..n + 1] == files && SizeOf(files) == p0.decoded + |e.content|;
    assert |p0.tape| == n by { StepsCount(files[..n], env, p0.tape); }
    if |p.tape| == |files| {
      assert p.tape == p.tape[..n] + [p.tape[n]];
    }
    hide Collected, SizeOf, Listing;
    if FitsU32(n) {
      match env.parse(e.content, n) {
        case Ok(parsed) =>
          AddParsed(files, env, p0, p, parsed);
        case Err(_) =>
      }
    }
  }

  /** The last file parses: it converts and is pushed exactly when its snapshot can be the last one. */
  lemma AddParsed(files: seq<DirEntry>, env: Env, p0: Progress, p: Progress, parsed: Parsed)
    requires files != [] && |p0.tape| == |files| - 1 && FitsU32(|files| - 1)
    requires p0.anchor == (if p0.tape == [] then None else Some(p0.tape[0].ts))
    ensures var n := |files| - 1;
            var s := Snapshot(MetaOf(parsed, n, AnchorOr(p0.anchor, parsed.ts)), parsed.quotes);
            s.Ok? && Push(p0.tape, s.value, env.lim) == Ok(p.tape) <==>
            && |p.tape| == |files| && p.tape[..n] == p0.tape && FileIs(parsed, n, p.tape[0].ts, p.tape[n])
            && WithinBudget(p.tape, env.lim)
    ensures var n := |files| - 1;
            |p.tape| == |files| && p.tape[..n] == p0.tape && FileIs(parsed, n, p.tape[0].ts, p.tape[n]) ==>
            AnchorOr(p0.anchor, parsed.ts) == p.tape[0].ts
  {
    hide Snapshot, FileIs, Push, WithinBudget;
    var n, anchor := |files| - 1, AnchorOr(p0.anchor, parsed.ts);
    var s := Snapshot(MetaOf(parsed, n, anchor), parsed.quotes);
    if s.Ok? {
      SnapshotIsFile(parsed, n, anchor, s.value);
      FileTs(parsed, n, anchor, s.value);
      PushIff(p0.tape, s.value, env.lim);
      var next := p0.tape + [s.value];
      assert next[..n] == p0.tape && next[0].ts == anchor;
    }
    if |p.tape| == |files| && p.tape[..n] == p0.tape {
      SnapshotIsFile(parsed, n, p.tape[0].ts, p.tape[n]);
      FileTs(parsed, n, p.tape[0].ts, p.tape[n]);
      assert p.tape == p0.tape + [p.tape[n]];
    }
  }

  lemma StepsCount(files: seq<DirEntry>, env: Env, tape: seq<ChainSnapshot>)
    ensures StepsAre(files, env, tape) ==> |tape| == |files|
  {
  }

  lemma FileTs(p: Parsed, step: u32, anchor: i64, s: ChainSnapshot)
    ensures FileIs(p, step, anchor, s) ==> s.ts == p.ts
  {
  }

  lemma {:induction false} AddFilesIff(files: seq<DirEntry>, env: Env, p: Progress)
    ensures AddFiles(files, env) == Ok(p) <==> Collected(files, env, p)
    decreases |files|
  {
    hide AddFile, StepsAre, WithinBudget;
    if files == [] {
      NothingCollected(env, p);
    } else {
      var n := |files| - 1;
      var before := AddFiles(files[..n], env);
      if before.Ok? {
        AddFilesIff(files[..n], env, before.value);
        AddFileIff(files, env, before.value, p);
      }
      if Collected(files, env, p) {
        var p0 := CollectedBefore(files, env, p);
        AddFilesIff(files[..n], env, p0);
      }
    }
  }

  lemma NothingCollected(env: Env, p: Progress)
    ensures p == START <==> Collected([], env, p)
  {
  }

  lemma CollectedBefore(files: seq<DirEntry>, env: Env, p: Progress) returns (p0: Progress)
    requires files != [] && Collected(files, env, p)
    ensures Collected(files[..|files| - 1], env, p0) && |p.tape| == |files| && p0.tape == p.tape[..|files| - 1]
  {
    hide StepIs, WithinBudget;
    var n := |files| - 1;
    StepsSnoc(files, env, p.tape);
    BudgetOfPrefix(p.tape, n, env.lim);
    p0 := Progress(p.tape[..n], if n == 0 then None else Some(p.tape[0].ts), SizeOf(files[..n]),
                   Listing(files[..n], env));
  }

  /**
   What a directory opens to, both ways: exactly when its files in name order are
   steps 0, 1, 2, ... in strictly increasing time, within the ceilings, and then
   to their snapshots and the hashed listing of all of them.
   */
  lemma ReplayIff(files: seq<DirEntry>, env: Env, o: Opened)
    ensures Replay(files, env) == Ok(o) <==>
            && files != [] && StepsAre(files, env, o.tape) && WithinBudget(o.tape, env.lim)
            && (forall i, j | 0 <= i < j < |o.tape| :: o.tape[i].ts < o.tape[j].ts)
            && o.preimage == Listing(files, env)
  {
    hide AddFiles, WithinBudget, StepIs, FileIs;
    var anchor := if o.tape == [] then None else Some(o.tape[0].ts);
    AddFilesIff(files, env, Progress(o.tape, anchor, SizeOf(files), o.preimage));
    match AddFiles(files, env) {
      case Ok(p) =>
        AddFilesIff(files, env, p);
        SequenceComplete(p.tape);
        StepNumbers(files, env, p.tape);
      case Err(_) =>
    }
  }

  lemma StepNumbers(files: seq<DirEntry>, env: Env, tape: seq<ChainSnapshot>)
    requires StepsAre(files, env, tape)
    ensures forall i | 0 <= i < |tape| :: tape[i].step == i
  {
    hide Correspond, OneQuoteEach, StrictlySortedBy;
    forall i | 0 <= i < |tape| ensures tape[i].step == i {
      assert StepIs(files, env, i, tape);
    }
  }

  /** The files are the entries, one by one, in ascending order of their names. */
  ghost predicate InNameOrder(entries: seq<DirEntry>, files: seq<DirEntry>)
  {
    && multiset(files) == multiset(entries)
    && forall i, j | 0 <= i < j < |files| :: Less(files[i].name, files[j].name)
  }

  /** What is replayed: the entries in ascending order of their names, and there is only one such order. */
  lemma SortedByName(entries: seq<DirEntry>, files: seq<DirEntry>)
    requires forall i, j | 0 <= i < j < |entries| :: entries[i].name != entries[j].name
    ensures files == Sort(entries, NameKey) <==> InNameOrder(entries, files)
  {
    hide Sort, Less;
    DistinctIffStrict(entries, NameKey);
    SortCorrect(entries, NameKey);
    if InNameOrder(entries, files) {
      StrictlySortedUnique(files, Sort(entries, NameKey), NameKey);
    }
  }

  // ---- The hashed bytes pin the directory ---------------------------------

  const HEX_LEN := 64

  /** Names carry no zero byte; digests have a fixed length. */
  predicate Delimited(e: DirEntry, env: Env)
  {
    0 !in e.name && |env.digest(e.content)| == HEX_LEN
  }

  function DirPreimage(files: seq<DirEntry>, env: Env): Bytes
  {
    if files == [] then [] else FileRecord(files[0], env) + DirPreimage(files[1..], env)
  }

  lemma {:induction false} PreimageSnoc(files: seq<DirEntry>, e: DirEntry, env: Env)
    ensures DirPreimage(files + [e], env) == DirPreimage(files, env) + FileRecord(e, env)
  {
    hide FileRecord;
    if files == [] {
      assert files + [e] == [e] && [e][1..] == [];
    } else {
      assert (files + [e])[1..] == files[1..] + [e];
      PreimageSnoc(files[1..], e, env);
    }
  }

  /** The bytes `open` hashes are the records of the files in name order. */
  lemma {:induction false} HashedBytes(files: seq<DirEntry>, env: Env)
    requires AddFiles(files, env).Ok?
    ensures AddFiles(files, env).value.preimage == DirPreimage(files, env)
    decreases |files|
  {
    hide FileRecord, Snapshot, Push;
    if files != [] {
      var init, last := files[..|files| - 1], files[|files| - 1];
      HashedBytes(init, env);
      PreimageSnoc(init, last, env);
      assert init + [last] == files;
    }
  }

  lemma NameEnds(a: Bytes, x: Bytes, b: Bytes, y: Bytes)
    requires 0 !in a && 0 !in b && a + [0] + x == b + [0] + y
    ensures a == b && x == y
  {
    var s := a + [0] + x;
    var t := b + [0] + y;
    forall i | 0 <= i < |a| ensures s[i] != 0 { assert a[i] in a; }
    forall i | 0 <= i < |b| ensures t[i] != 0 { assert b[i] in b; }
    assert s[|a|] == 0 && t[|b|] == 0;
    assert s[..|a|] == a && t[..|b|] == b;
    assert s[|a| + 1..] == x && t[|b| + 1..] == y;
  }

  /** Same names in the same order, each with the same content digest. */
  ghost predicate SameListing(a: seq<DirEntry>, b: seq<DirEntry>, env: Env)
  {
    |a| == |b| && forall i | 0 <= i < |a| ::
        a[i].name == b[i].name && env.digest(a[i].content) == env.digest(b[i].content)
  }

  /** With names free of zero bytes, equal preimages come from equal listings. */
  lemma {:induction false} DirPreimageInjective(a: seq<DirEntry>, b: seq<DirEntry>, env: Env)
    requires forall i | 0 <= i < |a| :: Delimited(a[i], env)
    requires forall i | 0 <= i < |b| :: Delimited(b[i], env)
    requires DirPreimage(a, env) == DirPreimage(b, env)
    ensures SameListing(a, b, env)
  {
    if a != [] && b != [] {
      var x, y := DirPreimage(a[1..], env), DirPreimage(b[1..], env);
      var da, db := env.digest(a[0].content), env.digest(b[0].content);
      assert FileRecord(a[0], env) + x == a[0].name + [0] + (da + x);
      assert FileRecord(b[0], env) + y == b[0].name + [0] + (db + y);
      NameEnds(a[0].name, da + x, b[0].name, db + y);
      SameSplit(da, x, db, y);
      DirPreimageInjective(a[1..], b[1..], env);
    }
  }
}
