# IronCondor: a verified model of the layers around the replay loop

IronCondor is a deterministic options backtester. This project models the code that
stands between the outside world and its replay loop, and proves what that code promises.
`dafny verify dfyconfig.toml` checks everything.

## What is modelled

**Publishing a result bundle** (`Publish.dfy`). Three sibling directory names, `<id>`,
`.<id>.partial` and `.<id>.backup`; renames are atomic, recursive removals and file
writes may stop half-way, and a fault script decides for every single filesystem call
whether it works, fails without effect, fails although it took effect, stops half-way, or
takes the process down. `OutputDir` carries the directories; `WriteBundle` is the call.
Its contract `CallStep` is what one call keeps, and `Run` is the same call as a machine of
single filesystem steps; the lemmas are about any sequence of calls for one run id and,
below, about calls whose steps interleave.

**Draining a simulator session** (`Session.dfy`). `Link` is the network and the server
together: a cursor, the set of every request ever sent, any of which may arrive again
before any later attempt, and responses that may be lost. `Drain` is the client loop with
its three attempts per advance. `DrainOver` is what a given network makes of a walk and
`IdealDrain` what a perfect one would.

**Materialising a tape** (`Convert.dfy`, `Tape.dfy`, `Parquet.dfy`, `Grouping.dfy`,
`CsvDirectory.dfy`, `TapeHash.dfy`). The streaming group-by of the Parquet feed with its
carried state is proved to refine grouping by runs of equal step; conversion is proved to
build a map that does not depend on the order of the quotes; the identity of a tape is
proved to be injective byte by byte. What each source yields is stated cell by cell and
both ways: `Grouping.FileIff` for a file, `CsvDirectory.ReplayIff` for a directory,
`Session.DrainIff` and `Session.OpenIff` for a session.

**Writing and reading the tables** (`Columns.dfy`, `Reader.dfy`, `Bundle.dfy`,
`ContractId.dfy`, `Sorting.dfy`, `Framing.dfy`). Rows are sorted, cut into batches of
8192, transposed to columns and narrowed to signed cells; they come back by column name,
are widened, sorted again and validated. One generic table carries all four schemas.
`Bundle.ReadBack` says by column name what comes back, `Bundle.WritableIff` and
`Bundle.ReadableIff` when, in the run's own fields.

**The parallel batch** (`Scenario.dfy`, `Batch.dfy`, `Pool.dfy`, `Race.dfy`). Parameters
expand into seeded configs; each distinct file is parsed once into a read-only cache;
workers over disjoint chunks prepare their runs and publish them into one shared output
directory, filesystem call by filesystem call, in any interleaving. Two runs are apart when
they do not meet in one bundle directory; runs pairwise apart give the sequential map under
every schedule; two that are not can be scheduled to spoil each other, unless one worker
makes both and each may replace the other's bundle.

**Analytics in integer cents** (`Attribution.dfy`, `Metrics.dfy`, `Rounding.dfy`).
`Attribution.StepReports` gives the row of a step term by term, and when there is one.

`Common.dfy` holds results, errors and machine-integer ranges, `Market.dfy` contracts,
quotes and snapshots. A `BTreeMap` is the sequence of its entries, strictly sorted by an
integer key that is proved to order as the source compares (`Market.OrderKeyIsFieldOrder`).
`u32`, `u64`, `i32`, `i64` and `i128` keep their bounds, and every checked operation is an
explicit test with an error.

## Where the code differs from its documentation

- A failed run is documented to clean its temp directory and leave nothing behind
  (src/bundle/writer.rs:70). Looking at a stale backup, removing one, or a removal or
  creation of the temp directory that fails in the wrong way leaves one in place; and
  wherever the call does clean up, a failure of the clean-up is ignored
  (src/bundle/writer.rs:352-358), so one refused removal after a refused table is enough
  (`Publish.CleanupIsIgnored`). `Publish.LeavesTemp` is the exact condition, in terms of
  the directories before the call, the overwrite flag, the first failing filesystem call,
  and how it and the next two go; `Publish.TempLeftBehind` proves it for every script
  without a crash. The next call removes what was left.
- Runs of a batch are documented never to collide, the seed being part of the run id
  (src/batch.rs:50-52, src/engine/scenario.rs:425-427). Explicit seeds are checked only
  against replication of one override, so two overrides with one seed are accepted and
  publish into one bundle directory: `Scenario.SameSeedsExpand` and
  `Scenario.SameSeedsRace` give the input. Distinct seeds are enough
  (`Scenario.SeedsSuffice`, `Scenario.RunScenarioBatch`); `Race.RaceIff` is the exact
  condition under which every schedule gives the promised result on a machine of given
  parallelism, `Race.RaceIffAnywhere` on all machines, and `Scenario.SeedsDecide` says both
  in seeds.
- A run whose path failed to be parsed for the cache is documented to re-open it
  (src/batch.rs:63-64). The code replays the cached error (src/batch.rs:506-514), and so
  does `Batch.OpenCached`.
- A conversion error of the tape identity is documented as impossible for a converted
  snapshot (src/data/simulator.rs:987-989). An absolute expiry passes conversion unchecked,
  so a served contract expiring outside the `i64` nanosecond range drains successfully and
  then fails to open: `Session.FarExpiryDrainsButDoesNotOpen` is one, and
  `Session.DrainedTapeSettles` and `TapeHash.ConvertedIsHashable` give the exact condition.
- `from_contract_id` is documented as the inverse of the printer; it also takes spellings
  the printer never produces. Only the reader's canonical check tells them apart
  (`ContractId.NonCanonicalRejected`, `ContractId.NegativeZeroRejected`).
- A surplus of legs in the attribution substrate goes unnoticed, while a shortage is an
  error (`Attribution.SurplusLegsIgnored`).

Limits the code states itself, made exact: the cache needs all runs over a path to share
pin and limits (src/batch.rs:315-321), which expansion guarantees
(`Scenario.ExpandedIsUniform`); `Batch.CacheAgreement` is the exact condition for runs that
differ and `Batch.MixedPinsDiverge` a family outside it. And one asymmetry between the two
sides of the bundle: the writer's rows may carry negative fees and the reader refuses them
(`Bundle.NegativeFeesAreLost`), which the engine, charging fees that are never negative,
does not produce.

## Model

| member | source | states |
|---|---|---|
| Publish.OutputDir.Rename | src/bundle/writer.rs:380-394 | a rename between two sibling names takes effect whole or not at all, whatever error or crash it reports, and is refused onto an occupied name |
| Publish.OutputDir.RemoveAll | src/bundle/writer.rs:370-376 | a recursive removal may stop half-way: what is left is a subset of the files, each unchanged |
| Publish.OutputDir.BuildInto | src/bundle/writer.rs:425-455 | four tables, then the manifest: after any fault or crash a whole manifest implies four whole tables of this run |
| Publish.OutputDir.CleanUp | src/bundle/writer.rs:352-358 | best-effort removal touches only the temp name and never changes which error is returned |
| Publish.OutputDir.PrepareTemp | src/bundle/writer.rs:339-348 | a leftover of a crashed call is replaced by an empty temp directory, or an error leaves the other two names alone |
| Publish.OutputDir.PublishFresh | src/bundle/writer.rs:405-408 | publishing into an empty place leaves the destination absent or the whole new bundle and never touches the backup |
| Publish.OutputDir.Replace | src/bundle/writer.rs:360-404 | publishing over a bundle: at every fault and crash point a complete bundle is at the destination or, while that is absent, at the backup; `Ok` means the new one is in place, an error means the old one is intact; and the code computes what the step machine does |
| Publish.OutputDir.WriteBundle | src/bundle/writer.rs:302-420 | one call, any fault script: keeps soundness and recoverability (`CallStep`), publishes when nothing fails and the collision rule allows it, and ends exactly as the machine of filesystem steps (`Run`) does, in outcome, directories and number of calls |
| Publish.OutputDir.Publish | src/bundle/writer.rs:339-408 | the part after the collision check keeps the same promises and computes the same steps |
| Publish.OutputDir.Swap | src/bundle/writer.rs:377-404 | the two renames, the restoring one and the end of the backup: in between, the old bundle is at the backup; an error leaves it at one of the two names |
| Publish.OutputDir.WriteNext | src/bundle/writer.rs:433-453 | one file is written whole, left torn or not at all, and nothing else changes |
| Publish.OutputDir.BuildTables | src/bundle/writer.rs:433-436 | the four tables before the manifest: without an error all four are whole, and no whole manifest appears before them |
| Publish.TempLeftBehind | src/bundle/writer.rs:66-73 | under every script that lets the process live, however many filesystem calls fail: from the directories before the call, the overwrite flag, the position of the first failing call and the ways that one and the next two go, it is settled whether a temp directory is left behind (`LeavesTemp`) and whether the bundle is published (`Publishes`) |
| Publish.CleanupIsIgnored | src/bundle/writer.rs:352-358 | one refused removal after a refused table leaves the temp directory: nothing looks at the outcome of the clean-up |
| Publish.QuietRun | src/bundle/writer.rs:302-420 | without a fault a call publishes, unless the bundle is there and may not be replaced |
| Publish.DestinationNeverPartial | src/bundle/writer.rs:287-301 | over every sequence of calls, with any failures and deaths, the destination is absent or the whole bundle of an earlier call |
| Publish.PublishedNeverLost | src/bundle/writer.rs:360-366 | once a call has put its bundle in place, even if it died or reported an error afterwards, at every later point the destination, or the backup while it is absent, holds a complete bundle at least as new |
| Publish.StaysRecoverable | src/bundle/writer.rs:360-366 | a complete bundle at destination or backup is never lost again, over any sequence of calls, failures and deaths |
| Session.Link.Handle | src/data/simulator.rs:614-630 | the server advances exactly when the precondition names its cursor and otherwise answers 412 (section 15.5.13 of RFC 9110) without moving |
| Session.Link.Attempt | src/data/simulator.rs:631-651 | one attempt with stale requests arriving first: it is answered exactly when the cursor is untouched and the response survives, and then with the payload of the expected step |
| Session.Link.Advance | src/data/simulator.rs:906-930 | three attempts at one step are answered exactly when `Try` says so; never two advances, and an advance whose response was lost always ends in an error |
| Session.TryIff | src/data/simulator.rs:906-930 | three attempts are answered exactly when one of them is, with no advance lost before it |
| Session.AbsorbInto | src/data/simulator.rs:1251-1302 | one response: contract cap, anchor, conversion, strict time order, budgeted push, in that order |
| Session.Drain | src/data/simulator.rs:1222-1312 | the loop computes `DrainOver`, a function of the walk and the network; a lost advance is always a session error; at most three attempts for each of `max_steps + 1` turns even if the server never reports an end |
| Session.NetworkDrainIsIdeal | src/data/simulator.rs:897-930 | whatever is lost, delayed, duplicated or reordered, the drain is the perfect-network drain when every needed step is answered and a session error otherwise: nothing in between |
| Session.ReachableIff | src/data/simulator.rs:906-930 | where the walk converts, the drain gets through exactly when every one of its steps is answered within its own three attempts |
| Session.AbsorbKeeps | src/data/simulator.rs:1251-1302 | each absorbed chain extends the tape by exactly the next snapshot, in time order, under the contract cap |
| Session.DrainedTape | src/data/simulator.rs:1213-1312 | a successful drain is exactly the server's snapshots from its cursor to the first step reported as the end, none skipped or repeated, strictly increasing in time, each within the contract cap |
| Session.AbsorbIff | src/data/simulator.rs:1251-1302 | one response is absorbed exactly when the longer tape ends in that chain, within the cap, later than the step before and within the budget |
| Session.DrainIff | src/data/simulator.rs:1213-1312 | what a drain is, both ways: it yields a tape exactly when the tape is the server's chains one by one, entry by entry, from its cursor to the first step counted as the last, in increasing time and within cap and budget |
| Session.RowsRead | src/data/convert.rs:424-512 | the rows of a served chain convert to quotes exactly when each has a strike, an expiration, a volatility and four prices; then quote `2c` holds the call cells of row `c` and quote `2c + 1` its put cells, field by field |
| Session.ChainKeepsQuotes | src/data/convert.rs:400-477 | no quote of a served chain is merged or lost: the snapshot holds two per contract row |
| Session.ChainIff | src/data/convert.rs:400-477 | a served chain converts to a snapshot exactly when the snapshot is the chain: its header, and for every row a call entry with the call's prices and delta and a put entry with the put's, the common sizes, volatility and gamma, zero theta and vega, on the grid, no contract twice and nothing else |
| Session.Api.Create | src/data/simulator.rs:1143-1150 | the session of the first answered create attempt out of three, and exactly the earlier ambiguous attempts as orphans on the server |
| Session.Api.Delete | src/data/simulator.rs:1152-1165 | at least one and at most three delete attempts |
| Session.Api.Open | src/data/simulator.rs:1133-1211 | the result is `OpenOver`, a function of the creates and advances in which no delete occurs, and a delete is attempted after every drain, successful or not |
| Session.ServedKeyed | src/data/simulator.rs:985-992 | a served snapshot can be hashed exactly when its chain's expirations lie within `i64` nanoseconds |
| Session.DrainedTapeSettles | src/data/simulator.rs:1166-1177 | after a successful drain the sequence check never fails, and the identity fails exactly when some served expiration is outside the nanosecond range |
| Session.OpenSucceeds | src/data/simulator.rs:1133-1211 | opening succeeds exactly when a session is created unended, every advance is answered in time, the chains convert within the ceilings and the expirations fit; then the tape is the ideal one |
| Session.FirstIff | src/data/simulator.rs:1143-1150 | the session opened is that of the first of three create attempts that answers |
| Session.OpenIff | src/data/simulator.rs:1133-1211 | what opening is, both ways: it yields a tape exactly when that session is neither completed, failed nor at its last step, the tape is its chains entry by entry, every advance is answered within its attempts and every expiration fits |
| Session.FarChainConverts | src/data/convert.rs:226-232 | a chain of one contract expiring 2^63 nanoseconds after the epoch converts, on any grid |
| Session.FarExpiryDrainsButDoesNotOpen | src/data/simulator.rs:1166-1177 | a session serving that chain drains and fails to open |
| Tape.TapeBuilder.PushChecked | src/data/historical.rs:1241-1278 | both ceilings come before the push: the tape and the byte counter grow together or neither changes, and the counter stays the sum of the estimates |
| Tape.PushIff | src/data/historical.rs:1241-1278 | a snapshot is pushed exactly when the longer tape is within both ceilings |
| Tape.BytesOfQuotes | src/data/historical.rs:1256-1273 | the estimate is so much for every quote and so much for every snapshot |
| Tape.FromTape | src/data/feed.rs:88-131 | the adjacent checks accept exactly the non-empty tapes whose steps are 0, 1, 2, ... and whose timestamps increase over every pair, near or far |
| Tape.SequenceComplete | src/data/feed.rs:88-131 | the same acceptance condition for the check as a function |
| Tape.TapeFeed.constructor | src/data/historical.rs:514-525 | a view of a shared tape starts at its beginning with its own cursor |
| Tape.TapeFeed.Next | src/data/historical.rs:444-456 | pulls exactly the next snapshot, in tape order, and nothing for ever after the end |
| Parquet.GroupBuilder.Push | src/data/historical.rs:1110-1197 | a row joins its group only if it repeats the header fields and the contract cap allows it; a refused row leaves the group as it was |
| Parquet.PushSnapshot | src/data/historical.rs:1217-1235 | the first flushed group anchors the tape; the group is converted and pushed under the shared budget |
| Parquet.FeedRow | src/data/historical.rs:363-392 | one row through the carried state equals one step of the stream function |
| Parquet.FeedBatch | src/data/historical.rs:331-393 | the state carried across a batch boundary is that of the concatenated rows |
| Parquet.FeedErrorStays | src/data/historical.rs:363-393 | the first error of the stream is the error of every longer file |
| Parquet.Open | src/data/historical.rs:322-410 | apart from the decompression guard the result is a function of the concatenated rows, however they are cut into batches, and it is within the step and byte ceilings |
| Grouping.GroupsPartition | src/data/historical.rs:363-383 | the runs of equal step concatenate to the rows |
| Grouping.BuildFacts | src/data/historical.rs:1084-1197 | a built group repeats the header of its first row and holds one quote per row, within the contract cap |
| Grouping.StreamIsGrouping | src/data/historical.rs:322-396 | the streaming state machine refines the declarative grouping: alive exactly when the runs so far ascend and build, and holding exactly them |
| Grouping.MaterialiseIsGrouping | src/data/historical.rs:322-400 | a file materialises exactly when its runs ascend, each builds and converts within the ceilings, and the result is well sequenced; the tape is then the runs converted in order |
| Grouping.SnapshotOfRun | src/data/historical.rs:1201-1213 | a run becomes one snapshot with its step, its timestamp and one quote per row |
| Grouping.TapeRuns | src/data/historical.rs:1217-1278 | snapshot by snapshot the tape is its runs, and its quotes add up to its rows, within the budget |
| Grouping.MaterialisedTape | src/data/historical.rs:394-400 | `tape[i].step == i` for every row that went into it, timestamps increase over every pair, the quote count is the row count, all ceilings met |
| Grouping.ParsesStyle | src/data/historical.rs:1538-1549 | a style cell is a call exactly when it says "call", and a put when it says "put", in any letter case |
| Grouping.BuildIff | src/data/historical.rs:1086-1197 | a run builds exactly when its first row makes a header that every row repeats, it is within the cap and every row reads; quote `k` then holds the cells of row `k`, an absent Greek being zero |
| Grouping.RunIff | src/data/historical.rs:1110-1214 | a run becomes a snapshot exactly when the snapshot is the run: its header on every row, an entry with the cells of every row and no other, no contract twice |
| Grouping.TapeIff | src/data/historical.rs:1217-1278 | and so does a sequence of runs, within the budget |
| Grouping.FileIff | src/data/historical.rs:322-400 | what a file is, both ways: it materialises to a tape exactly when its runs are the steps 0, 1, 2, ... in strictly increasing time, every snapshot is its run cell by cell, and the tape is within the budget |
| Convert.RawQuotesToSnapshot | src/data/convert.rs:277-359 | the map-inserting loop computes `Snapshot`, its first error being the error returned |
| Convert.ResolvesTo | src/data/convert.rs:226-250 | an absolute expiry is kept; a relative one falls on the nearest nanosecond after the anchor, the even one in a tie, or is refused outside `i64` |
| Convert.MidIsMidpoint | src/data/convert.rs:305-312 | the midpoint is the one multiple of the tick not above, and less than a tick below, half the sum |
| Convert.ConvertsTo | src/data/convert.rs:287-355 | one quote, both ways: it is taken exactly when some entry fits it field by field, prices on the grid, not crossed, analytics finite, expiry in range, and becomes that entry |
| Convert.SnapshotIff | src/data/convert.rs:277-372 | all quotes, both ways: a snapshot is theirs exactly when its header is the given one and entries and quotes correspond, sorted, one contract each |
| Convert.MapCharacterised | src/data/convert.rs:285-349 | conversion succeeds exactly when each quote converts alone and no two resolve to one key, and then the map holds one entry per quote, strictly sorted by key |
| Convert.QuoteOrderIrrelevant | src/data/convert.rs:256-359 | if it succeeds on a quote list it succeeds on every permutation, with the same snapshot and one entry per quote |
| Convert.MidIsBestTick | src/data/convert.rs:305-312 | each mid is the largest multiple of the tick not above half the sum, and lies between bid and ask |
| Convert.FloorIsGreatest | src/data/convert.rs:202-204 | flooring gives the greatest multiple of the tick not above the value |
| Convert.ConvertedEntriesKeyed | src/data/convert.rs:322-349 | every entry keys itself, under the snapshot's ticker, with an absolute instant |
| Convert.ResolvedIffInstantsFit | src/data/convert.rs:226-250 | the keys are within the nanosecond range exactly when every absolute expiry given was: absolute ones pass through unchecked |
| Market.OrderKeyIsFieldOrder | src/domain/contract.rs:149-173 | the model's sort key orders all contracts exactly as the comparison chain: ticker, relative before absolute expiry and by value within a kind, strike, style |
| Market.OrderKeyInjective | src/domain/contract.rs:119-145 | contracts compare equal exactly when they are equal |
| ContractId.ParsePrintedU64 | src/domain/contract.rs:229-239 | a printed strike parses to itself |
| ContractId.ParsePrintedI64 | src/domain/contract.rs:229-239 | a printed instant, of either sign, parses to itself |
| ContractId.SplitJoin | src/domain/contract.rs:252-258 | splitting at colons undoes joining colon-free segments |
| ContractId.PrintThenParse | src/domain/contract.rs:229-290 | parsing inverts printing on every resolved key |
| ContractId.IdInjective | src/domain/contract.rs:217-239 | two resolved contracts never share an identifier |
| ContractId.DigitsDecimal | src/domain/contract.rs:229-239 | a printed numeral stands for its number, every digit times the power of ten of its place, without a needless zero in front |
| ContractId.IdSpelled | src/domain/contract.rs:229-239 | the identifier is `v1`, the ticker, the nanoseconds of the expiry and the cents of the strike as such numerals, and `C` for a call or `P` for a put, between colons |
| ContractId.ParsedIsResolved | src/domain/contract.rs:252-290 | whatever parses is a resolved key of a valid ticker |
| ContractId.PositionIdAccepted | src/bundle/reader.rs:1047-1067 | the position check accepts exactly the printer's image |
| ContractId.PositionIdGrammar | src/bundle/reader.rs:1047-1067 | which is exactly the strings of five segments: `v1`, a valid ticker, an `i64` and a `u64` numeral in range without plus sign, leading zero or negative zero, and `C` or `P` |
| ContractId.JoinSplit | src/domain/contract.rs:252-258 | joining the segments a string splits into gives the string back |
| ContractId.DigitsOfValue | src/domain/contract.rs:229-239 | printing the value of a numeral without leading zero gives the numeral back |
| ContractId.FillIdAccepted | src/bundle/reader.rs:1010-1041 | the fill check accepts exactly the identifier the row's own columns print, for a valid ticker and a call or put |
| ContractId.NonCanonicalRejected | src/bundle/reader.rs:1047-1067 | a leading zero or a plus sign on the strike parses to the same key and is refused |
| ContractId.NegativeZeroRejected | src/bundle/reader.rs:1047-1067 | a negative zero instant parses and is refused |
| TapeHash.ConvertedIsHashable | src/data/simulator.rs:985-992 | converted snapshots can be hashed exactly when their absolute expiries lie within `i64` nanoseconds |
| TapeHash.LeInjective | src/data/simulator.rs:996-1001 | little-endian bytes of one width determine the integer |
| TapeHash.GetEntry | src/data/simulator.rs:1005-1017 | one quote record is self-delimiting: equal bytes give equal quotes and equal remainders |
| TapeHash.GetSnapshot | src/data/simulator.rs:995-1018 | one snapshot record is self-delimiting |
| TapeHash.PreimageInjective | src/data/simulator.rs:965-1028 | equal preimages come from equal tapes, field for field, although the snapshot count is not written |
| TapeHash.FoldQuotes | src/data/simulator.rs:1005-1017 | folding the quotes appends exactly their records, or fails on the first key without an identifier |
| TapeHash.TapeBytes | src/data/simulator.rs:992-1028 | the hashed bytes are the preimage, or a conversion error when some key has no identifier |
| TapeHash.LeReads | src/data/simulator.rs:996-1011 | the bytes of an integer spell it, the lowest byte first |
| TapeHash.TapeWritten | src/data/simulator.rs:963-1019 | the preimage field by field: the tag and a zero byte, then per snapshot time, step, ticker, price, tick, multiplier, the count of quotes, and per quote identifier, prices, sizes, volatility and Greeks, numbers little-endian and texts behind their length |
| CsvDirectory.AddToBuilder | src/data/historical.rs:643-724 | one file: ceilings, digest record, parse, anchor, convert, push |
| CsvDirectory.Open | src/data/historical.rs:593-737 | collecting, sorting by name and replaying computes `Replay` of the sorted entries, or fails on an entry that is no regular file or a listing over `max_steps` |
| CsvDirectory.ReplayIff | src/data/historical.rs:636-737 | what a directory is, both ways: it opens exactly when its files in name order are steps 0, 1, 2, ... in strictly increasing time within the ceilings, every snapshot is its parsed file entry by entry, and the hashed bytes are name, zero byte and digest of each |
| CsvDirectory.SortedByName | src/data/historical.rs:593-634 | what is replayed is the one arrangement of the entries in ascending order of their names |
| CsvDirectory.EnumerationIrrelevant | src/data/historical.rs:610-634 | every enumeration order of a directory opens to the same tape and the same hashed bytes, or fails in every order |
| CsvDirectory.HashedBytes | src/data/historical.rs:691-699 | the bytes hashed are the records of the files in name order |
| CsvDirectory.DirPreimageInjective | src/data/historical.rs:691-729 | for names without zero bytes, equal preimages come from the same ordered list of names and content digests |
| Columns.CellRoundTrip | src/bundle/writer.rs:942-966 | a value survives narrowing and widening exactly when it fits its signed wire type, and then unchanged |
| Columns.WidenCrosses | src/bundle/reader.rs:1122-1231 | a cell the reader accepts is a value the writer would write as that cell |
| Columns.RowRoundTrip | src/bundle/reader.rs:666-804 | a row survives the wire exactly when each of its fields does, and then unchanged |
| Columns.TransposeTwice | src/bundle/writer.rs:578-646 | rows pushed onto columns and read back by column name are the same rows |
| Columns.OwnFieldsMatch | src/bundle/reader.rs:633-664 | the fields the writer declares pass the reader's check of names, types and nullability |
| Reader.FillsWire | src/bundle/writer.rs:546-565 | the declared schema of the fills table: names, physical types, none nullable |
| Reader.EquityWire | src/bundle/writer.rs:654-661 | that of the equity curve |
| Reader.PositionsWire | src/bundle/writer.rs:704-718 | that of the positions, the exit reason alone nullable |
| Reader.GreeksWire | src/bundle/writer.rs:791-800 | that of the attribution |
| Columns.EncodeChunk | src/bundle/writer.rs:578-646 | the column-pushing loop writes the transposed narrowed rows of a chunk, or the first narrowing error |
| Columns.EncodeTable | src/bundle/writer.rs:545-649 | chunks of 8192 rows concatenate to the narrowed rows in order, or nothing is written |
| Reader.DecodeBatch | src/bundle/reader.rs:666-712 | one batch appends its widened rows or fails |
| Reader.DecodeTable | src/bundle/reader.rs:479-629 | with the schema check and the incremental row and byte ceilings, the table decodes exactly when `DecodesTo` holds of some rows, a condition on the declared fields, the concatenated rows and the totals, not on the batches |
| Reader.ValidateUniqueKeys | src/bundle/reader.rs:830-862 | on a sorted table the adjacent scan accepts exactly distinct keys |
| Reader.ValidateContiguousSteps | src/bundle/reader.rs:869-884 | accepts exactly steps 0, 1, 2, ... in place |
| Reader.ValidateCrossTable | src/bundle/reader.rs:890-928 | looking at the last row only decides that every fill and position step is below the number of equity steps |
| Reader.ContiguousIffExact | src/bundle/reader.rs:864-884 | after sorting, contiguity holds exactly when the steps are `0 .. n - 1`, each once, in any order |
| Reader.ScansDecideStructure | src/bundle/reader.rs:281-304 | the scans on the sorted tables accept exactly when, said of the unsorted ones, keys are distinct, both per-step tables hold `0 .. n - 1` and every step is below `n` |
| Reader.CheckRows | src/bundle/reader.rs:246-279 | counts, referenced input, identifiers and run id, as one condition on the rows |
| Reader.RunScans | src/bundle/reader.rs:291-304 | the four scans in sequence |
| Reader.ReadBundle | src/bundle/reader.rs:206-313 | a bundle is read exactly when it is accepted, and then as its sorted tables |
| Reader.DecodedOnce | src/bundle/reader.rs:479-629 | a bundle decodes to at most one set of tables |
| Bundle.DecodeForgetsOrder | src/bundle/reader.rs:479-629 | a table with the same rows in another order and other batches decodes to a permutation of them |
| Bundle.ReaderForgetsLayout | src/bundle/reader.rs:281-304 | for every row order and row-group split within the ceilings the reader accepts the same bundles and returns the same result |
| Bundle.FillRowTyped | src/bundle/writer.rs:862-884 | a built fill row has the types of its schema |
| Bundle.PositionRowTyped | src/bundle/writer.rs:895-912 | a built position row has the types of its schema |
| Bundle.BuildFillRows | src/bundle/writer.rs:567-574 | every fill in collector order, or an error when one contract has no identifier |
| Bundle.BuildPositionRows | src/bundle/writer.rs:720-728 | every position in collector order, or an error |
| Bundle.EncodeSorted | src/bundle/writer.rs:653-698 | a table is written exactly when every field fits its wire type, and then holds the sorted rows |
| Bundle.WriteTables | src/bundle/writer.rs:425-436 | the run is written exactly when its contracts resolve and every value fits |
| Bundle.NarrowThenWiden | src/bundle/reader.rs:666-804 | narrowed rows decode exactly when each crosses, and then to themselves |
| Bundle.TableRoundTrip | src/bundle/writer.rs:545-649 | reading a written table back gives exactly its rows in sort-key order |
| Bundle.BuiltRowsPass | src/bundle/reader.rs:246-279 | what the writer builds passes every per-row check of the reader |
| Bundle.WriteThenRead | src/bundle/writer.rs:425-436 | reading what was written succeeds exactly for well-formed runs and returns exactly the wire rows in sort-key order |
| Bundle.FillReported | src/bundle/writer.rs:862-886 | the row of a fill says under each of the 18 column names what the fill holds |
| Bundle.PositionReported | src/bundle/writer.rs:895-911 | and the row of a position under each of its 13, the exit reason null or its word |
| Bundle.EquityReported | src/bundle/writer.rs:653-700 | and that of an equity point |
| Bundle.GreeksReported | src/bundle/writer.rs:790-845 | and that of an attribution row |
| Bundle.ReadBack | src/bundle/reader.rs:206-318 | what comes back from a run written and accepted: for every record one row saying by column name what it holds, no other rows, ordered by (step, order_id, fill_seq), (step, position_id) and step |
| Bundle.WritableIff | src/bundle/writer.rs:942-966 | a run can be written exactly when its contracts have absolute expiries within `i64`, its unsigned fields fit the signed columns and its drawdowns are finite |
| Bundle.StructuredIff | src/bundle/reader.rs:830-930 | the structure the reader scans for, in the run's own fields: no fill or position twice, both per-step tables covering the steps from 0 on once each |
| Bundle.ReadableIff | src/bundle/reader.rs:206-318 | a written run is accepted exactly when besides its fees are not negative and its texts are not too long |
| Bundle.NegativeFeesAreLost | src/bundle/reader.rs:1157-1166 | a one-step run is always writable, and readable exactly when its fees are not negative |
| Batch.MaterialiseSharedTapes | src/batch.rs:322-337 | every Parquet path of the batch is opened once, with the pin and limits of its first run, and nothing else is cached |
| Batch.CachedOpenIsFresh | src/batch.rs:481-519 | when runs over a path share pin and limits, a cached open gives the tape a fresh verified one gives, and where that fails it fails with the text of the first failure wrapped once more |
| Batch.PinAlwaysHonoured | src/batch.rs:497-517 | whatever the cache holds, a pinned run is never served a tape of another identity |
| Batch.CacheAgreement | src/batch.rs:497-517 | for arbitrary runs, cached and fresh give the same tape or both fail exactly when this run's pin fails, or the first run's pin holds and the file parses alike under both limits, or the first run's pin fails and the file does not parse for this one |
| Batch.MixedPinsDiverge | src/batch.rs:505-514 | after a wrongly pinned first run, a rightly pinned second run fails from the cache |
| Batch.WorkerCount | src/batch.rs:349-354 | at least one and at most one per run, and as many as the parallelism allows |
| Batch.ChunksPartition | src/batch.rs:377-392 | the chunks concatenate to the runs, none lost or shared |
| Batch.ChunksFitWorkers | src/batch.rs:377-384 | never more chunks than workers |
| Batch.ChunkSizeLeast | src/batch.rs:377-384 | the runs fit into as many chunks as workers, and would not if chunks were one run shorter |
| Batch.ConcatAt | src/batch.rs:384-392 | every run is at one position of one chunk |
| Batch.ChunkAt | src/batch.rs:377-384 | run `m` is in chunk `m / size`, at position `m % size` |
| Batch.ChunkIndex | src/batch.rs:377-384 | and every position of a chunk holds the run with that quotient and remainder |
| Pool.StepTouches | src/batch.rs:383-392 | a worker's step changes no directory but that of its own run id, and not that if the bundle is there and may not be replaced |
| Pool.CurrentStep | src/batch.rs:385-390 | a run in progress on a directory nobody else changes takes each step, and ends, as it would alone |
| Pool.OwnStep | src/batch.rs:383-392 | a step keeps the stepping worker on course: results as alone, the run in progress in step with itself alone, later directories untouched |
| Pool.OthersStep | src/batch.rs:383-392 | and every other worker, when their runs are apart |
| Pool.BatchStaysOnCourse | src/batch.rs:382-399 | and so does the whole batch, under every schedule and until all workers have ended |
| Pool.AloneIsMap | src/batch.rs:394-411 | workers that ended with the lone entry of each of their runs join and sort to the sequential map |
| Pool.RunPool | src/batch.rs:382-394 | the workers, stepping in the order of the schedule until all have ended, reach `PoolAfter` |
| Pool.Join | src/batch.rs:394-399 | joining in spawn order concatenates the results, and notices every panic |
| Pool.FanOut | src/batch.rs:367-411 | computes `FanOutOf`, entries and output directory, with never more chunks than workers |
| Pool.ScheduleIrrelevant | src/batch.rs:356-411 | for runs pairwise apart, every number of workers, every schedule of filesystem calls and whatever the filesystem does to each run, the result is the sequential map over the runs in index order, and each run leaves its directory as it would alone |
| Race.CalmStep | src/batch.rs:383-392 | on a calm filesystem each step of a worker takes its run nearer to a bundle in place or ends it with one |
| Race.Reach | src/batch.rs:383-392 | one worker can be driven alone to any of its runs, leaving the bundles of the runs before in place |
| Race.Collide | src/bundle/writer.rs:339-348 | two runs of one id with two workers: a schedule in which the second clears the first one's temp directory as a leftover of a crash |
| Race.Loses | src/bundle/writer.rs:325-336 | where bundles may not be replaced, a run that finds one fails |
| Race.RaceBreaks | src/batch.rs:356-411 | with any number of workers, two runs that are not apart, unless one worker makes both and may overwrite, have a schedule under which the batch differs from the sequential map |
| Race.PanicSpreads | src/batch.rs:394-399 | a panic of any run is the error of the batch, under every schedule |
| Race.SteadyIsMap | src/batch.rs:356-411 | runs of one id that one worker makes in turn, and that may overwrite, give the sequential map under every schedule |
| Race.RaceIff | src/batch.rs:43-52 | on a calm filesystem and one given machine, a batch equals its sequential map under all schedules exactly when a run panics, or every two runs that reach publishing have different run ids, or one whose bundle is there and may not be replaced, or one that may be overwritten by one worker that makes both |
| Race.RaceIffAnywhere | src/batch.rs:43-52 | and on all machines exactly when a run panics or all runs are pairwise apart |
| Scenario.Expand | src/engine/scenario.rs:445-542 | refused exactly for misplaced shocks, replicated explicit seeds, too many runs or a shock that does not apply; otherwise `count` configs per override, run `i` with the seed of override `i / count` or, where that has none, the child seed of `i`, and nothing else of the base varied |
| Scenario.OwnerAt | src/engine/scenario.rs:504-512 | run `i` belongs to override `i / count` |
| Scenario.ExpansionSaid | src/engine/scenario.rs:504-523 | the expansion, field by field and both ways |
| Scenario.SpreadIsDistinct | src/engine/scenario.rs:425-427 | when no override fixes a seed and the child seeds are distinct, so are the seeds of the runs |
| Scenario.ExpandedIsUniform | src/batch.rs:315-321 | expanded runs over a path share source and limits, which is what the cache needs |
| Scenario.CachedIsRewrapped | src/batch.rs:484-519 | through the cache every run of a uniform batch is prepared as with a fresh open, but for the wrapped text of a failed one |
| Scenario.ReadyIff | src/batch.rs:444-456 | a run over a file gets as far as publishing exactly when its config is valid, the file is there, parses and has the pinned digest, and the replay produces a bundle; its run id is that of its config and the digest of the file |
| Scenario.LoneWritten | src/batch.rs:412-473 | alone, its entry says that it was written, under its run id, exactly when its call publishes |
| Scenario.BatchIsFreshMap | src/batch.rs:228-281 | fanned out over the cache, under any schedule, a uniform batch of runs apart is the sequential map over runs that each open their own file, but for the wrapped text of failed opens |
| Scenario.RunScenarioBatch | src/batch.rs:228-281 | from the parameters to the entries: refused expansions run nothing; an expansion whose runs are apart, or whose seeds are distinct, yields that map, and so does, by the parameters alone, one in which no override fixes a seed and the child seeds are distinct |
| Scenario.SeedsSuffice | src/engine/scenario.rs:425-427 | expanded configs with distinct seeds are pairwise apart, whatever the source, the output directory and the outcome of the runs |
| Scenario.SeedsDecide | src/engine/scenario.rs:425-427 | for a batch over one file whose runs all get to publish, the runs are apart exactly when their seeds are distinct, and harmless on one machine exactly when runs of one seed may overwrite and share a worker |
| Scenario.SameSeedsExpand | src/engine/scenario.rs:475-483 | two overrides with one explicit seed are accepted and give one config twice |
| Scenario.SameSeedsRace | src/batch.rs:48-52 | and some schedule makes that batch differ from the sequential map |
| Rounding.RoundsToNearest | src/analytics/attribution.rs:335-340 | half-to-even rounding is the unique integer within a half, even at a tie |
| Rounding.RoundOddSymmetry | src/analytics/attribution.rs:335-340 | rounding commutes with negation, ties included |
| Rounding.RoundExact | src/analytics/attribution.rs:335-340 | whole cents round to themselves |
| Attribution.AttributeStep | src/analytics/attribution.rs:161-306 | the row of a step, both ways: theta, delta and vega are the half-to-even roundings of the sums, over legs with prior Greeks, of side times quantity times multiplier times the Greek times the move, and the residual closes them; an error exactly when no row reports the step |
| Attribution.Attribute | src/analytics/attribution.rs:121-155 | succeeds exactly when every step finds its slice after the preceding leg counts and closes; each row then reports its step from exactly that slice |
| Attribution.StepReports | src/analytics/attribution.rs:161-306 | the same for the step as a function |
| Attribution.AttributedReports | src/analytics/attribution.rs:121-155 | and for the walk over the buffer |
| Attribution.RowCloses | src/analytics/attribution.rs:214-244 | theta, delta, vega, spread capture, less fees, plus residual is the step's P&L, to the cent |
| Attribution.RowsTelescope | src/analytics/attribution.rs:121-155 | the rows of any prefix add up to its total P&L |
| Attribution.SurplusLegsIgnored | src/analytics/attribution.rs:124-137 | legs beyond the last slice change nothing and are not reported |
| Attribution.LegOrderIrrelevant | src/analytics/attribution.rs:169-212 | reordering the legs of a step leaves the exact terms unchanged |
| Attribution.SplitLegIrrelevant | src/analytics/attribution.rs:288-297 | splitting one leg's quantity in two leaves its contribution unchanged |
| Attribution.SplitInStep | src/analytics/attribution.rs:169-212 | and so splitting any one leg leaves the terms of the step unchanged |
| Attribution.FlipAllNegates | src/analytics/attribution.rs:288-306 | flipping every side negates the exact terms |
| Attribution.FlippedRowNegates | src/analytics/attribution.rs:161-244 | and the rounded ones |
| Attribution.ResidualWithinRounding | src/analytics/attribution.rs:214-232 | the three roundings move the residual by at most 1.5 cents |
| Attribution.WholeCentsExact | src/analytics/attribution.rs:214-232 | when the exact terms are whole cents the residual is the exact remainder |
| Metrics.MaxDrawdownUnique | src/analytics/metrics.rs:858-865 | the drawdown definition determines one number |
| Metrics.MaxDrawdownCents | src/analytics/metrics.rs:865-883 | one pass gives the maximum over every pair of an earlier peak, initial capital included, and a later-or-equal point, floored at zero, or an error exactly when such a fall leaves `i64` |
| Metrics.MaxConsecutiveLosses | src/analytics/metrics.rs:629-643 | the counter is the length of the longest all-negative window |
| Metrics.UnderwaterNs | src/analytics/metrics.rs:724-732 | the saturating loop computes `SaturatedBelow` |
| Metrics.SaturationIsHarmless | src/analytics/metrics.rs:724-732 | on increasing timestamps the saturating loop ends at the exact underwater time, saturated once |
| Metrics.TimePartition | src/analytics/metrics.rs:724-738 | underwater and surfaced time add up to the span, so the underwater share lies between nought and one |
| Metrics.RealisedStats.AddOutcome | src/analytics/metrics.rs:355-371 | a trade counts, and adds its P&L, as a win, a loss or neither |
| Metrics.RealisedStats.AddSide | src/analytics/metrics.rs:376-397 | a trade counts, and adds its P&L and premium, to its side; an error exactly when one of those sums overflows |
| Metrics.RealisedStats.Add | src/analytics/metrics.rs:344-402 | one trade more: every field stays the count or sum it is named after, or an error exactly when an aggregate overflows |
| Metrics.FromLog | src/analytics/metrics.rs:328-406 | an error exactly when some prefix of the log overflows an aggregate; otherwise every field describes the whole log |
| Metrics.CountsPartition | src/analytics/metrics.rs:344-402 | winners, losers and break-even partition the log, and so do sides and styles |
| Metrics.PnlConserved | src/analytics/metrics.rs:344-402 | total P&L is short plus long, and gross profit plus gross loss, the loss being never positive |
| Metrics.NetAdd | src/analytics/metrics.rs:581-604 | received for shorts, paid for longs, an error exactly when product or sum leaves `i128` |
| Metrics.NetPremiumCents | src/analytics/metrics.rs:543-573 | succeeds exactly when no product, running sum or total leaves its type, with the signed sum over closed and open legs |
| Metrics.PremiumsAgree | src/analytics/metrics.rs:543-573 | with no open legs net premium is premium received less premium paid of the realised statistics |
| Metrics.NetPremiumOfRealised | src/analytics/metrics.rs:543-573 | for a log whose statistics fit, net premium exists exactly when that one difference fits `i64` |
| Metrics.PremiumsWritten | src/analytics/metrics.rs:543-604 | the premium totals and the net premium in the trades' own fields: entry premium times quantity times multiplier, received for shorts, paid for longs, open legs weighted by the multiplier of the first closed trade |
| Framing.ReadU32Le | fuzz/src/lib.rs:68-74 | the four-byte buffer holds the little-endian length, zero past the end |
| Framing.SplitBundleSections | fuzz/src/lib.rs:54-65 | total: five slices of the input, whatever it holds |
| Framing.SectionsInRange | fuzz/src/lib.rs:44-52 | every section lies within the input and all sections together are no longer than it |
| Framing.SectionsDisjoint | fuzz/src/lib.rs:54-65 | the sections are disjoint and in input order |
| Framing.FramingRoundTrip | fuzz/src/lib.rs:49-52 | decoding the frames of any five sections shorter than 2^32 gives the sections back |
| Sorting.SortForgetsOrder | src/bundle/reader.rs:282-290 | with distinct keys a sorted table does not depend on the order it came in |
| Sorting.DistinctIffStrict | src/bundle/reader.rs:822-846 | keys are distinct exactly when the sorted table is strictly increasing |

## Left out

- The replay loop, the ledger, the fill models and the canonical form of a strategy.
- Parquet and Arrow byte layout, compression, writer properties, panic containment around the decoder, and CSV tokenising: a file is a sequence of column batches, a CSV file an opaque parse.
- SHA-256 is an opaque function; what is proved is about its preimages. JSON, RFC 3339 parsing, HTTP and the asynchronous runtime are outcomes handed in as parameters.
- `rust_decimal` arithmetic: attribution works in exact reals, so its 28-digit limit and the overflow errors of intermediate decimal products are not modelled; a relative expiry is likewise resolved with one rounding of the exact product; a decimal in a tape is its four 32-bit words.
- Float statistics: Sharpe, Sortino, Ulcer and Pain indices, drawdown ratios and the dated drawdown event; a return or drawdown is a real, without NaN.
- The struct sizes in the byte estimate are parameters of `Limits`; the compiler's values are not fixed.
- The text of error messages: an error is its kind. The batch renders it through an unknown function, of which only the prefix of malformed-data errors is fixed.
- Which of several failing checks of a bundle is reported first: `Reader.ReadBundle` says when reading fails, not with which message.
- Manifest parsing and its field checks: a manifest is its run id and row counts; the check of the referenced input file is one boolean.
- Creating the output directory and asking whether a name exists are steps that may fail but change nothing; the publish lemmas have one writer at a time for a run id, the batch lemmas the workers of one batch; there are no other processes in the directory, no file permissions and no loss of completed writes after a power failure.
- A filesystem call is one atomic step, also between workers, but for what its fault script says it leaves half-done.
- Error returns of `build_into` that come from narrowing rather than from the filesystem are the same fault to the publish protocol.
- The server's 410 answer after the end of a session: the client never advances past the end, so no modelled request can meet it.
- Requests still in flight after the last attempt of a session, which can only reach a session already drained.
- The footer ceilings of the Parquet feed and the provenance seeds of the simulator feed.
- The hash of a contract key.
- `maxStringLen` is compared with the characters of a string, in the source with its UTF-8 bytes (src/bundle/reader.rs:1219-1229); the two differ for text that is not ASCII, such as a custom exit reason.
- Call sorts before put in a contract key: the order of the upstream style type is not part of the repository.
- Sorting is a function (stable insertion); the library's sort is not modelled beyond being stable.
- `snapshot_to_option_chain`, the `MarketSimulator` wrapper, capital utilisation, premium ratios, batch identifiers and the batch index file are settled by reading one body each.
- Session.Link.Attempt: a stale request arrives before the attempt's own request; one arriving after it has the effect of arriving before the next attempt.
- Pool.FanOut: memory shared between threads is not modelled, workers own their chunks and local results; opening, replaying and deriving the run id are one step, since they touch nothing shared that changes. A crash in a fault script ends one run, where in truth it ends the batch.
- Scenario.RunScenarioBatch: engine seed, data seed and the figures of a successful entry are left out of it; walk shocks either apply or not, and what a simulator session yields is a parameter.
- Attribution.AttributeStep: decimal overflow and the 28-digit limit are not modelled, as said above; the integer checks are.
- Attribution.Attribute: as above.
- CsvDirectory.Open: names are byte strings, and the length recorded for a file is the length of what is read from it.
