# Parquex in Dafny

Parquex writes and reads Parquet files and time-partitioned datasets. This project models
its logic in Dafny and proves what that logic guarantees:

- **Time partitions** (`Calendar.dfy`, `TimePartition.dfy`): proleptic Gregorian dates and
  ISO week-years, truncation of instants to minute, hour, day, week or month, the printed
  paths and their strict parser, and the planner.
- **Dataset writer** (`DatasetWriter.dfy`, `WriterRuns.dfy`, `DatasetRun.dfy`, `WriterLru.dfy`,
  `WriterRefusals.dfy`, `LocalReports.dfy`, `DatasetServer.dfy`, `WriterExamples.dfy`): the state machine
  that routes disordered rows into a bounded number of open parts, evicts the least recent one, rotates,
  buffers and publishes, and what its refusals report.
- **Dataset stream** (`DatasetStream.dfy`, `StreamHandle.dfy`): the lazy walk over planned
  partitions, files and batches with an exact filter.
- **Listing and reading back** (`Listing.dfy`, `ReadBack.dfy`, `LocalRead.dfy`,
  `RemoteListing.dfy`, `EndToEnd.dfy`, `OctoberExample.dfy`): what a drain returns, up to the
  end-to-end theorem that what was written is what is read, in general, over a local store and
  over a remote one.
- **Reader** (`ReaderQuery.dfy`, `Prefetch.dfy`, `ObjectReads.dfy`, `FileReading.dfy`): row-group
  pruning, the extra predicate column, masking and re-indexing, the prefetch queue, bounded range
  reads, and the stream's reading of parts through all this.
- **Nested columns and types** (`SchemaTypes.dfy`, `NestedColumns.dfy`, `NestedBuilders.dfy`):
  type descriptors across the native boundary, the recursive builders and the recursive reader.
- **Staged writes** (`StagedWrite.dfy`, `LocalWriter.dfy`, `RemoteWriter.dfy`): the protocol by
  which many writers share a directory tree, over every interleaving and with every fault, and
  the multipart writer of a remote store.
- **Rows** (`InputRows.dfy`, `RowsThroughFiles.dfy`): schema inference, the conversion between rows and
  batches, and rows all the way through files.

`Text.dfy`, `ByteStrings.dfy`, `Sequences.dfy`, `Bags.dfy`, `Rows.dfy`, `Datasets.dfy` and
`Cancellation.dfy` hold what these share. Code that updates objects in place is modelled by
classes and methods proved against functions; code made of expressions is modelled by functions.
`dafny verify dfyconfig.toml` checks everything.

The range of representable dates is a parameter (`Window`), so every statement about time covers
the failures at its ends. Input and output faults are parameters too: an oracle over operation
numbers for the dataset writer and the stream, another one for closes that fail although the
object is visible, and arguments of each call for staged writes. So are the widening of integers
to floats, the instants that a date-time can hold, and the rows whose values a dataset writer can
encode.

Where the code does not give the obvious claim, or its comments and documentation say more than
it does, the model follows the code and a theorem says exactly when the claim holds:

- Listing a directory that does not exist falls back to a string filter over its parent, so a
  dataset read can return rows twice (`LocalRead.LocalDrainExact`, `OctoberExample.RowTwice`).
  A remote store does not do this (`RemoteListing.WriteThenReadRemotely`).
- A plan builds one partition more than it returns, and fails with it (`TimePartition.PlanRefused`,
  `TimePartition.LastDayRefused`).
- The `published` detail of a refused write is that of the state before the call, and misses what
  the call has published (`DatasetServer.Server.Write`, `WriterExamples.IncompleteWrite`).
- The `published` detail of a refused close misses a part whose close failed after its upload was
  completed (`DatasetServer.Server.Close`, `WriterExamples.IncompleteClose`).
- A batch that fails to decode overtakes the batches queued before it (`Prefetch.DeliverExact`,
  `Prefetch.LostBatch`).
- A failed local write leaves the writer active, and what it left can be published
  (`StagedWrite.LastPublisherWins`, `StagedWrite.TornWriteIsPublished`).
- A remote publish can report an error although the object is visible (`RemoteWriters.PublishTells`,
  `RemoteWriters.FailedPublishVisible`).
- A stream's finalizer closes the reader of the last pull that returned, not one that a failing
  pull has opened (`StreamHandles.StreamHandle.Enumerate`, `StreamHandles.ReaderLeftOpen`).
- Inference accepts integers of any size, and the writer refuses those beyond 64 bits
  (`InputRows.InferredSchemaFits`, `InputRows.WideIntegerRefused`). An integer too large for a float
  passes inference beside floats and is refused later (`InputRows.HugeIntegerRefused`).

## Model

| member | source | states |
|---|---|---|
| `Calendar.DayNumberCounts` | native/parquex_nif/src/time_partition.rs:136-161 | the day numbers behind dates count consecutive calendar days: the day after a valid date, across month ends, leap Februaries and year ends, has the next number |
| `Calendar.DateOfDayNumber` | native/parquex_nif/src/time_partition.rs:67-78 | dates and day numbers are inverse: every valid year, month and day comes back from its day number, for years before and after 1970 |
| `Calendar.MonthContains` | native/parquex_nif/src/time_partition.rs:141-142 | a day lies between the first of its month and the first of the next one |
| `Calendar.MonthAdvances` | native/parquex_nif/src/time_partition.rs:159 | adding one month to the first of a month gives the first of the next month |
| `Calendar.WeekOfDay` | native/parquex_nif/src/time_partition.rs:184-187 | every day has an ISO 8601 week-year and a week from 1 to 52 or 53, and lies in the seven days from the Monday of that week |
| `Calendar.WeekOfMonday` | native/parquex_nif/src/time_partition.rs:65 | the Monday of a valid ISO week is in that week: week-year and week number come back from the date |
| `Calendar.LongYears` | native/parquex_nif/src/time_partition.rs:62-66 | a week-year has 53 weeks exactly if it starts on a Thursday, or is a leap year that starts on a Wednesday (ISO 8601:2004, section 4.1.4) |
| `TimePartition.BuildIsBucket` | native/parquex_nif/src/time_partition.rs:132-197 | building the partition of an instant gives the canonical partition of the interval that contains it, and fails exactly if the interval or its end leaves the representable dates |
| `TimePartition.BucketRange` | native/parquex_nif/src/time_partition.rs:132-161 | the interval of an instant contains it: its start is at most the instant and the next start is after it |
| `TimePartition.BucketStartMonotone` | native/parquex_nif/src/time_partition.rs:132-161 | later intervals start later |
| `TimePartition.BucketMonotone` | native/parquex_nif/src/time_partition.rs:132-161 | a later instant is in the same interval or a later one |
| `TimePartition.TruncationLaws` | native/parquex_nif/src/time_partition.rs:132-197 | start <= instant < end; the partition of a start is the partition itself; the partition of an end starts there; starts are monotone in the instant |
| `TimePartition.UnitsAgree` | native/parquex_nif/src/time_partition.rs:199-219 | timestamps in different units that denote the same instant have the same partition, also before 1970 |
| `TimePartition.FieldsInvert` | native/parquex_nif/src/time_partition.rs:61-91 | the numbers printed in a partition path, read as year, month, day, hour and minute or as week-year and week, give back the start of the partition |
| `TimePartition.PathSplits` | native/parquex_nif/src/time_partition.rs:36-59 | a printed path splits at the slashes into the segments it was joined from |
| `TimePartition.PathInjective` | native/parquex_nif/src/time_partition.rs:162-189 | equal paths mean equal partitions |
| `TimePartition.PathsPrefixFree` | native/parquex_nif/src/time_partition.rs:162-189 | for one granularity, one path followed by a slash is a prefix of another followed by a slash only if the two partitions are the same |
| `TimePartition.ParseFields` | native/parquex_nif/src/time_partition.rs:47-59 | the segment loop accepts exactly the segments that are printed names with canonically printed 64-bit integers, and returns those integers |
| `TimePartition.CanonicalParses` | native/parquex_nif/src/time_partition.rs:61-97 | the numbers of a canonical path pass every later check of the parser and rebuild the partition |
| `TimePartition.Parse` | native/parquex_nif/src/time_partition.rs:34-98 | parsing succeeds exactly on the path of a representable partition and returns that partition: an accepted path is canonical, and every printed path is accepted |
| `Text.CanonicalInteger` | native/parquex_nif/src/time_partition.rs:247-250 | an integer text is accepted exactly if it is the printed form of a 64-bit integer, whose value is returned |
| `Text.ParseShow` | native/parquex_nif/src/time_partition.rs:247-250 | parsing the printed form of a 64-bit integer gives the integer |
| `TimePartition.Plan` | native/parquex_nif/src/time_partition.rs:100-130 | the planning call computes the specified result: limit, instants, order of the range, and the walk over partitions |
| `TimePartition.WalkPartitions` | native/parquex_nif/src/time_partition.rs:119-129 | the planning loop computes the consecutive partitions from the first one on, stops at the end of the range, and is refused by the limit or by the end of the representable dates |
| `TimePartition.OverlapRange` | native/parquex_nif/src/time_partition.rs:119-129 | a partition overlaps [from, until) exactly if it lies between the partition of from and that of the last instant |
| `TimePartition.PlanTiles` | native/parquex_nif/src/time_partition.rs:100-130 | a plan is chronological without gaps or overlaps: it begins with the partition of from, each partition ends where the next starts, and the last one reaches until |
| `TimePartition.PlanEntry` | native/parquex_nif/src/time_partition.rs:121-128 | entry i of a plan is the i-th partition from the one that contains from, and overlaps the range |
| `TimePartition.PlanLocates` | native/parquex_nif/src/time_partition.rs:100-130 | every instant of the range lies in exactly one entry of the plan |
| `TimePartition.PlanRefused` | native/parquex_nif/src/time_partition.rs:107-129 | a plan is refused exactly if more partitions overlap the range than the limit allows, or the first of them begins outside the representable dates, or the partition after the last of them, which is built too, ends outside them |
| `TimePartition.LastDayRefused` | native/parquex_nif/src/time_partition.rs:107-129 | one day that is within the representable dates and the limit is refused, because the day after it ends outside |
| `DatasetWriter.FlushFacts` | lib/parquex/dataset/writer.ex:226-240 | a flush moves the buffered rows, in order, to the end of the open file in batches within the bound and changes nothing else; on failure the buffer stays |
| `DatasetWriter.PublishFacts` | lib/parquex/dataset/writer.ex:242-268 | publishing adds exactly one object with the rows of the part, removes the part from the open ones and puts its description in front of the reports; a failed publish reports nothing and has stored nothing, unless it failed in closing after the upload was completed, and then it has stored the whole part |
| `DatasetWriter.OpenFacts` | lib/parquex/dataset/writer.ex:174-203 | opening adds an empty part under a fresh writer with the newest access stamp |
| `DatasetWriter.AppendFacts` | lib/parquex/dataset/writer.ex:205-224 | appending counts the row, extends the extremes, stamps the part as newest and flushes a full buffer; the other parts are untouched |
| `DatasetWriter.RouteFacts` | lib/parquex/dataset/writer.ex:127-138 | routing one row keeps the state sound: stamps distinct and at most the counter, writers distinct and open |
| `DatasetWriter.PathsByAgeFacts` | lib/parquex/dataset/writer.ex:271-274 | closing visits every open part once, in the order of the access stamps |
| `DatasetWriter.PartNameInjective` | lib/parquex/dataset/writer.ex:333-338 | different part numbers give different part names |
| `WriterRuns.PublishKeeps` | lib/parquex/dataset/writer.ex:242-268 | publishing keeps the run invariant (bounds, extremes, placement of every part, store contents) and the rows of every partition |
| `WriterRuns.OpenKeeps` | lib/parquex/dataset/writer.ex:174-203 | opening a part keeps the run invariant within the bound on open parts and adds no row |
| `WriterRuns.AppendKeeps` | lib/parquex/dataset/writer.ex:205-224 | appending keeps the run invariant and adds the row at the end of its partition only |
| `WriterRuns.RoomKeeps` | lib/parquex/dataset/writer.ex:142-172 | rotating a full part, or evicting the least recent one when all are taken, leaves room for one more and loses no row |
| `WriterRuns.EnsureKeeps` | lib/parquex/dataset/writer.ex:142-164 | afterwards the partition has an open part with space for the row, and no partition has lost or gained rows |
| `WriterRuns.RouteKeeps` | lib/parquex/dataset/writer.ex:127-138 | routing a row keeps the run invariant, appends the row to its own partition and changes no other partition, through evictions, rotations and flushes |
| `DatasetRun.RouteRowsKeep` | lib/parquex/dataset/writer.ex:118-125 | routing rows appends them, in input order, to their partitions |
| `DatasetRun.PublishAllKeeps` | lib/parquex/dataset/writer.ex:270-282 | closing publishes every open part and keeps the rows of every partition |
| `DatasetRun.CloseReport` | lib/parquex/dataset/writer.ex:97-101 | after a close the report lists, partition by partition in report order, exactly the rows accepted in input order, and its row total is the number of accepted rows |
| `DatasetRun.SuccessfulRun` | lib/parquex/dataset/writer.ex:118-321 | conservation and order for every run whose close succeeds: rows of the reported parts equal the accepted rows per partition in order and overall as a bag; every part has between 1 and max_rows_per_file rows, an estimated size within the bound unless it has one row, extremes that are those of its rows and lie between the start and the end of its partition, and batches within batch_rows; never more than max_open_partitions parts are open |
| `WriterRuns.ExtremesInside` | lib/parquex/dataset/writer.ex:205-221 | the extremes of a published part, as date-times, lie between the start and the end of the partition that its path names |
| `DatasetRun.SameMultiset` | lib/parquex/dataset/writer.ex:313-321 | equal rows in every partition make equal bags of rows overall |
| `WriterLru.OldestIsTail` | lib/parquex/dataset/writer.ex:169-172 | the part with the smallest stamp is the tail of the recency list |
| `WriterLru.RouteUses` | lib/parquex/dataset/writer.ex:127-172 | the stamps refine a move-to-front list: routing a row moves its partition to the front and, when a part must go, drops the tail |
| `DatasetServer.Server.constructor` | lib/parquex/dataset/writer.ex:71-83 | the process starts with no open part and no report |
| `DatasetServer.Server.Write` | lib/parquex/dataset/writer.ex:86-95 | a write accepts all its rows or stops the process; the report that goes with a refusal is that of the state before the call, and is complete exactly if none of the rows accepted by the call had to displace an open part, and the refused row displaced none whose object became visible |
| `DatasetServer.Server.Close` | lib/parquex/dataset/writer.ex:97-102 | a close publishes the open parts, least recent first, up to the first publish that fails; if none fails it reports every part with the accepted rows in order; if one fails, the report in the error lists the parts published before it, and is complete exactly if the failing publish has made nothing visible |
| `DatasetServer.Server.Cancel` | lib/parquex/dataset/writer.ex:104-116 | cancelling, or the owner going away, discards every open part and publishes nothing |
| `WriterRefusals.RefusedReport` | lib/parquex/dataset/writer.ex:242-266 | when publishing itself fails, the published detail names exactly the objects of the run that are in the store if and only if the failing close has not made its object visible; a failed flush carries no detail and stores nothing |
| `WriterRefusals.FirstRefusedFails` | lib/parquex/dataset/writer.ex:270-282 | closing fails exactly at the first publish that fails, with its error and the state before it |
| `WriterRefusals.AnsweredReport` | lib/parquex/dataset/writer.ex:242-266 | over a store whose failing closes leave nothing visible, the published detail of a failed publish is always complete |
| `LocalReports.LocalStoreAnswers` | native/parquex_nif/src/local.rs:232-290 | a staged publish that fails has not changed its object, so the local store is such a store |
| `LocalReports.LocalReport` | lib/parquex/dataset/writer.ex:242-266 | over the local store the published detail of a failed publish always names exactly the objects of the run that are in the store |
| `WriterRefusals.RouteShows` | lib/parquex/dataset/writer.ex:142-172 | routing one row adds an object to the store exactly if the row displaces an open part, a full one of its partition or the least recent one when every place is taken, and publishing that part makes it visible; nothing is ever removed |
| `WriterRefusals.TrailRuns` | lib/parquex/dataset/writer.ex:118-125 | the moments of a refused write are its run: every row before the last is accepted, and the last one is refused |
| `WriterRefusals.RefusedWrite` | lib/parquex/dataset/writer.ex:86-125 | a refused write has added no object if and only if no accepted row displaced an open part and the refused row displaced none that became visible |
| `WriterExamples.IncompleteClose` | native/parquex_nif/src/s3.rs:243-259 | a run of one row: its close fails after the upload was completed, the report in the error has no part, and the part is in the store |
| `WriterExamples.IncompleteWrite` | lib/parquex/dataset/writer.ex:86-95 | a write of two rows with one place: the second row publishes the part of the first, its own part cannot be opened, and the refused write reports no part |
| `Listing.VisitDirectory` | native/parquex_nif/src/local.rs:453-510 | the recursive visit pushes exactly the keys below the directory that begin with the filter |
| `Listing.ListBelow` | native/parquex_nif/src/local.rs:81-110 | listing a directory is the visit, then sorting by path |
| `Listing.KeysBelow` | native/parquex_nif/src/local.rs:453-510 | the keys of the whole tree under an existing directory are the keys visited from it |
| `Listing.ListsExisting` | native/parquex_nif/src/store.rs:287-299 | listing a prefix that exists returns exactly the key equal to it or the keys below it |
| `Listing.ListsMissing` | native/parquex_nif/src/store.rs:300-314 | listing a prefix that does not exist returns exactly the keys that continue it as a string within its parent directory, which can belong to another path segment |
| `Listing.ListsInOrder` | native/parquex_nif/src/local.rs:108-109 | a listing is in lexicographic order and names no key twice |
| `Listing.SortSorts` | native/parquex_nif/src/local.rs:108 | sorting keeps the keys and puts them in order |
| `DatasetStream.InternalNames` | lib/parquex/dataset/stream.ex:270-278 | the columns read are the schema columns that are the time column, an output column or the predicate column |
| `DatasetStream.CompareLaws` | lib/parquex/dataset/stream.ex:229-234 | of two values that are not null exactly one is smaller or both are equal, numbers compared across integers and floats, and the inclusive operators are the unions with equality |
| `DatasetStream.Next` | lib/parquex/dataset/stream.ex:117-187 | a pull terminates on the lexicographic measure of partitions, files and batches left, and never emits an empty batch |
| `DatasetStream.NextRows` | lib/parquex/dataset/stream.ex:117-187 | a pull emits the next rows of the plain scan of what is left, and ends exactly when nothing is left |
| `DatasetStream.DrainRows` | lib/parquex/dataset/stream.ex:117-216 | a drain without error returns exactly the rows of the plain scan, in its order |
| `DatasetStream.RestrictedSelect` | lib/parquex/dataset/stream.ex:195-207 | filtering and projecting rows of which only the internal columns were read equals filtering and projecting the full rows |
| `DatasetStream.NextCounts` | lib/parquex/dataset/stream.ex:117-193 | after every pull the counters are what was done: the partitions listed are the first of the plan, those with files and the files found are as these listings name them, skipped objects are the other keys they name, and batches and rows are those emitted |
| `DatasetStream.DrainCounts` | lib/parquex/dataset/stream.ex:117-193 | at the end of a drain every planned partition was listed and had files or was skipped, every file found was opened, every other object listed was counted, the batch and row counters are those of what was returned, and no reader is open |
| `DatasetStream.NextInner` | lib/parquex/dataset/stream.ex:117-160 | the states of a drain are those that the pulls pass through: each pull goes on from the next one |
| `DatasetStream.DrainPeak` | lib/parquex/dataset/stream.ex:117-193 | in every state of a drain at most one reader is open, and the peak that is counted is the largest number of readers open in any state |
| `DatasetStream.DrainServed` | lib/parquex/dataset/stream.ex:117-193 | a drain of a store that lists every planned partition and opens every part found meets no error |
| `StreamHandles.StreamHandle.constructor` | lib/parquex/dataset/stream.ex:47-62 | a new stream has all counters at zero, no open reader, and nothing listed |
| `StreamHandles.StreamHandle.Next` | lib/parquex/dataset/stream.ex:117-187 | the pull with its counters and control process updated in place does what the pure pull does |
| `StreamHandles.StreamHandle.NextBatch` | lib/parquex/dataset/stream.ex:117-145 | the clause for an open reader: end of file closes it, an empty filtered batch is skipped, another one is counted and emitted |
| `StreamHandles.StreamHandle.NextFile` | lib/parquex/dataset/stream.ex:147-159 | the clause for a file to open |
| `StreamHandles.StreamHandle.NextPartition` | lib/parquex/dataset/stream.ex:161-185 | the clause for a partition to list |
| `StreamHandles.StreamHandle.Finalize` | lib/parquex/dataset/stream.ex:189-193 | closes the reader of the last pull that returned, if it is still the open one |
| `StreamHandles.StreamHandle.Enumerate` | lib/parquex/dataset/stream.ex:64-69 | enumerating the stream yields the batches and the counters of the pure drain; afterwards one reader is open if the last pull has opened one that it did not close, and none otherwise |
| `StreamHandles.ReaderLeftOpen` | lib/parquex/dataset/stream.ex:147-159 | a stream over one file whose first read fails: the pull that opened the file raises, and its reader stays open |
| `ReadBack.BelowOnce` | native/parquex_nif/src/time_partition.rs:162-189 | no key lies under the directories of two partitions |
| `ReadBack.SelectedInRange` | lib/parquex/dataset/stream.ex:195-221 | a selected row of a partition lies in one of the planned partitions |
| `ReadBack.DrainedRows` | lib/parquex/dataset/stream.ex:117-216 | draining returns the selected rows of every part of the dataset exactly once, plus those of objects that a listing names from outside its partition |
| `ReadBack.ExactWhen` | lib/parquex/dataset/stream.ex:117-216 | the drained rows are the selected rows of the dataset, each once, if and only if no listing names an object with selected rows from outside its partition |
| `LocalRead.ListedLocally` | native/parquex_nif/src/store.rs:282-317 | what the listing of a planned partition names over a local store: the parts below its directory if that exists, otherwise every part whose key continues the directory as a string |
| `LocalRead.LocalReads` | native/parquex_nif/src/store.rs:282-317 | over a local store each listing names every part of its partition and no part twice |
| `LocalRead.LocalDrainExact` | lib/parquex/dataset/stream.ex:161-185 | a drain over a local store is exact if and only if no planned partition without a directory is continued, as a string, by the key of a part with a selected row |
| `LocalRead.OctoberTwice` | native/parquex_nif/src/store.rs:300-314 | the failing family: with no directory for January, reading from January to October returns, besides the selected rows of the dataset, each once, October's selected rows once more; so the drain is not exact as soon as October has a selected row |
| `OctoberExample.RowTwice` | native/parquex_nif/src/store.rs:300-314 | a tree with one part, year=1970/month=10/x.parquet, of one row: the drain from January to October meets no error and returns the row at least twice |
| `LocalRead.JanuaryBeforeOctober` | native/parquex_nif/src/time_partition.rs:188 | in every year the path of January continues to the path of October |
| `EndToEnd.StoreAfterRun` | lib/parquex/dataset/writer.ex:242-268 | after a run every object is still in the directory of its rows, and the dataset has exactly the reported parts more |
| `EndToEnd.WrittenRows` | lib/parquex/dataset/writer.ex:118-321 | the parts of a successful run hold exactly the accepted rows that any query selects |
| `EndToEnd.WriteThenRead` | lib/parquex/dataset/stream.ex:117-216 | end to end: after a run whose close succeeds, draining a stream over any planned range yields, as a bag, exactly the accepted rows in range that match the predicate, each once and projected, plus those already in the dataset; given segment-scoped listings |
| `EndToEnd.WriteThenReadServed` | lib/parquex/dataset/stream.ex:117-216 | the same with nothing assumed of the drain: over listings that are given and scoped, a stream without faults meets no error in the store that the run has left |
| `LocalRead.WriteThenReadLocally` | lib/parquex/dataset/stream.ex:161-185 | end to end over a local store: the same, without the hypothesis, if and only if no planned partition without a directory is continued by a part with a selected row |
| `LocalRead.LocalRoundTrip` | lib/parquex/dataset/stream.ex:161-185 | the same with nothing assumed of the drain: without faults, and with no file in the place of a directory, it meets no error |
| `RemoteListing.FullKeyIsJoined` | native/parquex_nif/src/s3.rs:484-490 | joining the base key to a key without outer slashes gives base, slash, key, once |
| `RemoteListing.RemoteListsBelow` | native/parquex_nif/src/s3.rs:108-126 | listing a directory of a remote store, base key joined and stripped, names exactly the objects below it, once |
| `RemoteListing.RemoteReads` | native/parquex_nif/src/s3.rs:176-199 | over a remote store every listing of a planned partition is scoped to it |
| `RemoteListing.WriteThenReadRemotely` | native/parquex_nif/src/s3.rs:108-126 | end to end over a remote store, with no hypothesis on listings: exactly the selected accepted rows, each once |
| `RemoteListing.RemoteRoundTrip` | native/parquex_nif/src/s3.rs:108-126 | the same with nothing assumed of the drain: without faults it meets no error, and returns exactly the selected accepted rows |
| `ReaderQuery.ProjectionInFileOrder` | native/parquex_nif/src/reader.rs:982-1001 | the projection is increasing and has exactly the requested columns, or all of them |
| `ReaderQuery.ReadIndices` | native/parquex_nif/src/reader.rs:495-520 | the columns read are the requested ones and the predicate's |
| `ReaderQuery.SetUpFinds` | native/parquex_nif/src/reader.rs:495-542 | within the columns read, the output indices find the requested columns in order and the predicate index finds the predicate's column |
| `ReaderQuery.SkippedKeepsNothing` | native/parquex_nif/src/reader.rs:701-782 | a row group skipped by sound statistics has no row that the predicate keeps |
| `ReaderQuery.PruningIsSafe` | native/parquex_nif/src/reader.rs:701-762 | filtering the selected row groups keeps the same rows, in order, as filtering all of them |
| `ReaderQuery.ApplyRead` | native/parquex_nif/src/reader.rs:784-815 | masking and re-indexing the columns read gives the requested cells of the kept rows |
| `ReaderQuery.QueryEqualsNaiveScan` | native/parquex_nif/src/reader.rs:442-542 | for sound statistics, any predicate, any unique column list and any batch size, pruning, the extra column, masking per batch and re-indexing give the same rows and columns as filtering every full row and projecting it in file order |
| `Prefetch.FillFacts` | native/parquex_nif/src/reader.rs:226-257 | refilling keeps the order, never exceeds the depth, and fails exactly if an undecodable batch comes before the queue is full |
| `Prefetch.DeliverExact` | native/parquex_nif/src/reader.rs:218-264 | what an enumeration delivers, for every depth: without an error every non-empty batch in order; with one, all but the last depth - 1 of the batches before it |
| `Prefetch.PrefetchInvisible` | native/parquex_nif/src/reader.rs:218-264 | the depth is invisible if and only if nothing fails, the depth is one, or no batch precedes the error |
| `Prefetch.LostBatch` | native/parquex_nif/src/reader.rs:218-264 | one batch and then an error: a depth of one delivers the batch, a depth of two only the error |
| `Prefetch.ReaderState.constructor` | native/parquex_nif/src/reader.rs:197-215 | a new reader has an empty queue and no buffered bytes |
| `Prefetch.ReaderState.Refill` | native/parquex_nif/src/reader.rs:226-257 | the loop fills the queue as specified and keeps the byte counter equal to the sum over the queue and the peaks as bounds |
| `Prefetch.ReaderState.NextBatch` | native/parquex_nif/src/reader.rs:218-264 | refills, then hands out the head; the byte counter stays the exact sum, so the saturating subtraction never saturates; a cancelled or closed reader is refused unchanged |
| `Prefetch.ReaderState.Close` | native/parquex_nif/src/reader.rs:266-277 | the first close cancels and drops everything buffered; later ones do nothing |
| `Prefetch.Enumerate` | native/parquex_nif/src/reader.rs:218-264 | pulling to the end or the first error delivers what is specified; without an error exactly the non-empty batches |
| `Prefetch.PrefetchedQueryIsNaiveScan` | native/parquex_nif/src/reader.rs:218-264 | a whole query through the queue, for every depth and batch size: no empty batch, and together exactly the naive scan |
| `FileReading.ReaderReads` | lib/parquex/dataset/stream.ex:147-160 | opening a part in the stream: the batches that the native reader delivers for the stream's columns are the part's rows restricted to these columns, in batches of the stream's size, for every division into row groups and every prefetch depth |
| `FileReading.WriteThenReadThroughReader` | lib/parquex/dataset/stream.ex:117-216 | end to end through the native reader: what was written is what a drain returns, when every part that the drain opens is read through projection, row groups, batching and the prefetch queue |
| `ObjectReads.WholeObjectIsRead` | lib/parquex/store.ex:561-570 | for every positive bound the chunks are non-empty, within the bound, and concatenate to the object's exact bytes |
| `ObjectReads.ChunksCover` | lib/parquex/store.ex:564-570 | at every step the chunks so far are the object up to the offset, and the rest gets shorter |
| `ObjectReads.ObjectCursor.constructor` | native/parquex_nif/src/reader.rs:90-100 | a cursor starts at its offset within the object |
| `ObjectReads.ObjectCursor.Read` | native/parquex_nif/src/reader.rs:132-152 | a read fills a prefix of the buffer with the next bytes, at most the bound, and nothing else; it returns zero only at the end or for an empty buffer |
| `ObjectReads.ObjectCursor.ReadToEnd` | native/parquex_nif/src/reader.rs:132-152 | repeated reads concatenate to the rest of the object |
| `Cancellation.CancellationToken.constructor` | native/parquex_nif/src/object.rs:45-49 | a new token is not cancelled |
| `Cancellation.CancellationToken.Cancel` | native/parquex_nif/src/object.rs:52-55 | cancelling sets the flag that every later check sees |
| `SchemaTypes.Kept` | native/parquex_nif/src/writer.rs:371-470 | Arrow keeps the descriptor of every encoded type unchanged or refuses it, at every level of nesting |
| `SchemaTypes.Decoded` | lib/parquex/schema.ex:284-348 | decoding a descriptor that fits the native integers gives the encoded type back if all its widths and lengths are known ones, and refuses it otherwise |
| `SchemaTypes.SupportedFits` | lib/parquex/schema.ex:120-162 | the numbers of a supported type fit the native structure |
| `SchemaTypes.IntegerKept` | native/parquex_nif/src/reader.rs:1011-1025 | the integer widths 8, 16, 32 and 64, signed or not, come back from Arrow, and no other width is accepted |
| `SchemaTypes.DecimalKept` | native/parquex_nif/src/reader.rs:1050-1056 | the decimal widths come back with their precision and scale, and no other width is accepted |
| `SchemaTypes.TimeKept` | native/parquex_nif/src/reader.rs:1037-1042 | a time of day is accepted exactly with the unit that its width allows |
| `SchemaTypes.DescriptorsSurvive` | lib/parquex/schema.ex:114-176 | encode, Rust to Arrow, Arrow to Rust, decode compose to the identity on every supported nested type and refuse every other one; no type is changed on the way |
| `NestedColumns.SupportedBuilds` | native/parquex_nif/src/writer.rs:371-470 | every supported type maps to an Arrow type with a builder at every level |
| `NestedColumns.AppendNullGains` | native/parquex_nif/src/writer.rs:842-927 | padding with a null keeps the layout at every level, adds one null entry and changes no earlier value |
| `NestedColumns.AppendValueGains` | native/parquex_nif/src/writer.rs:563-635 | a value is accepted exactly if it conforms to its type; it then adds one entry that reads back as the value and changes no earlier one |
| `NestedColumns.ListGains` | native/parquex_nif/src/writer.rs:754-780 | a list entry is the window of the child between its offsets, which stay monotone |
| `NestedColumns.FixedGains` | native/parquex_nif/src/writer.rs:782-812 | a fixed list entry is its window of length children, also after null padding |
| `NestedColumns.StructGains` | native/parquex_nif/src/writer.rs:814-840 | a struct entry reads the same index of every child, and the children keep the struct's length |
| `NestedColumns.AppendAllGains` | native/parquex_nif/src/writer.rs:754-812 | appending values one after another adds their values in order |
| `NestedColumns.AppendFieldsGain` | native/parquex_nif/src/writer.rs:814-840 | a struct value is accepted exactly if every field is present and conforms; extra map entries are ignored |
| `NestedColumns.ReadRangeAt` | native/parquex_nif/src/reader.rs:1136-1141 | encoding a slice gives the value at every index of it |
| `NestedColumns.BuildReadsBack` | native/parquex_nif/src/writer.rs:513-524 | for every recursive type and every list of values: the column is built exactly if every value conforms, has the layout of its type, and reads back the values in order |
| `NestedColumns.BuiltValueIsInput` | native/parquex_nif/src/reader.rs:1143-1240 | with inverse leaf conversions and no stray map entries, reading index i of the built column gives back value i |
| `NestedColumns.NormalizeSame` | native/parquex_nif/src/reader.rs:1143-1240 | a conforming value is unchanged by the leaf conversions when they are inverse and its maps have only the fields of their structs |
| `NestedColumns.BatchReadsBack` | native/parquex_nif/src/writer.rs:486-511 | a batch is accepted exactly if it is within the row bound, has at least one column, and its columns match the schema in name, length and type; an accepted batch is what is read back |
| `NestedBuilders.Builder.Leaf` | native/parquex_nif/src/writer.rs:514 | a scalar builder starts empty |
| `NestedBuilders.Builder.Nested` | native/parquex_nif/src/writer.rs:514 | a nested builder starts empty over its children |
| `NestedBuilders.Builder.AppendNull` | native/parquex_nif/src/writer.rs:842-927 | the builders, updated in place, hold what the specification gives, or the call is refused exactly when the specification is |
| `NestedBuilders.Builder.PadFixed` | native/parquex_nif/src/writer.rs:908-914 | the null branch of a fixed list, with its loop of child nulls |
| `NestedBuilders.Builder.PadFields` | native/parquex_nif/src/writer.rs:915-921 | the loop of the null branch of a struct: a null slot for every child, or the refusal of the first that has none |
| `NestedBuilders.Builder.PadStruct` | native/parquex_nif/src/writer.rs:915-921 | the null branch of a struct: a null entry over a null slot in every child |
| `NestedBuilders.Builder.AppendValue` | native/parquex_nif/src/writer.rs:563-635 | the value goes into the builder tree as specified, and is refused exactly when the specification refuses it |
| `NestedBuilders.Builder.LeafValue` | native/parquex_nif/src/writer.rs:530-561 | scalar values and nulls |
| `NestedBuilders.Builder.ListValue` | native/parquex_nif/src/writer.rs:754-780 | list and large list values |
| `NestedBuilders.Builder.FixedListValue` | native/parquex_nif/src/writer.rs:782-812 | fixed list values, whose length must match |
| `NestedBuilders.Builder.StructValue` | native/parquex_nif/src/writer.rs:814-840 | struct values |
| `NestedBuilders.MakeBuilder` | native/parquex_nif/src/writer.rs:514 | makes the empty tree of builders of a type |
| `NestedBuilders.BuildArray` | native/parquex_nif/src/writer.rs:513-524 | runs the builders over a list of values: succeeds exactly if all conform, and the finished column then has the layout of its type and reads back the values in order |
| `StagedWrite.UseEffect` | native/parquex_nif/src/local.rs:193-310 | a call touches its own staging file, and its destination when it publishes; nothing else |
| `StagedWrite.AllocateEffect` | native/parquex_nif/src/local.rs:161-190 | opening creates a staging file that was not there, or leaves the files as they are; at most 64 names are tried |
| `StagedWrite.StepSound` | native/parquex_nif/src/local.rs:143-310 | every step of every writer keeps the active-writer counter exact, the staging files of active writers present and distinct |
| `StagedWrite.StepTracks` | native/parquex_nif/src/local.rs:143-310 | after every step the staging file of each active writer holds what reached it, and every object holds what the log of calls says |
| `StagedWrite.RunTracks` | native/parquex_nif/src/local.rs:143-350 | the same for every interleaving of any number of writers, cancellations and deletions, with any faults |
| `StagedWrite.LastPublisherWins` | native/parquex_nif/src/local.rs:232-293 | an object holds what its last publisher staged, which is the concatenation of the chunks that writer accepted if and only if no failed write of it left bytes behind |
| `StagedWrite.UntouchedObjectKept` | native/parquex_nif/src/local.rs:232-310 | an object that nobody published to or deleted holds its initial bytes |
| `StagedWrite.WholeUnlessTorn` | native/parquex_nif/src/local.rs:217-230 | a staging file is longer than the accepted chunks by exactly the bytes that failed writes left, and equals them if and only if that is none |
| `StagedWrite.TornWriteIsPublished` | native/parquex_nif/src/local.rs:217-230 | the failing family: a write fails halfway, the writer stays active, and a later publish makes the torn chunk visible |
| `StagedWrite.EndingSteps` | native/parquex_nif/src/local.rs:295-350 | abort, drop and cancellation change no object and end the writer; so does publishing |
| `StagedWrite.EndedForever` | native/parquex_nif/src/local.rs:206-214 | no run gives an ended writer another publish |
| `StagedWrite.CounterCountsLiveStages` | native/parquex_nif/src/local.rs:352-357 | after any run the counter of active writers is the number of live staging files; the only other staging files are those found at the start and those whose removal failed |
| `LocalWriters.SharedDisk.RemoveFile` | native/parquex_nif/src/local.rs:202 | removes a file or, on a fault, leaves it |
| `LocalWriters.LocalWriter.Open` | native/parquex_nif/src/local.rs:143-191 | the loop over staging names allocates as the protocol says |
| `LocalWriters.LocalWriter.Write` | native/parquex_nif/src/local.rs:217-230 | appends to the staging file as the protocol says, also when the write fails halfway |
| `LocalWriters.LocalWriter.Publish` | native/parquex_nif/src/local.rs:232-293 | prepares, renames or cleans up as the protocol says |
| `LocalWriters.LocalWriter.Abort` | native/parquex_nif/src/local.rs:295-310 | cancels, removes and finishes as the protocol says; only once |
| `LocalWriters.LocalWriter.Drop` | native/parquex_nif/src/local.rs:343-350 | the destructor cleans up an active writer and cancels its token |
| `LocalWriters.LocalWriter.Finish` | native/parquex_nif/src/local.rs:193-198 | ends the writer and counts it once |
| `LocalWriters.LocalWriter.CleanupStage` | native/parquex_nif/src/local.rs:200-204 | removes the staging file if it can, and ends the writer either way |
| `RemoteWriters.UploadIsAccepted` | native/parquex_nif/src/s3.rs:242-318 | while an upload is there the writer is active and the upload is exactly the accepted chunks, as many bytes as the counter says |
| `RemoteWriters.VisibleOnceAndWhole` | native/parquex_nif/src/s3.rs:243-272 | whatever the calls and failures, at most one call makes anything visible, it is a publish, and what becomes visible is the concatenation of the chunks accepted before it |
| `RemoteWriters.PublishTells` | native/parquex_nif/src/s3.rs:243-259 | a publish that returns has made the accepted chunks visible; one that fails has done so exactly if the upload was completed all the same, its answer or the later look-up having failed |
| `RemoteWriters.FailedPublishVisible` | native/parquex_nif/src/s3.rs:243-259 | the upload of one byte is completed and its look-up fails: the publish is an error and the object is visible |
| `RemoteWriters.EndingCalls` | native/parquex_nif/src/s3.rs:261-325 | after an abort, a drop, a cancellation or a publish that returned, nothing more becomes visible |
| `RemoteWriters.RemoteMultipartWriter.constructor` | native/parquex_nif/src/s3.rs:209-229 | opening starts an empty upload and counts it |
| `RemoteWriters.RemoteMultipartWriter.Write` | native/parquex_nif/src/s3.rs:282-311 | a chunk goes to the upload and the counter, or the call is refused or fails without effect |
| `RemoteWriters.RemoteMultipartWriter.Publish` | native/parquex_nif/src/s3.rs:243-259 | completes the upload and ends the writer as specified, and counts it once |
| `RemoteWriters.RemoteMultipartWriter.Abort` | native/parquex_nif/src/s3.rs:261-272 | gives the upload up once, as specified |
| `RemoteWriters.RemoteMultipartWriter.Drop` | native/parquex_nif/src/s3.rs:320-325 | the destructor gives an active upload up |
| `RemoteWriters.RemoteMultipartWriter.FinishActive` | native/parquex_nif/src/s3.rs:274-279 | ends the writer and counts it once |
| `InputRows.RowsComeBack` | lib/parquex/input.ex:22-67 | rows are accepted if and only if the schema has no field twice and every row has no empty key, exactly the fields of the schema, and no integer too large for a float column; then they come back from their batches in order, for every batch size, each value through its type; the rows themselves come back if and only if there is a column or no row, and every value is stable |
| `InputRows.EmptyNameRefused` | lib/parquex/input.ex:183-216 | a row with an empty key is refused by inference, and under every schema |
| `InputRows.StableReturns` | lib/parquex/input.ex:218-244 | when one value comes back as it went in: not an integer in a float column, and in timestamp columns only date-times of the column's precision in UTC |
| `InputRows.BatchReturns` | lib/parquex/batch.ex:59-67 | a batch of columns made from rows gives the rows back |
| `InputRows.InferredSchemaFits` | lib/parquex/input.ex:101-155 | rows accepted by inference have no empty key and match the inferred schema, and each of their values is written if and only if its integers and date-times are within 64 bits and an integer beside floats can be widened |
| `InputRows.WideIntegerRefused` | lib/parquex/input.ex:101-155 | a row with the integer 2^63 is given a schema of 64-bit integers, and the value cannot be written |
| `InputRows.HugeIntegerRefused` | lib/parquex/input.ex:167-219 | beside a float the integer 2^1024 is given a schema of floats, and the rows are then refused, if floats do not hold it |
| `InputRows.InferredRowsComeBack` | lib/parquex/input.ex:12-20 | rows are accepted with their inferred schema if and only if every integer beside floats can be widened; then they come back unchanged, for every batch size, if and only if no column mixes integers with floats |
| `InputRows.NamesOfRow` | lib/parquex/input.ex:196-202 | the names of a row, sorted, are its keys, each once |
| `RowsThroughFiles.SchemaReported` | lib/parquex/schema.ex:102-131 | the schema that the reader reports for a file is the one that it was written with, for supported types, and has a builder for every field |
| `RowsThroughFiles.BatchThroughFile` | lib/parquex/batch.ex:69-88 | a batch goes over the native boundary into columns if and only if its rows conform to their fields, and comes out of them unchanged if no map has entries beyond its struct |
| `RowsThroughFiles.RowsThroughFile` | lib/parquex/input.ex:22-67 | rows all the way, through batches, the native boundary, columns, the reader and the reported schema: they are written if and only if there is a column, they are accepted as batches and the builders accept their encoded values; and they come back in order, each value through its type, unchanged if and only if every value is stable |

## Left out

- S3 client set-up, retries, timeouts, range requests and the parts of a multipart upload: an upload is opened, grows, and is completed or given up; the provider's listing is taken to be scoped to path segments.
- Parquet page encoding, compression and page statistics: a file is its row groups of rows, and statistics are any that are sound for the rows of their group.
- Wake-up of tasks that wait for cancellation: the token is only its flag.
- The Windows form of replacing a file, directory sync (the library always writes with sync `:none`), symlinks and path canonicalisation.
- Destinations named like staging files, and random part names that collide: part names carry a number instead of time, sequence and random bytes, and no key of the run may be in the store before it.
- Other processes that remove or change staging files while writers use them.
- Float, decimal-text and UTF-8 leaf conversions: nested columns take any pair of conversions, the widening of integers to floats is a parameter, and NaN and signed zero are not modelled.
- Overflow of 32-bit list offsets in Arrow arrays.
- Unmasked-null checks that Arrow makes when it finishes an array: they follow from the values conforming and are not stated.
- Atom keys, date-times as dataset timestamps, and the input forms of a dataset writer (batches, column maps): rows have string keys and encoded timestamps.
- Precision and time zone inside a date-time value: it is its instant.
- Unknown units and granularities: the atoms are datatypes, so their refusal is left out.
- Elixir's own date range, which is narrower than the native one: it is another `Window`.
- Options, telemetry, error categories and messages, redaction, and the plumbing between Elixir and Rust.
- Termination of a whole-object read while the object shrinks: the object is taken not to change.
- DatasetWriter.PublishFacts: does not say which staged writers a failed publish leaves open, because the process aborts them next.
- FileReading.WriteThenReadThroughReader: does not model how the dataset writer encodes a part; the part is any file that holds its rows.
- StreamHandles.StreamHandle.Finalize: does not model that a reader left open after an error is closed later by the garbage collector.
- RemoteListing.RemoteListsBelow: does not model the validation of object paths, because keys of a dataset are normalized relative paths.
