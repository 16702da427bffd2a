# Run loader of the TensorBoard data server

This project models the loader of a single TensorBoard run (`tensorboard/data/server/run.rs`)
in Dafny and proves properties of that model. A run loader:

- keeps the run's event files in a map ordered by file name, each entry either `Active`
  (with a reader) or `Dead`;
- reconciles that map with the run's current list of file names. Files that vanished become
  `Dead` but are never removed. New files are opened and become `Active` or `Dead` depending
  on whether the open succeeds;
- reads every active file in ascending name order until a read fails. A truncated record ends
  the pass and leaves the file `Active`. Any other error kills the file;
- stages each event read. Events with an invalid wall time are dropped. `start_time` is the
  earliest valid wall time seen. Each payload goes to the time series of its tag, and a series
  is created on first sight with its initial metadata and a reservoir capacity chosen by data
  class. Summary entries without a value are skipped;
- commits the staged data into the run's data. The start time is copied. Scalar series go into
  the scalar store and blob-sequence series into the blob-sequence store. Tensor series and
  series of other classes are not committed.

Layout:

- `types.dfy` (module `Types`): wall times, tags, events, summary metadata, and the mapping
  from a metadata `data_class` number to a data class.
- `file_order.dfy` (module `FileOrder`): the order on file names, the existence of a least
  name, and the unique ascending enumeration of a set of names (the visiting order of the
  ordered file map).
- `staging.dfy` (module `Staging`): the staged data as values. `StageEvent` and `StageEvents`
  specify reading one event or a sequence of events. The lemmas prove the start-time, tag and
  metadata properties.
- `commit.dfy` (module `Commit`): the run's committed data (`RunData`), how one staged series
  is written into a store, and the dispatch by data class.
- `loader.dfy` (module `Loader`): the classes `RunLoaderData` and `RunLoader`. Their methods
  change state in place, use loops, and are proved against the functions above.

The environment is passed in as parameters:

- `opens: FileName -> bool` says whether opening a new file succeeds.
- `episodes: FileName -> ReadEpisode` says what one read pass over a file yields: the events
  it reads, then the error that ends it (`Truncated` or `OtherError`). Every pass over a real
  file ends in an error, because the end of the file reads as a truncated record.
- `initialMetadata: MetadataOracle` computes the initial metadata of a summary time series
  from its first value and the metadata that came with it.

Some constants come from files that are not part of this model:

- the graph tag `"__run_graph__"`;
- the plugin names `"graphs"` and `"graph_tagged_run_metadata"`;
- the wire numbers of the data classes (0 unknown, 1 scalar, 2 tensor, 3 blob sequence).

The test at `tensorboard/data/server/run.rs:484-518` expects the graph and tagged-run-metadata
series to carry blob-sequence metadata of those two plugins.

## Model

| member | source | states |
|---|---|---|
| `Types.DataClassFromI32` | tensorboard/data/server/run.rs:103-104 | a number that names a data class decodes to that class; every other number decodes to `Unknown` |
| `Types.DataClassRoundTrip` | tensorboard/data/server/run.rs:103-104 | decoding the wire number of a data class gives that class back |
| `Staging.Capacity` | tensorboard/data/server/run.rs:105-110 | the reservoir capacity chosen by data class; its values are stated by `NewSeriesCapacity` |
| `Staging.NewStageTimeSeries` | tensorboard/data/server/run.rs:102-116 | a new, empty series for the given metadata, with the class decoded from it; its properties are stated by `NewSeriesCapacity` |
| `Staging.NewSeriesCapacity` | tensorboard/data/server/run.rs:102-116 | a new series has capacity 1000 for scalar metadata, 100 for tensor, 10 for blob sequence and 0 for any other or unknown class; it keeps the given metadata and starts with nothing staged |
| `Staging.NextStartTime` | tensorboard/data/server/run.rs:311-313 | after a valid wall time `w`, the start time is present, is at most `w` and at most the old start time, and is either the old start time or `w` (so it is `min(old, w)`, or `w` when there was none) |
| `Staging.StageInto` | tensorboard/data/server/run.rs:321-330 | look up or create the series of a tag, then offer it one value; its effect is stated by `StageIntoEffect` |
| `Staging.StageIntoEffect` | tensorboard/data/server/run.rs:321-330 | offering under a tag adds only that tag; an existing series keeps its class, metadata and capacity and gets the value appended; a new series gets the given metadata and holds just the value; other tags are unchanged |
| `Staging.ApplyOffersAt` | tensorboard/data/server/run.rs:321-367 | the same characterization as `ApplyOffersEffect`, for one tag |
| `Staging.ApplyOffersEffect` | tensorboard/data/server/run.rs:321-367 | after a sequence of offers the tags are the old ones plus the offered ones; an existing series gets exactly the values offered under its tag appended, in order; a new series is created from the metadata of the first offer under its tag and holds exactly the values offered under it |
| `Staging.ApplyOffersAppend` | tensorboard/data/server/run.rs:321-367 | making offers `a` and then `b` is making `a + b`, and the offered tags are the union |
| `Staging.OfferedTo` | tensorboard/data/server/run.rs:330-367 | a tag that no offer goes to is offered no values |
| `Staging.FirstOffer` | tensorboard/data/server/run.rs:326-327 | the position of the first offer under a tag is in range and that offer goes to the tag |
| `Staging.FirstOfferIsFirst` | tensorboard/data/server/run.rs:326-327 | no offer before that position goes to the tag, so a series is created by the first offer under its tag |
| `Staging.Valued` | tensorboard/data/server/run.rs:348-352 | the entries kept for staging all carry a value |
| `Staging.StageSummary` | tensorboard/data/server/run.rs:347-368 | stages a summary's entries in order, skipping those without a value; its effect is stated by `StageSummaryEffect`, `StageSummaryOffers` and `SummarySeriesContents` |
| `Staging.StageSummaryOffers` | tensorboard/data/server/run.rs:347-368 | staging a summary is making one offer per entry that carries a value, in order, under the entry's own tag, with the initial metadata computed from that entry; the offered tags are exactly the tags of those entries |
| `Staging.SummarySeriesContents` | tensorboard/data/server/run.rs:347-368 | after a summary, an existing series gets exactly the values of the entries with its tag appended, in order; a new series is created from the initial metadata of the first entry with its tag that carries a value, and holds exactly the values offered under that tag |
| `Staging.StageSummaryEffect` | tensorboard/data/server/run.rs:347-368 | staging a summary adds exactly the tags of its entries that carry a value; existing series keep class, metadata and capacity and only gain staged values; series of tags not among those entries are unchanged |
| `Staging.ValuelessEntriesSkipped` | tensorboard/data/server/run.rs:348-352 | staging a summary gives the same series as staging only its entries that carry a value |
| `Staging.EventOffers` | tensorboard/data/server/run.rs:314-371 | what a valid event offers: a run graph to `"__run_graph__"`, tagged run metadata to its own tag, a summary its entries that carry a value; every offer carries the event's step and its valid wall time, and an event with an invalid wall time offers nothing |
| `Staging.GraphSeriesAreBlobSequences` | tensorboard/data/server/run.rs:321-345 | a series created for a run graph or for tagged run metadata is a blob-sequence series of capacity 10 |
| `Staging.StageEvent` | tensorboard/data/server/run.rs:298-372 | stages one event; its effect is stated by `StageEventEffect` |
| `Staging.StageEventEffect` | tensorboard/data/server/run.rs:298-372 | an event with an invalid wall time changes nothing; otherwise the start time becomes `NextStartTime(old, w)`; the series become exactly the old ones after the event's offers (`EventOffers`); the new tags are exactly those of the event's payload; existing series keep class, metadata and capacity and only gain staged values; series of other tags are unchanged |
| `Staging.SeriesFixedOnceCreated` | tensorboard/data/server/run.rs:321-367 | over any sequence of events, the tag set only grows, by the tags of the valid events; every existing series keeps the class and metadata fixed at its creation while its staged values only grow at the end; series of tags no event offers to are unchanged |
| `Staging.StageEventsOffers` | tensorboard/data/server/run.rs:298-372 | staging a sequence of events is making all their offers, event after event; the offered tags are exactly the tags of the valid events |
| `Staging.StagedSeriesContents` | tensorboard/data/server/run.rs:314-368 | after a sequence of events, an existing series gets exactly the values offered under its tag appended, in order; a new series takes the metadata of the first offer under its tag, with the class and capacity that metadata selects, and holds exactly the values offered under it |
| `Staging.StageEventsAppend` | tensorboard/data/server/run.rs:268-282 | staging events file after file equals staging the concatenated events |
| `Staging.StartTimeIsEarliest` | tensorboard/data/server/run.rs:73-78 | the start time is absent exactly when it was absent and no event had a valid wall time; otherwise it is the old start time or one of the valid wall times, and no greater than any of them |
| `Staging.StartTimeAbsentIffNoValidEvent` | tensorboard/data/server/run.rs:73-78 | from nothing staged, `start_time` is `None` exactly when no event with a valid wall time has been read |
| `Staging.InvalidEventsIgnored` | tensorboard/data/server/run.rs:300-308 | events whose wall times are all invalid leave the staged data unchanged |
| `FileOrder.BelowIrreflexive` | tensorboard/data/server/run.rs:43-44 | no file name sorts before itself |
| `FileOrder.BelowTransitive` | tensorboard/data/server/run.rs:43-44 | the name order is transitive |
| `FileOrder.BelowTotal` | tensorboard/data/server/run.rs:43-44 | any two distinct names are ordered one way or the other |
| `FileOrder.LeastExists` | tensorboard/data/server/run.rs:43-44 | every non-empty set of file names has a first name |
| `FileOrder.AscendingUnique` | tensorboard/data/server/run.rs:43-44 | a set of names has exactly one strictly ascending enumeration |
| `FileOrder.SortedKeys` | tensorboard/data/server/run.rs:43-47 | the keys of the file map in visiting order: strictly ascending and exactly the keys |
| `FileOrder.VisitNext` | tensorboard/data/server/run.rs:262 | taking the first remaining name keeps the names visited so far strictly ascending and all before the remaining ones |
| `FileOrder.VisitedAll` | tensorboard/data/server/run.rs:262 | a visit that always takes the first remaining name visits the keys exactly in `SortedKeys` order |
| `Commit.Converted` | tensorboard/data/server/run.rs:152-156 | committing a series yields one point per staged value, in order, with its step, wall time and payload, converted as a blob sequence exactly when the series is a blob-sequence series, and then with the staged series' own metadata |
| `Commit.Appended` | tensorboard/data/server/run.rs:149-156 | the committed series of a tag, or a new one with the staged metadata, with the converted points appended; its effect is stated by `CommitToEffect` |
| `Commit.CommitTo` | tensorboard/data/server/run.rs:143-157 | writes one staged series into a store; its effect is stated by `CommitToEffect` |
| `Commit.CommitToEffect` | tensorboard/data/server/run.rs:143-157 | writing a series adds only its tag; an existing committed series keeps its metadata and gets the converted points appended; a new one takes the staged metadata |
| `Commit.CommittedStore` | tensorboard/data/server/run.rs:289-295 | committing every series of a class adds exactly the tags of that class to the store |
| `Commit.CommittedStoreContents` | tensorboard/data/server/run.rs:119-139 | after committing all series of a class, each tag of that class holds its earlier points followed by its staged ones, and every other tag of the store is unchanged |
| `Commit.CommittedStoreStep` | tensorboard/data/server/run.rs:292-294 | committing the series one tag at a time, in any order, builds up the same store |
| `Commit.CommitSeries` | tensorboard/data/server/run.rs:119-139 | scalar series go into the scalar store and blob-sequence series into the blob-sequence store, and are drained; tensor and unknown series change nothing |
| `Loader.MarkMissing` | tensorboard/data/server/run.rs:228-234 | every file that is not among the current names becomes dead; `ReconcileKeepsAndKills` states the result together with `OpenNew` |
| `Loader.OpenNew` | tensorboard/data/server/run.rs:237-257 | opens each listed name without an entry; its effect is stated by `OpenNewEffect` |
| `Loader.OpenNewEffect` | tensorboard/data/server/run.rs:237-257 | opening the listed names adds exactly the names without an entry; existing entries are untouched; each new entry is `Active` with the current checksum setting if it opens and `Dead` if not |
| `Loader.ReconciledFiles` | tensorboard/data/server/run.rs:227-258 | marking and then opening; its effect is stated by `ReconcileKeepsAndKills` |
| `Loader.ReconcileKeepsAndKills` | tensorboard/data/server/run.rs:223-257 | afterwards the keys are the old keys plus the listed names; unlisted keys map to `Dead`; listed old keys keep their entry; new names are `Active` exactly when they open |
| `Loader.AfterRead` | tensorboard/data/server/run.rs:262-283 | a dead file stays dead; an active file whose pass ends in truncation is unchanged; any other error leaves the file dead |
| `Loader.StagedThrough` | tensorboard/data/server/run.rs:262-283 | staging the events of one more file, after those of the files before it, is staging the events of all of them in visiting order |
| `Loader.RunLoaderData.constructor` | tensorboard/data/server/run.rs:70-82 | staged data starts with no start time and no series |
| `Loader.RunLoaderData.ReadEvent` | tensorboard/data/server/run.rs:297-372 | the staged data after reading an event is `StageEvent` of the staged data before |
| `Loader.RunLoaderData.CommitAll` | tensorboard/data/server/run.rs:288-295 | the run's start time becomes the staged start time; the scalar and blob-sequence stores receive every series of their class; committed series are drained |
| `Loader.RunLoader.constructor` | tensorboard/data/server/run.rs:164-171 | a new loader has no files, checksums on, and nothing staged |
| `Loader.RunLoader.SetChecksum` | tensorboard/data/server/run.rs:173-176 | sets the checksum flag and leaves the files alone |
| `Loader.RunLoader.UpdateFileSet` | tensorboard/data/server/run.rs:227-258 | the file map becomes `ReconciledFiles` of the old one |
| `Loader.RunLoader.ReadFile` | tensorboard/data/server/run.rs:268-282 | one pass over an active file stages all the events it reads; only that file's entry changes, as `AfterRead` says |
| `Loader.RunLoader.ReloadFiles` | tensorboard/data/server/run.rs:260-284 | every file becomes `AfterRead` of itself; the staged data is that of the events of the active files, taken in ascending name order |
| `Loader.RunLoader.Reload` | tensorboard/data/server/run.rs:188-221 | reconcile, read and commit: the run's data holds the staged start time and series; no key is removed, no dead file comes back, and the checksum setting is unchanged |

## Left out

- Locking of the run's data (`RwLock`) and lock poisoning: the run data is a plain object.
- File I/O is left out. `Logdir::open` becomes the `opens` parameter. What a reader reads in
  one pass becomes the `episodes` parameter. A reader's own state (its position in the file,
  its checksum computation) is not modelled.
- Loader.RunLoader.Reload: the intermediate commits made every 100 events once `COMMIT_INTERVAL`
  has passed are not modelled. They depend on the clock. The model commits once, at the end.
- Loader.RunLoader.ReloadFiles: the event handler is fixed to the one `reload` passes in,
  which stages the event.
- Logging (`warn!`, `debug!`).
- `StageReservoir` is reduced to its capacity and the values offered since the last commit.
  Its sampling and preemption are not modelled, and neither are the internals of
  `commit::TimeSeries`. Committing appends the staged values to the committed series and
  drains them.
- The conversions `into_scalar` and `into_blob_sequence` are recorded symbolically as
  `IntoScalar` and `IntoBlobSequence`. Their failure results are not modelled.
- The initial metadata of summary series (`SummaryValue::initial_metadata`) is the
  `initialMetadata` parameter.
- Protobuf decoding is not modelled. Wall times are not f64 values: a raw wall time is either
  an ordered value or `Unrepresentable`, and `Unrepresentable` covers whatever the wall-time
  constructor rejects.
- The order in which the file map's keys are marked dead, and the order in which the series
  map is committed, are left arbitrary. Neither affects the result.
- The run name is stored but not otherwise used, as in the source, where it only feeds logging.
- The test module and its on-disk setup.
- File names are strings compared character by character. In the source a key is a full path,
  compared component by component, and need not be valid UTF-8: names that are not valid UTF-8
  are not modelled, and the order argument relies on every event file of a run lying in the
  run's one directory, so that only the last path component differs.
