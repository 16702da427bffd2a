/**
 * The loader of a single run: the set of event files it reads, the per-file read loop, the
 * staging of each event read, and the commit of the staged data into the run's data.
 *
 * The environment is given as oracles: `opens` says whether opening a new event file succeeds,
 * `episodes` says what one read pass over a file yields (its next events, then the error that
 * stops the pass), and a `MetadataOracle` computes the initial metadata of summary series.
 */
module Loader {
  import opened Types
  import opened FileOrder
  import opened Staging
  import opened Commit

  /** A reader of one event file; `checksum` says whether it verifies record checksums. */
  datatype EventFileReader = EventFileReader(checksum: bool)

  /** An event file of the run: readable, or dead for good. */
  datatype EventFile = Active(reader: EventFileReader) | Dead

  /** The error that ends a read pass: a truncated record at the end of the file, or any other failure. */
  datatype ReadError = Truncated | OtherError

  /** One read pass over an event file: the events it reads, and the error that ends it. */
  datatype ReadEpisode = ReadEpisode(events: seq<Event>, end: ReadError)

  datatype ReadResult = Ok(event: Event) | Err(error: ReadError)

  /** The outcome of the reader's next read after `i` events of this pass. */
  function NextRead(ep: ReadEpisode, i: nat): ReadResult
  {
    if i < |ep.events| then Ok(ep.events[i]) else Err(ep.end)
  }

  /** The entry for a file that was just opened. */
  function Opened(name: FileName, checksum: bool, opens: FileName -> bool): EventFile
  {
    if opens(name) then Active(EventFileReader(checksum)) else Dead
  }

  /** Marks every file that is not among `names` as dead. */
  function MarkMissing(files: map<FileName, EventFile>, names: seq<FileName>): map<FileName, EventFile>
  {
    map k | k in files :: if k in names then files[k] else Dead
  }

  /** The file map partway through marking: the files of `pending` have not been looked at yet. */
  function PartlyMarked(files: map<FileName, EventFile>, names: seq<FileName>, pending: set<FileName>)
    : map<FileName, EventFile>
  {
    map k | k in files :: if k in pending || k in names then files[k] else Dead
  }

  /** Marking starts from the file map as it is and ends with `MarkMissing`. */
  lemma PartlyMarkedEnds(files: map<FileName, EventFile>, names: seq<FileName>)
    ensures PartlyMarked(files, names, files.Keys) == files
    ensures PartlyMarked(files, names, {}) == MarkMissing(files, names)
  {
  }

  /** Looking at one more file kills it when it is not listed. */
  lemma PartlyMarkedStep(files: map<FileName, EventFile>, names: seq<FileName>, pending: set<FileName>, name: FileName)
    requires name in pending && name in files
    ensures PartlyMarked(files, names, pending - {name}) ==
      if name in names then PartlyMarked(files, names, pending) else PartlyMarked(files, names, pending)[name := Dead]
  {
  }

  /** Opens, in order, each of `names` that has no entry yet. */
  function OpenNew(files: map<FileName, EventFile>, names: seq<FileName>, checksum: bool, opens: FileName -> bool)
    : map<FileName, EventFile>
    decreases |names|
  {
    if names == [] then files
    else
      var prior := OpenNew(files, names[..|names| - 1], checksum, opens);
      var name := names[|names| - 1];
      if name in prior then prior else prior[name := Opened(name, checksum, opens)]
  }

  /** Opening one more name of the list. */
  lemma OpenNewStep(files: map<FileName, EventFile>, names: seq<FileName>, i: nat, checksum: bool, opens: FileName -> bool)
    requires i < |names|
    ensures var prior := OpenNew(files, names[..i], checksum, opens);
      OpenNew(files, names[..i + 1], checksum, opens) ==
        if names[i] in prior then prior else prior[names[i] := Opened(names[i], checksum, opens)]
  {
    assert names[..i + 1][..i] == names[..i];
  }

  /**
   * Opening the listed names adds exactly the names without an entry; existing entries are
   * untouched, and each new entry is what opening it gives.
   */
  lemma {:induction false} OpenNewEffect(files: map<FileName, EventFile>, names: seq<FileName>, checksum: bool,
                                         opens: FileName -> bool)
    ensures var r := OpenNew(files, names, checksum, opens);
      && (forall k :: k in r <==> k in files || k in names)
      && (forall k :: k in files ==> r[k] == files[k])
      && (forall k :: k in r && k !in files ==> r[k] == Opened(k, checksum, opens))
    decreases |names|
  {
    if names != [] {
      var init := names[..|names| - 1];
      OpenNewEffect(files, init, checksum, opens);
      assert names == init + [names[|names| - 1]];
    }
  }

  /** The file set after reconciling it with the current file names. */
  function ReconciledFiles(files: map<FileName, EventFile>, names: seq<FileName>, checksum: bool, opens: FileName -> bool)
    : map<FileName, EventFile>
  {
    OpenNew(MarkMissing(files, names), names, checksum, opens)
  }

  /**
   * Reconciling keeps every file and adds the listed ones: listed files keep their entry,
   * unlisted files are dead, and new files are active exactly when they open.
   */
  lemma ReconcileKeepsAndKills(files: map<FileName, EventFile>, names: seq<FileName>, checksum: bool, opens: FileName -> bool)
    ensures var r := ReconciledFiles(files, names, checksum, opens);
      && (forall k :: k in r <==> k in files || k in names)
      && (forall k :: k in files && k !in names ==> r[k] == Dead)
      && (forall k :: k in files && k in names ==> r[k] == files[k])
      && (forall k :: k in names && k !in files ==> r[k] == if opens(k) then Active(EventFileReader(checksum)) else Dead)
  {
    OpenNewEffect(MarkMissing(files, names), names, checksum, opens);
  }

  /** The events a read pass hands on: none for a dead file. */
  function EventsOf(f: EventFile, ep: ReadEpisode): seq<Event>
  {
    if f.Active? then ep.events else []
  }

  /** A file after a read pass: dead files stay dead; a pass ended by anything but truncation kills the file. */
  function AfterRead(f: EventFile, ep: ReadEpisode): (r: EventFile)
    ensures f.Dead? ==> r.Dead?
    ensures f.Active? && ep.end == Truncated ==> r == f
    ensures ep.end == OtherError ==> r.Dead?
  {
    if f.Active? && ep.end == Truncated then f else Dead
  }

  function AfterReads(files: map<FileName, EventFile>, episodes: FileName -> ReadEpisode): (r: map<FileName, EventFile>)
    ensures r.Keys == files.Keys
  {
    map k | k in files :: AfterRead(files[k], episodes(k))
  }

  /** The file map partway through a read: the files of `remaining` have not been read yet. */
  function PartlyRead(files: map<FileName, EventFile>, remaining: set<FileName>, episodes: FileName -> ReadEpisode)
    : (r: map<FileName, EventFile>)
    ensures r.Keys == files.Keys
  {
    map k | k in files :: if k in remaining then files[k] else AfterRead(files[k], episodes(k))
  }

  lemma PartlyReadStep(files: map<FileName, EventFile>, remaining: set<FileName>, name: FileName,
                       episodes: FileName -> ReadEpisode)
    requires name in remaining && name in files
    ensures PartlyRead(files, remaining - {name}, episodes) ==
      PartlyRead(files, remaining, episodes)[name := AfterRead(files[name], episodes(name))]
  {
  }

  /** The events of the files `ks`, file after file. */
  function Flatten(ks: seq<FileName>, files: map<FileName, EventFile>, episodes: FileName -> ReadEpisode): seq<Event>
    requires forall k :: k in ks ==> k in files
  {
    if ks == [] then [] else EventsOf(files[ks[0]], episodes(ks[0])) + Flatten(ks[1..], files, episodes)
  }

  lemma {:induction false} FlattenSnoc(ks: seq<FileName>, k: FileName, files: map<FileName, EventFile>,
                                       episodes: FileName -> ReadEpisode)
    requires forall j :: j in ks ==> j in files
    requires k in files
    ensures Flatten(ks + [k], files, episodes) == Flatten(ks, files, episodes) + EventsOf(files[k], episodes(k))
    decreases |ks|
  {
    if ks == [] {
      assert [k][1..] == [];
    } else {
      assert (ks + [k])[1..] == ks[1..] + [k];
      FlattenSnoc(ks[1..], k, files, episodes);
    }
  }

  /** Reading all files leaves nothing partly read. */
  lemma PartlyReadAll(files: map<FileName, EventFile>, episodes: FileName -> ReadEpisode)
    ensures PartlyRead(files, {}, episodes) == AfterReads(files, episodes)
  {
  }

  /** Staging the events of one more file extends the staging of the files before it. */
  lemma StagedThrough(s: Staged, order: seq<FileName>, name: FileName, files: map<FileName, EventFile>,
                      episodes: FileName -> ReadEpisode, initialMetadata: MetadataOracle)
    requires forall k :: k in order ==> k in files
    requires name in files
    ensures StageEvents(StageEvents(s, Flatten(order, files, episodes), initialMetadata),
                        EventsOf(files[name], episodes(name)), initialMetadata) ==
            StageEvents(s, Flatten(order + [name], files, episodes), initialMetadata)
  {
    StageEventsAppend(s, Flatten(order, files, episodes), EventsOf(files[name], episodes(name)), initialMetadata);
    FlattenSnoc(order, name, files, episodes);
  }

  /** The data staged by a run loader. */
  class RunLoaderData {
    var startTime: Option<WallTime>
    var timeSeries: map<Tag, StageTimeSeries>

    constructor ()
      ensures startTime == None && timeSeries == map[]
    {
      startTime := None;
      timeSeries := map[];
    }

    function State(): Staged
      reads this
    {
      Staged(startTime, timeSeries)
    }

    /** Reads a single event and stages it. */
    method ReadEvent(e: Event, initialMetadata: MetadataOracle)
      modifies this
      ensures State() == StageEvent(old(State()), e, initialMetadata)
    {
      var step := e.step;
      var parsed := NewWallTime(e.wallTime);
      if parsed.None? {
        // An event with an invalid wall time is dropped.
        return;
      }
      var wallTime := parsed.value;
      if startTime.None? || wallTime < startTime.value {
        startTime := Some(wallTime);
      }
      match e.what
      case GraphDef(bytes) =>
        timeSeries := StageInto(timeSeries, GraphTagName, GraphDefMetadata, step, StageValue(wallTime, GraphDefValue(bytes)));
      case TaggedRunMetadata(tag, runMetadata) =>
        timeSeries := StageInto(timeSeries, tag, TaggedRunMetadataMetadata, step, StageValue(wallTime, GraphDefValue(runMetadata)));
      case Summary(values) =>
        var i := 0;
        while i < |values|
          invariant 0 <= i <= |values|
          invariant startTime == NextStartTime(old(startTime), wallTime)
          invariant timeSeries == StageSummary(old(timeSeries), values[..i], step, wallTime, initialMetadata)
        {
          var entry := values[i];
          assert values[..i + 1][..i] == values[..i];
          match entry.value {
            case None =>
            case Some(v) =>
              timeSeries := StageInto(timeSeries, entry.tag, initialMetadata(v, entry.metadata), step, StageValue(wallTime, SummaryValue(v)));
          }
          i := i + 1;
        }
        assert values[..i] == values;
      case _ =>
    }

    /** Commits all staged data into the given run data. */
    method CommitAll(run: RunData)
      modifies this, run
      ensures run.startTime == startTime == old(startTime)
      ensures run.scalars == CommittedStore(old(run.scalars), old(timeSeries), Scalar)
      ensures run.blobSequences == CommittedStore(old(run.blobSequences), old(timeSeries), BlobSequence)
      ensures timeSeries == map t | t in old(timeSeries) :: AfterCommit(old(timeSeries)[t])
    {
      run.startTime := startTime;
      ghost var series := timeSeries;
      var pending := timeSeries.Keys;
      while pending != {}
        invariant pending <= series.Keys
        invariant timeSeries == PartlyCommitted(series, pending)
        invariant startTime == old(startTime) && run.startTime == startTime
        invariant run.scalars == CommittedStore(old(run.scalars), Settled(series, pending), Scalar)
        invariant run.blobSequences == CommittedStore(old(run.blobSequences), Settled(series, pending), BlobSequence)
        decreases pending
      {
        var tag :| tag in pending;
        var ts := timeSeries[tag];
        ghost var done := Settled(series, pending);
        CommitOneMore(series, pending, tag);
        CommittedStoreStep(old(run.scalars), done, tag, ts, Scalar);
        CommittedStoreStep(old(run.blobSequences), done, tag, ts, BlobSequence);
        var after := CommitSeries(tag, ts, run);
        timeSeries := timeSeries[tag := after];
        pending := pending - {tag};
      }
      assert Settled(series, {}) == series;
      assert PartlyCommitted(series, {}) == map t | t in series :: AfterCommit(series[t]);
    }
  }

  /** A loader that accumulates the events of one run, from one or more event files. */
  class RunLoader {
    /** The name of the run. */
    const run: string
    /** The event files of the run; once added, a file may die but is never removed. */
    var files: map<FileName, EventFile>
    /** Whether readers opened from now on verify record checksums. */
    var checksum: bool
    const data: RunLoaderData

    constructor (run: string)
      ensures this.run == run && files == map[] && checksum
      ensures fresh(data) && data.State() == Staged(None, map[])
    {
      this.run := run;
      files := map[];
      checksum := true;
      data := new RunLoaderData();
    }

    /** Sets whether to verify checksums in the readers of files opened later. */
    method SetChecksum(yes: bool)
      modifies this
      ensures checksum == yes && files == old(files)
    {
      checksum := yes;
    }

    /** Updates the file set to match the given file names, opening readers for new files. */
    method UpdateFileSet(filenames: seq<FileName>, opens: FileName -> bool)
      modifies this
      ensures files == ReconciledFiles(old(files), filenames, checksum, opens)
      ensures checksum == old(checksum)
    {
      // Mark every file that is no longer listed as dead.
      PartlyMarkedEnds(old(files), filenames);
      var pending := files.Keys;
      while pending != {}
        invariant pending <= old(files).Keys
        invariant files == PartlyMarked(old(files), filenames, pending)
        invariant checksum == old(checksum)
        decreases pending
      {
        var name :| name in pending;
        PartlyMarkedStep(old(files), filenames, pending, name);
        if name !in filenames {
          files := files[name := Dead];
        }
        pending := pending - {name};
      }

      // Open readers for the new files.
      ghost var marked := files;
      var i := 0;
      while i < |filenames|
        invariant 0 <= i <= |filenames|
        invariant files == OpenNew(marked, filenames[..i], checksum, opens)
        invariant checksum == old(checksum)
      {
        var name := filenames[i];
        OpenNewStep(marked, filenames, i, checksum, opens);
        if name !in files {
          var ef := if opens(name) then Active(EventFileReader(checksum)) else Dead;
          files := files[name := ef];
        }
        i := i + 1;
      }
      assert filenames[..i] == filenames;
    }

    /**
     * One read pass over the active file `name`: stages each event read, until an error ends
     * the pass; a truncated record leaves the file active, any other error kills it.
     */
    method ReadFile(name: FileName, ep: ReadEpisode, initialMetadata: MetadataOracle)
      requires name in files && files[name].Active?
      modifies this, data
      ensures files == old(files)[name := AfterRead(old(files)[name], ep)]
      ensures data.State() == StageEvents(old(data.State()), ep.events, initialMetadata)
      ensures checksum == old(checksum)
    {
      var i := 0;
      while true
        invariant 0 <= i <= |ep.events|
        invariant files == old(files) && checksum == old(checksum)
        invariant data.State() == StageEvents(old(data.State()), ep.events[..i], initialMetadata)
        decreases |ep.events| - i
      {
        match NextRead(ep, i)
        case Err(Truncated) =>
          break;
        case Err(OtherError) =>
          files := files[name := Dead];
          break;
        case Ok(event) =>
          assert ep.events[..i + 1][..i] == ep.events[..i];
          data.ReadEvent(event, initialMetadata);
          i := i + 1;
      }
      assert ep.events[..i] == ep.events;
    }

    /**
     * Reads every active file, in ascending name order, staging each event read; skips dead
     * files, and kills a file whose read pass ends in anything but truncation.
     */
    method ReloadFiles(episodes: FileName -> ReadEpisode, initialMetadata: MetadataOracle)
      modifies this, data
      ensures files == AfterReads(old(files), episodes)
      ensures data.State() ==
        StageEvents(old(data.State()), Flatten(SortedKeys(old(files).Keys), old(files), episodes), initialMetadata)
      ensures checksum == old(checksum)
    {
      var remaining := files.Keys;
      ghost var order: seq<FileName> := [];
      assert files == PartlyRead(old(files), remaining, episodes);
      while remaining != {}
        invariant VisitedUpTo(order, remaining, old(files).Keys)
        invariant files == PartlyRead(old(files), remaining, episodes)
        invariant data.State() == StageEvents(old(data.State()), Flatten(order, old(files), episodes), initialMetadata)
        invariant checksum == old(checksum)
        decreases remaining
      {
        LeastExists(remaining);
        var name :| IsLeast(name, remaining);
        PartlyReadStep(old(files), remaining, name, episodes);
        StagedThrough(old(data.State()), order, name, old(files), episodes, initialMetadata);
        match files[name] {
          case Dead =>
            assert files == files[name := Dead];
          case Active(_) =>
            ReadFile(name, episodes(name), initialMetadata);
        }
        VisitNext(order, remaining, old(files).Keys, name);
        order := order + [name];
        remaining := remaining - {name};
      }
      VisitedAll(order, old(files).Keys);
      PartlyReadAll(old(files), episodes);
    }

    /**
     * Loads new data given the current file names of the run, then commits the staged data
     * into `runData`. The commits that the loader may make while still reading are not modelled.
     */
    method Reload(filenames: seq<FileName>, opens: FileName -> bool, episodes: FileName -> ReadEpisode,
                  initialMetadata: MetadataOracle, runData: RunData)
      modifies this, data, runData
      ensures var reconciled := ReconciledFiles(old(files), filenames, old(checksum), opens);
        && files == AfterReads(reconciled, episodes)
        && var staged := StageEvents(old(data.State()), Flatten(SortedKeys(reconciled.Keys), reconciled, episodes), initialMetadata);
        && runData.startTime == data.startTime == staged.startTime
        && runData.scalars == CommittedStore(old(runData.scalars), staged.timeSeries, Scalar)
        && runData.blobSequences == CommittedStore(old(runData.blobSequences), staged.timeSeries, BlobSequence)
        && data.timeSeries == map t | t in staged.timeSeries :: AfterCommit(staged.timeSeries[t])
      ensures old(files).Keys <= files.Keys
      ensures forall k :: k in old(files) && old(files)[k].Dead? ==> files[k].Dead?
      ensures checksum == old(checksum)
    {
      UpdateFileSet(filenames, opens);
      ReconcileKeepsAndKills(old(files), filenames, old(checksum), opens);
      ReloadFiles(episodes, initialMetadata);
      data.CommitAll(runData);
    }
  }
}
