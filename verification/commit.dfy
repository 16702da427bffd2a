/**
 * The committed data of a run, and how one staged time series is written into it. Staged
 * values are converted by data class: scalar series into scalar values, blob-sequence series
 * into blob-sequence values; tensor series and series of any other class are not committed.
 */
module Commit {
  import opened Types
  import opened Staging

  /** A staged payload as converted for its committed store. The conversions themselves are not modelled. */
  datatype CommitValue = IntoScalar(payload: EventValue) | IntoBlobSequence(payload: EventValue, metadata: Metadata)

  datatype CommitPoint = CommitPoint(step: Step, wallTime: WallTime, value: CommitValue)

  /** A committed time series: its metadata and every point committed to it, in commit order. */
  datatype CommitTimeSeries = CommitTimeSeries(metadata: Metadata, basin: seq<CommitPoint>)

  type TagStore = map<Tag, CommitTimeSeries>

  /** The committed data of one run. */
  class RunData {
    var startTime: Option<WallTime>
    var scalars: TagStore
    var blobSequences: TagStore

    constructor ()
      ensures startTime == None && scalars == map[] && blobSequences == map[]
    {
      startTime := None;
      scalars := map[];
      blobSequences := map[];
    }
  }

  /** A data class whose staged values are written into a store when committed. */
  predicate Committed(dc: DataClass)
  {
    dc == Scalar || dc == BlobSequence
  }

  /** The points that committing `ts` adds to its store: its staged values, converted for its class. */
  function Converted(ts: StageTimeSeries): (r: seq<CommitPoint>)
    ensures |r| == |ts.rsv.staged|
    ensures forall i :: 0 <= i < |r| ==>
      && r[i].step == ts.rsv.staged[i].0
      && r[i].wallTime == ts.rsv.staged[i].1.wallTime
      && r[i].value.payload == ts.rsv.staged[i].1.payload
      && (r[i].value.IntoBlobSequence? <==> ts.dataClass == BlobSequence)
      && (r[i].value.IntoBlobSequence? ==> r[i].value.metadata == ts.metadata)
  {
    seq(|ts.rsv.staged|, i requires 0 <= i < |ts.rsv.staged| =>
      var (step, sv) := ts.rsv.staged[i];
      CommitPoint(step, sv.wallTime,
        if ts.dataClass == BlobSequence then IntoBlobSequence(sv.payload, ts.metadata) else IntoScalar(sv.payload)))
  }

  /**
   * The committed series under `tag` once the staged values of `ts` are written into it: the
   * existing series of `store` with those values appended, or a new series with the staged
   * metadata when the tag is new. An existing committed series keeps its metadata.
   */
  function Appended(store: TagStore, tag: Tag, ts: StageTimeSeries): CommitTimeSeries
  {
    var target := if tag in store then store[tag] else CommitTimeSeries(ts.metadata, []);
    target.(basin := target.basin + Converted(ts))
  }

  /** Writes the staged values of `ts` into `store` under `tag`. */
  function CommitTo(store: TagStore, tag: Tag, ts: StageTimeSeries): TagStore
  {
    store[tag := Appended(store, tag, ts)]
  }

  /**
   * Writing a series adds only its tag: an existing committed series keeps its metadata and
   * gets the converted points appended, a new one takes the staged metadata.
   */
  lemma CommitToEffect(store: TagStore, tag: Tag, ts: StageTimeSeries)
    ensures var r := CommitTo(store, tag, ts);
      && r.Keys == store.Keys + {tag}
      && (forall t :: t in store && t != tag ==> r[t] == store[t])
      && (tag in store ==> r[tag] == CommitTimeSeries(store[tag].metadata, store[tag].basin + Converted(ts)))
      && (tag !in store ==> r[tag] == CommitTimeSeries(ts.metadata, Converted(ts)))
  {
  }

  /** A staged series after it has been committed: its staged values are drained when its class is committed. */
  function AfterCommit(ts: StageTimeSeries): StageTimeSeries
  {
    if Committed(ts.dataClass) then ts.(rsv := ts.rsv.(staged := [])) else ts
  }

  /** The tags of the staged series of class `dc`. */
  function TagsOfClass(series: map<Tag, StageTimeSeries>, dc: DataClass): set<Tag>
  {
    set t | t in series && series[t].dataClass == dc
  }

  /** `store` after committing every staged series of class `dc`, in any order. */
  function CommittedStore(store: TagStore, series: map<Tag, StageTimeSeries>, dc: DataClass): (r: TagStore)
    ensures r.Keys == store.Keys + TagsOfClass(series, dc)
  {
    map t | t in store.Keys + TagsOfClass(series, dc) ::
      if t in TagsOfClass(series, dc) then Appended(store, t, series[t]) else store[t]
  }

  /** The staged series once those outside `pending` have been committed. */
  function PartlyCommitted(series: map<Tag, StageTimeSeries>, pending: set<Tag>): (r: map<Tag, StageTimeSeries>)
    ensures r.Keys == series.Keys
  {
    map t | t in series :: if t in pending then series[t] else AfterCommit(series[t])
  }

  /** The staged series outside `pending`. */
  function Settled(series: map<Tag, StageTimeSeries>, pending: set<Tag>): (r: map<Tag, StageTimeSeries>)
    ensures r.Keys == series.Keys - pending
  {
    map t | t in series && t !in pending :: series[t]
  }

  /** Committing one more pending tag. */
  lemma CommitOneMore(series: map<Tag, StageTimeSeries>, pending: set<Tag>, tag: Tag)
    requires tag in pending && tag in series
    ensures tag !in Settled(series, pending)
    ensures Settled(series, pending)[tag := series[tag]] == Settled(series, pending - {tag})
    ensures PartlyCommitted(series, pending)[tag := AfterCommit(series[tag])] == PartlyCommitted(series, pending - {tag})
  {
  }

  /** What committing all staged series of class `dc` does to each tag of the store. */
  lemma CommittedStoreContents(store: TagStore, series: map<Tag, StageTimeSeries>, dc: DataClass, t: Tag)
    ensures t in series && series[t].dataClass == dc && t in store ==>
      CommittedStore(store, series, dc)[t] == CommitTimeSeries(store[t].metadata, store[t].basin + Converted(series[t]))
    ensures t in series && series[t].dataClass == dc && t !in store ==>
      CommittedStore(store, series, dc)[t] == CommitTimeSeries(series[t].metadata, Converted(series[t]))
    ensures t in store && !(t in series && series[t].dataClass == dc) ==>
      CommittedStore(store, series, dc)[t] == store[t]
  {
  }

  /** Adding a series adds its tag to the tags of its class and to no other. */
  lemma TagsOfClassAdd(done: map<Tag, StageTimeSeries>, tag: Tag, ts: StageTimeSeries, dc: DataClass)
    ensures TagsOfClass(done[tag := ts], dc) ==
      if ts.dataClass == dc then TagsOfClass(done, dc) + {tag} else TagsOfClass(done, dc) - {tag}
  {
  }

  /** Committing the series one tag at a time builds up `CommittedStore`. */
  lemma CommittedStoreStep(store: TagStore, done: map<Tag, StageTimeSeries>, tag: Tag, ts: StageTimeSeries, dc: DataClass)
    requires tag !in done
    ensures CommittedStore(store, done[tag := ts], dc) ==
      if ts.dataClass == dc then CommitTo(CommittedStore(store, done, dc), tag, ts) else CommittedStore(store, done, dc)
  {
    var before := CommittedStore(store, done, dc);
    var after := CommittedStore(store, done[tag := ts], dc);
    TagsOfClassAdd(done, tag, ts, dc);
    if ts.dataClass == dc {
      assert tag !in TagsOfClass(done, dc);
      assert Appended(before, tag, ts) == Appended(store, tag, ts);
      var expected := before[tag := Appended(store, tag, ts)];
      forall t | t in after
        ensures after[t] == expected[t]
      {
      }
      assert after == expected;
    } else {
      assert TagsOfClass(done[tag := ts], dc) == TagsOfClass(done, dc);
      forall t | t in after
        ensures after[t] == before[t]
      {
      }
      assert after == before;
    }
  }

  /**
   * Writes one staged series into the run's data, dispatching on its data class, and returns
   * the series as it is left behind.
   */
  method CommitSeries(tag: Tag, ts: StageTimeSeries, run: RunData) returns (after: StageTimeSeries)
    modifies run
    ensures run.startTime == old(run.startTime)
    ensures run.scalars == if ts.dataClass == Scalar then CommitTo(old(run.scalars), tag, ts) else old(run.scalars)
    ensures run.blobSequences ==
      if ts.dataClass == BlobSequence then CommitTo(old(run.blobSequences), tag, ts) else old(run.blobSequences)
    ensures after == AfterCommit(ts)
  {
    match ts.dataClass
    case Scalar =>
      run.scalars := CommitTo(run.scalars, tag, ts);
      after := ts.(rsv := ts.rsv.(staged := []));
    case Tensor =>
      // Tensor time series are not committed yet.
      after := ts;
    case BlobSequence =>
      run.blobSequences := CommitTo(run.blobSequences, tag, ts);
      after := ts.(rsv := ts.rsv.(staged := []));
    case Unknown =>
      after := ts;
  }
}
