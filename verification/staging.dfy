/**
 * The data a run loader stages before committing it: the earliest wall time seen and one
 * reservoir-sampled time series per tag. These are the value-level specifications that the
 * run loader's `ReadEvent` method is proved against.
 */
module Staging {
  import opened Types

  /** The payload of a staged value. */
  datatype EventValue = GraphDefValue(bytes: Bytes) | SummaryValue(value: PbValue)

  datatype StageValue = StageValue(wallTime: WallTime, payload: EventValue)

  /**
   * A staging reservoir: its capacity, and the values offered to it since the last commit, in
   * offer order. The sampling that keeps at most `capacity` of them is not modelled.
   */
  datatype StageReservoir = StageReservoir(capacity: nat, staged: seq<(Step, StageValue)>)

  datatype StageTimeSeries = StageTimeSeries(dataClass: DataClass, metadata: Metadata, rsv: StageReservoir)

  /** The value of a run loader's staged data. */
  datatype Staged = Staged(startTime: Option<WallTime>, timeSeries: map<Tag, StageTimeSeries>)

  /** Computes the initial metadata of a summary time series from its first value and the metadata that came with it. */
  type MetadataOracle = (PbValue, Option<Metadata>) -> Metadata

  /** The tag under which run graphs are staged. */
  const GraphTagName: Tag := "__run_graph__"

  /** Initial metadata of the run-graph time series. */
  const GraphDefMetadata: Metadata := Metadata("graphs", [], DataClassToI32(BlobSequence))

  /** Initial metadata of a tagged-run-metadata time series. */
  const TaggedRunMetadataMetadata: Metadata := Metadata("graph_tagged_run_metadata", [], DataClassToI32(BlobSequence))

  /** The reservoir capacity for each data class. */
  function Capacity(dc: DataClass): nat
  {
    match dc
    case Scalar => 1000
    case Tensor => 100
    case BlobSequence => 10
    case Unknown => 0
  }

  /** A new, empty time series for the given initial metadata. */
  function NewStageTimeSeries(metadata: Metadata): StageTimeSeries
  {
    var dc := DataClassFromI32(metadata.dataClass);
    StageTimeSeries(dc, metadata, StageReservoir(Capacity(dc), []))
  }

  /** The capacity of a new series, read off the wire number of its metadata's data class. */
  lemma NewSeriesCapacity(metadata: Metadata)
    ensures NewStageTimeSeries(metadata).rsv.capacity ==
      if metadata.dataClass == 1 then 1000
      else if metadata.dataClass == 2 then 100
      else if metadata.dataClass == 3 then 10
      else 0
    ensures NewStageTimeSeries(metadata).metadata == metadata
    ensures NewStageTimeSeries(metadata).rsv.staged == []
  {
  }

  /** `b` is `a` after more offers: same class, metadata and capacity, and `a`'s staged values first. */
  predicate Extends(a: StageTimeSeries, b: StageTimeSeries)
  {
    && b.dataClass == a.dataClass
    && b.metadata == a.metadata
    && b.rsv.capacity == a.rsv.capacity
    && a.rsv.staged <= b.rsv.staged
  }

  /** The earliest wall time after seeing a valid wall time `w`. */
  function NextStartTime(start: Option<WallTime>, w: WallTime): (r: Option<WallTime>)
    ensures r.Some? && r.value <= w
    ensures start.Some? ==> r.value <= start.value
    ensures r == start || r == Some(w)
  {
    if start.None? || w < start.value then Some(w) else start
  }

  /** `ts` with `vs` appended to its staged values. */
  function Appending(ts: StageTimeSeries, vs: seq<(Step, StageValue)>): StageTimeSeries
  {
    ts.(rsv := ts.rsv.(staged := ts.rsv.staged + vs))
  }

  /**
   * Offers a value to the series under `tag`, first creating that series from `metadata` if
   * the tag is new.
   */
  function StageInto(series: map<Tag, StageTimeSeries>, tag: Tag, metadata: Metadata, step: Step, sv: StageValue)
    : map<Tag, StageTimeSeries>
  {
    var ts := if tag in series then series[tag] else NewStageTimeSeries(metadata);
    series[tag := Appending(ts, [(step, sv)])]
  }

  /**
   * Offering under a tag adds only that tag: an existing series keeps its class, metadata and
   * capacity and gets the value appended, a new one starts from the given metadata, and the
   * other series are unchanged.
   */
  lemma StageIntoEffect(series: map<Tag, StageTimeSeries>, tag: Tag, metadata: Metadata, step: Step, sv: StageValue)
    ensures var r := StageInto(series, tag, metadata, step, sv);
      && r.Keys == series.Keys + {tag}
      && (forall t :: t in series && t != tag ==> r[t] == series[t])
      && (tag in series ==> Extends(series[tag], r[tag]) && r[tag].rsv.staged == series[tag].rsv.staged + [(step, sv)])
      && (tag !in series ==> r[tag] == NewStageTimeSeries(metadata).(rsv := NewStageTimeSeries(metadata).rsv.(staged := [(step, sv)])))
  {
  }

  /**
   * One value offered to the series of `tag`, together with the metadata that creates that
   * series if the tag has none yet.
   */
  datatype Offer = Offer(tag: Tag, metadata: Metadata, step: Step, value: StageValue)

  /** Makes the offers one after the other. */
  function ApplyOffers(series: map<Tag, StageTimeSeries>, offers: seq<Offer>): map<Tag, StageTimeSeries>
    decreases |offers|
  {
    if offers == [] then series
    else
      var last := offers[|offers| - 1];
      StageInto(ApplyOffers(series, offers[..|offers| - 1]), last.tag, last.metadata, last.step, last.value)
  }

  /** The tags that the offers go to. */
  function OfferTags(offers: seq<Offer>): set<Tag>
  {
    if offers == [] then {} else OfferTags(offers[..|offers| - 1]) + {offers[|offers| - 1].tag}
  }

  /** The values offered under `t`, in order. */
  function OfferedTo(offers: seq<Offer>, t: Tag): (r: seq<(Step, StageValue)>)
    ensures t !in OfferTags(offers) ==> r == []
    decreases |offers|
  {
    if offers == [] then []
    else
      var last := offers[|offers| - 1];
      OfferedTo(offers[..|offers| - 1], t) + (if last.tag == t then [(last.step, last.value)] else [])
  }

  /** The position of the first offer under `t`. */
  function FirstOffer(offers: seq<Offer>, t: Tag): (k: nat)
    requires t in OfferTags(offers)
    ensures k < |offers| && offers[k].tag == t
    decreases |offers|
  {
    var init := offers[..|offers| - 1];
    if t in OfferTags(init) then
      var k := FirstOffer(init, t);
      assert offers[k] == init[k];
      k
    else
      |offers| - 1
  }

  /** No offer before `FirstOffer(offers, t)` goes to `t`. */
  lemma {:induction false} FirstOfferIsFirst(offers: seq<Offer>, t: Tag, j: int)
    requires t in OfferTags(offers) && 0 <= j < FirstOffer(offers, t)
    ensures offers[j].tag != t
    decreases |offers|
  {
    var init := offers[..|offers| - 1];
    assert offers[j] == init[j];
    if t in OfferTags(init) {
      FirstOfferIsFirst(init, t, j);
    } else {
      OfferTagsContain(init, j);
    }
  }

  /** Every offer's tag is among the offer tags. */
  lemma {:induction false} OfferTagsContain(offers: seq<Offer>, j: int)
    requires 0 <= j < |offers|
    ensures offers[j].tag in OfferTags(offers)
    decreases |offers|
  {
    if j < |offers| - 1 {
      OfferTagsContain(offers[..|offers| - 1], j);
    }
  }

  /** Offering `a` and then `b` is offering `a + b`. */
  lemma {:induction false} ApplyOffersAppend(series: map<Tag, StageTimeSeries>, a: seq<Offer>, b: seq<Offer>)
    ensures ApplyOffers(series, a + b) == ApplyOffers(ApplyOffers(series, a), b)
    ensures OfferTags(a + b) == OfferTags(a) + OfferTags(b)
    decreases |b|
  {
    if b == [] {
      assert a + b == a;
    } else {
      var init := b[..|b| - 1];
      ApplyOffersAppend(series, a, init);
      assert (a + b)[..|a + b| - 1] == a + init;
    }
  }

  /** Where the offers end up, for one tag `t`. */
  lemma {:induction false} ApplyOffersAt(series: map<Tag, StageTimeSeries>, offers: seq<Offer>, t: Tag)
    ensures var r := ApplyOffers(series, offers);
      && (t in r <==> t in series || t in OfferTags(offers))
      && (t in series ==> r[t] == Appending(series[t], OfferedTo(offers, t)))
      && (t in OfferTags(offers) && t !in series ==>
            r[t] == Appending(NewStageTimeSeries(offers[FirstOffer(offers, t)].metadata), OfferedTo(offers, t)))
    decreases |offers|
  {
    if offers == [] {
      if t in series {
        assert series[t].rsv.staged + [] == series[t].rsv.staged;
      }
    } else {
      var init := offers[..|offers| - 1];
      var x := offers[|offers| - 1];
      ApplyOffersAt(series, init, t);
      var prior := ApplyOffers(series, init);
      var r := ApplyOffers(series, offers);
      assert r == StageInto(prior, x.tag, x.metadata, x.step, x.value);
      if t == x.tag {
        assert OfferedTo(offers, t) == OfferedTo(init, t) + [(x.step, x.value)];
        if t in prior {
          var base := if t in series then series[t] else NewStageTimeSeries(offers[FirstOffer(offers, t)].metadata);
          if t !in series {
            assert offers[FirstOffer(offers, t)] == init[FirstOffer(init, t)];
          }
          assert prior[t] == Appending(base, OfferedTo(init, t));
          assert base.rsv.staged + OfferedTo(init, t) + [(x.step, x.value)] == base.rsv.staged + OfferedTo(offers, t);
        } else {
          assert OfferedTo(init, t) == [];
        }
      } else {
        assert OfferedTo(offers, t) == OfferedTo(init, t);
        if t in OfferTags(init) && t !in series {
          assert offers[FirstOffer(offers, t)] == init[FirstOffer(init, t)];
        }
      }
    }
  }

  /**
   * Where the offers end up: the tags become the old tags plus the offered ones; an existing
   * series gets exactly the values offered under its tag appended, in order; a new series is
   * created from the metadata of the first offer under its tag and holds exactly the values
   * offered under it.
   */
  lemma ApplyOffersEffect(series: map<Tag, StageTimeSeries>, offers: seq<Offer>)
    ensures var r := ApplyOffers(series, offers);
      && r.Keys == series.Keys + OfferTags(offers)
      && (forall t :: t in series ==> r[t] == Appending(series[t], OfferedTo(offers, t)))
      && (forall t :: t in OfferTags(offers) && t !in series ==>
            r[t] == Appending(NewStageTimeSeries(offers[FirstOffer(offers, t)].metadata), OfferedTo(offers, t)))
  {
    forall t {
      ApplyOffersAt(series, offers, t);
    }
  }

  /** The tags of the summary entries that carry a value. */
  function SummaryTags(values: seq<SummaryPbValue>): set<Tag>
  {
    if values == [] then {}
    else
      var last := values[|values| - 1];
      SummaryTags(values[..|values| - 1]) + (if last.value.Some? then {last.tag} else {})
  }

  /** The summary entries that carry a value, in order. */
  function Valued(values: seq<SummaryPbValue>): (r: seq<SummaryPbValue>)
    ensures forall i :: 0 <= i < |r| ==> r[i].value.Some?
  {
    if values == [] then []
    else
      var last := values[|values| - 1];
      Valued(values[..|values| - 1]) + (if last.value.Some? then [last] else [])
  }

  /** Stages the entries of one summary, in order, skipping the entries without a value. */
  function StageSummary(series: map<Tag, StageTimeSeries>, values: seq<SummaryPbValue>, step: Step, w: WallTime,
                        initialMetadata: MetadataOracle): map<Tag, StageTimeSeries>
    decreases |values|
  {
    if values == [] then series
    else
      var prior := StageSummary(series, values[..|values| - 1], step, w, initialMetadata);
      var last := values[|values| - 1];
      match last.value
      case None => prior
      case Some(v) =>
        StageInto(prior, last.tag, initialMetadata(v, last.metadata), step, StageValue(w, SummaryValue(v)))
  }

  /**
   * Staging a summary adds exactly the tags of its entries that carry a value; existing series
   * only gain staged values, and the series of other tags are unchanged.
   */
  lemma {:induction false} StageSummaryEffect(series: map<Tag, StageTimeSeries>, values: seq<SummaryPbValue>, step: Step,
                                              w: WallTime, initialMetadata: MetadataOracle)
    ensures var r := StageSummary(series, values, step, w, initialMetadata);
      && r.Keys == series.Keys + SummaryTags(values)
      && (forall t :: t in series ==> Extends(series[t], r[t]))
      && (forall t :: t in series && t !in SummaryTags(values) ==> r[t] == series[t])
    decreases |values|
  {
    if values != [] {
      var init := values[..|values| - 1];
      var last := values[|values| - 1];
      StageSummaryEffect(series, init, step, w, initialMetadata);
      var prior := StageSummary(series, init, step, w, initialMetadata);
      match last.value {
        case None =>
        case Some(v) =>
          StageIntoEffect(prior, last.tag, initialMetadata(v, last.metadata), step, StageValue(w, SummaryValue(v)));
      }
    }
  }

  /**
   * What staging a summary offers: one offer per entry that carries a value, in order, under
   * the entry's own tag, with the initial metadata computed from that entry.
   */
  function SummaryOffers(values: seq<SummaryPbValue>, step: Step, w: WallTime, initialMetadata: MetadataOracle)
    : seq<Offer>
  {
    var vs := Valued(values);
    seq(|vs|, i requires 0 <= i < |vs| =>
      Offer(vs[i].tag, initialMetadata(vs[i].value.value, vs[i].metadata), step, StageValue(w, SummaryValue(vs[i].value.value))))
  }

  /** The offers of a summary with one more entry at the end. */
  lemma SummaryOffersSnoc(values: seq<SummaryPbValue>, step: Step, w: WallTime, initialMetadata: MetadataOracle)
    requires values != []
    ensures var last := values[|values| - 1];
      SummaryOffers(values, step, w, initialMetadata) ==
        SummaryOffers(values[..|values| - 1], step, w, initialMetadata) +
        match last.value
        case None => []
        case Some(v) => [Offer(last.tag, initialMetadata(v, last.metadata), step, StageValue(w, SummaryValue(v)))]
  {
  }

  /**
   * Staging a summary makes exactly its offers, and they go to exactly the tags of its entries
   * that carry a value.
   */
  lemma {:induction false} StageSummaryOffers(series: map<Tag, StageTimeSeries>, values: seq<SummaryPbValue>, step: Step,
                                              w: WallTime, initialMetadata: MetadataOracle)
    ensures StageSummary(series, values, step, w, initialMetadata) ==
      ApplyOffers(series, SummaryOffers(values, step, w, initialMetadata))
    ensures OfferTags(SummaryOffers(values, step, w, initialMetadata)) == SummaryTags(values)
    decreases |values|
  {
    if values != [] {
      var init := values[..|values| - 1];
      var last := values[|values| - 1];
      var prior := SummaryOffers(init, step, w, initialMetadata);
      StageSummaryOffers(series, init, step, w, initialMetadata);
      SummaryOffersSnoc(values, step, w, initialMetadata);
      match last.value {
        case None =>
          assert SummaryOffers(values, step, w, initialMetadata) == prior;
        case Some(v) =>
          var x := Offer(last.tag, initialMetadata(v, last.metadata), step, StageValue(w, SummaryValue(v)));
          assert SummaryOffers(values, step, w, initialMetadata) == prior + [x];
          assert (prior + [x])[..|prior|] == prior;
      }
    }
  }

  /**
   * The contents of every series after staging a summary. An existing series gets exactly the
   * values offered under its tag appended, in order. A new series is created from the initial
   * metadata computed from the first entry with that tag that carries a value, and holds
   * exactly the values offered under it.
   */
  lemma SummarySeriesContents(series: map<Tag, StageTimeSeries>, values: seq<SummaryPbValue>, step: Step,
                              w: WallTime, initialMetadata: MetadataOracle)
    ensures var r := StageSummary(series, values, step, w, initialMetadata);
      var offers := SummaryOffers(values, step, w, initialMetadata);
      var vs := Valued(values);
      && |offers| == |vs|
      && OfferTags(offers) == SummaryTags(values)
      && r.Keys == series.Keys + SummaryTags(values)
      && (forall t :: t in series ==> r[t] == Appending(series[t], OfferedTo(offers, t)))
      && (forall t :: t in SummaryTags(values) ==>
            var k := FirstOffer(offers, t);
            vs[k].tag == t && forall j :: 0 <= j < k ==> vs[j].tag != t)
      && (forall t :: t in SummaryTags(values) && t !in series ==>
            var e := vs[FirstOffer(offers, t)];
            r[t] == Appending(NewStageTimeSeries(initialMetadata(e.value.value, e.metadata)), OfferedTo(offers, t)))
  {
    var offers := SummaryOffers(values, step, w, initialMetadata);
    var vs := Valued(values);
    StageSummaryOffers(series, values, step, w, initialMetadata);
    ApplyOffersEffect(series, offers);
    forall t, j | t in SummaryTags(values) && 0 <= j < FirstOffer(offers, t)
      ensures vs[j].tag != t
    {
      FirstOfferIsFirst(offers, t, j);
    }
  }

  /** Staging a summary with one more entry at the end. */
  lemma StageSummarySnoc(series: map<Tag, StageTimeSeries>, values: seq<SummaryPbValue>, last: SummaryPbValue,
                         step: Step, w: WallTime, initialMetadata: MetadataOracle)
    ensures StageSummary(series, values + [last], step, w, initialMetadata) ==
      match last.value
      case None => StageSummary(series, values, step, w, initialMetadata)
      case Some(v) =>
        StageInto(StageSummary(series, values, step, w, initialMetadata), last.tag,
                  initialMetadata(v, last.metadata), step, StageValue(w, SummaryValue(v)))
  {
    assert (values + [last])[..|values|] == values;
  }

  /** Entries without a value take no part in staging a summary. */
  lemma {:induction false} ValuelessEntriesSkipped(series: map<Tag, StageTimeSeries>, values: seq<SummaryPbValue>,
                                                   step: Step, w: WallTime, initialMetadata: MetadataOracle)
    ensures StageSummary(series, values, step, w, initialMetadata) == StageSummary(series, Valued(values), step, w, initialMetadata)
    decreases |values|
  {
    if values != [] {
      var init := values[..|values| - 1];
      var last := values[|values| - 1];
      assert values == init + [last];
      ValuelessEntriesSkipped(series, init, step, w, initialMetadata);
      StageSummarySnoc(series, init, last, step, w, initialMetadata);
      if last.value.Some? {
        assert Valued(values) == Valued(init) + [last];
        StageSummarySnoc(series, Valued(init), last, step, w, initialMetadata);
      } else {
        assert Valued(values) == Valued(init);
      }
    }
  }

  /** The tags that a valid event stages a value under. */
  function EventTags(e: Event): set<Tag>
  {
    if NewWallTime(e.wallTime).None? then {}
    else
      match e.what
      case GraphDef(_) => {GraphTagName}
      case TaggedRunMetadata(tag, _) => {tag}
      case Summary(values) => SummaryTags(values)
      case _ => {}
  }

  /**
   * What a valid event offers: a run graph goes to the run-graph series, tagged run metadata to
   * its own tag, both with blob-sequence metadata of their plugin; a summary offers its entries
   * that carry a value; any other event offers nothing. An event with an invalid wall time
   * offers nothing.
   */
  function EventOffers(e: Event, initialMetadata: MetadataOracle): (r: seq<Offer>)
    ensures forall i :: 0 <= i < |r| ==> r[i].step == e.step && NewWallTime(e.wallTime) == Some(r[i].value.wallTime)
  {
    match NewWallTime(e.wallTime)
    case None => []
    case Some(w) =>
      match e.what
      case GraphDef(bytes) => [Offer(GraphTagName, GraphDefMetadata, e.step, StageValue(w, GraphDefValue(bytes)))]
      case TaggedRunMetadata(tag, runMetadata) =>
        [Offer(tag, TaggedRunMetadataMetadata, e.step, StageValue(w, GraphDefValue(runMetadata)))]
      case Summary(values) => SummaryOffers(values, e.step, w, initialMetadata)
      case _ => []
  }

  /** Run graphs and tagged run metadata are staged as blob sequences, ten at a time. */
  lemma GraphSeriesAreBlobSequences()
    ensures NewStageTimeSeries(GraphDefMetadata).dataClass == BlobSequence
    ensures NewStageTimeSeries(GraphDefMetadata).rsv.capacity == 10
    ensures NewStageTimeSeries(TaggedRunMetadataMetadata).dataClass == BlobSequence
    ensures NewStageTimeSeries(TaggedRunMetadataMetadata).rsv.capacity == 10
  {
  }

  /** Stages one event: the model of reading a single event into the staged data. */
  function StageEvent(s: Staged, e: Event, initialMetadata: MetadataOracle): Staged
  {
    match NewWallTime(e.wallTime)
    case None => s
    case Some(w) =>
      var start := NextStartTime(s.startTime, w);
      match e.what
      case GraphDef(bytes) =>
        Staged(start, StageInto(s.timeSeries, GraphTagName, GraphDefMetadata, e.step, StageValue(w, GraphDefValue(bytes))))
      case TaggedRunMetadata(tag, runMetadata) =>
        Staged(start, StageInto(s.timeSeries, tag, TaggedRunMetadataMetadata, e.step, StageValue(w, GraphDefValue(runMetadata))))
      case Summary(values) =>
        Staged(start, StageSummary(s.timeSeries, values, e.step, w, initialMetadata))
      case _ => Staged(start, s.timeSeries)
  }

  /**
   * An event with an invalid wall time changes nothing. Otherwise the start time takes the
   * event's wall time into account, the new tags are exactly those of the event's payload, and
   * existing series keep their class, metadata and capacity and only gain staged values.
   */
  lemma StageEventEffect(s: Staged, e: Event, initialMetadata: MetadataOracle)
    ensures var r := StageEvent(s, e, initialMetadata);
      && (NewWallTime(e.wallTime).None? ==> r == s)
      && (NewWallTime(e.wallTime).Some? ==> r.startTime == NextStartTime(s.startTime, NewWallTime(e.wallTime).value))
      && r.timeSeries == ApplyOffers(s.timeSeries, EventOffers(e, initialMetadata))
      && OfferTags(EventOffers(e, initialMetadata)) == EventTags(e)
      && r.timeSeries.Keys == s.timeSeries.Keys + EventTags(e)
      && (forall t :: t in s.timeSeries ==> Extends(s.timeSeries[t], r.timeSeries[t]))
      && (forall t :: t in s.timeSeries && t !in EventTags(e) ==> r.timeSeries[t] == s.timeSeries[t])
  {
    if NewWallTime(e.wallTime).Some? {
      var w := NewWallTime(e.wallTime).value;
      match e.what {
        case GraphDef(bytes) =>
          var x := Offer(GraphTagName, GraphDefMetadata, e.step, StageValue(w, GraphDefValue(bytes)));
          assert [x][..0] == [];
          StageIntoEffect(s.timeSeries, GraphTagName, GraphDefMetadata, e.step, StageValue(w, GraphDefValue(bytes)));
        case TaggedRunMetadata(tag, runMetadata) =>
          var x := Offer(tag, TaggedRunMetadataMetadata, e.step, StageValue(w, GraphDefValue(runMetadata)));
          assert [x][..0] == [];
          StageIntoEffect(s.timeSeries, tag, TaggedRunMetadataMetadata, e.step, StageValue(w, GraphDefValue(runMetadata)));
        case Summary(values) =>
          StageSummaryOffers(s.timeSeries, values, e.step, w, initialMetadata);
          StageSummaryEffect(s.timeSeries, values, e.step, w, initialMetadata);
        case _ =>
      }
    }
  }

  /** The tags that a sequence of events stages values under. */
  function AllTags(es: seq<Event>): set<Tag>
  {
    if es == [] then {} else AllTags(es[..|es| - 1]) + EventTags(es[|es| - 1])
  }

  /** The valid wall times of a sequence of events, in order. */
  function ValidWallTimes(es: seq<Event>): seq<WallTime>
  {
    if es == [] then []
    else
      var last := es[|es| - 1];
      ValidWallTimes(es[..|es| - 1]) + (match NewWallTime(last.wallTime) case Some(w) => [w] case None => [])
  }

  /** Stages a sequence of events, in order. */
  function StageEvents(s: Staged, es: seq<Event>, initialMetadata: MetadataOracle): Staged
    decreases |es|
  {
    if es == [] then s
    else StageEvent(StageEvents(s, es[..|es| - 1], initialMetadata), es[|es| - 1], initialMetadata)
  }

  /**
   * Over any sequence of events the tag set only grows, by the tags of the valid events, and a
   * series keeps the class, metadata and capacity fixed at its creation while its staged
   * values only grow at the end.
   */
  lemma {:induction false} SeriesFixedOnceCreated(s: Staged, es: seq<Event>, initialMetadata: MetadataOracle)
    ensures var r := StageEvents(s, es, initialMetadata);
      && r.timeSeries.Keys == s.timeSeries.Keys + AllTags(es)
      && (forall t :: t in s.timeSeries ==> Extends(s.timeSeries[t], r.timeSeries[t]))
      && (forall t :: t in s.timeSeries && t !in AllTags(es) ==> r.timeSeries[t] == s.timeSeries[t])
    decreases |es|
  {
    if es != [] {
      var init := es[..|es| - 1];
      SeriesFixedOnceCreated(s, init, initialMetadata);
      StageEventEffect(StageEvents(s, init, initialMetadata), es[|es| - 1], initialMetadata);
    }
  }

  /** The offers of a sequence of events, event after event. */
  function AllOffers(es: seq<Event>, initialMetadata: MetadataOracle): seq<Offer>
  {
    if es == [] then [] else AllOffers(es[..|es| - 1], initialMetadata) + EventOffers(es[|es| - 1], initialMetadata)
  }

  /** Staging a sequence of events makes all their offers, in order. */
  lemma {:induction false} StageEventsOffers(s: Staged, es: seq<Event>, initialMetadata: MetadataOracle)
    ensures StageEvents(s, es, initialMetadata).timeSeries == ApplyOffers(s.timeSeries, AllOffers(es, initialMetadata))
    ensures OfferTags(AllOffers(es, initialMetadata)) == AllTags(es)
    decreases |es|
  {
    if es != [] {
      var init := es[..|es| - 1];
      var last := es[|es| - 1];
      StageEventsOffers(s, init, initialMetadata);
      StageEventEffect(StageEvents(s, init, initialMetadata), last, initialMetadata);
      ApplyOffersAppend(s.timeSeries, AllOffers(init, initialMetadata), EventOffers(last, initialMetadata));
    }
  }

  /**
   * The contents of every staged series after a sequence of events: a series that existed gets
   * exactly the values offered under its tag appended, in order, and keeps everything else; a
   * series created along the way takes the initial metadata of the first offer under its tag
   * (with the class and capacity that metadata selects) and holds exactly the values offered
   * under it.
   */
  lemma StagedSeriesContents(s: Staged, es: seq<Event>, initialMetadata: MetadataOracle)
    ensures var r := StageEvents(s, es, initialMetadata).timeSeries;
      var offers := AllOffers(es, initialMetadata);
      && OfferTags(offers) == AllTags(es)
      && r.Keys == s.timeSeries.Keys + AllTags(es)
      && (forall t :: t in s.timeSeries ==> r[t] == Appending(s.timeSeries[t], OfferedTo(offers, t)))
      && (forall t :: t in AllTags(es) && t !in s.timeSeries ==>
            r[t] == Appending(NewStageTimeSeries(offers[FirstOffer(offers, t)].metadata), OfferedTo(offers, t)))
  {
    StageEventsOffers(s, es, initialMetadata);
    ApplyOffersEffect(s.timeSeries, AllOffers(es, initialMetadata));
  }

  /** Staging `a` and then `b` is staging `a + b`. */
  lemma {:induction false} StageEventsAppend(s: Staged, a: seq<Event>, b: seq<Event>, initialMetadata: MetadataOracle)
    ensures StageEvents(s, a + b, initialMetadata) == StageEvents(StageEvents(s, a, initialMetadata), b, initialMetadata)
    decreases |b|
  {
    if b == [] {
      assert a + b == a;
    } else {
      var init := b[..|b| - 1];
      StageEventsAppend(s, a, init, initialMetadata);
      assert (a + b)[..|a + b| - 1] == a + init;
    }
  }

  /**
   * The start time is the earliest valid wall time seen: it is absent exactly when it was absent
   * before and no event had a valid wall time, and otherwise it is the least of the earlier
   * start time and the valid wall times.
   */
  lemma {:induction false} StartTimeIsEarliest(s: Staged, es: seq<Event>, initialMetadata: MetadataOracle)
    ensures var r := StageEvents(s, es, initialMetadata).startTime;
      && (r.None? <==> s.startTime.None? && ValidWallTimes(es) == [])
      && (r.Some? ==> r == s.startTime || r.value in ValidWallTimes(es))
      && (r.Some? && s.startTime.Some? ==> r.value <= s.startTime.value)
      && (r.Some? ==> forall t :: t in ValidWallTimes(es) ==> r.value <= t)
    decreases |es|
  {
    if es != [] {
      var init := es[..|es| - 1];
      StartTimeIsEarliest(s, init, initialMetadata);
    }
  }

  /** From nothing staged, the start time is absent exactly when no event had a valid wall time. */
  lemma StartTimeAbsentIffNoValidEvent(es: seq<Event>, initialMetadata: MetadataOracle)
    ensures StageEvents(Staged(None, map[]), es, initialMetadata).startTime.None? <==> ValidWallTimes(es) == []
  {
    StartTimeIsEarliest(Staged(None, map[]), es, initialMetadata);
  }

  /** Events with invalid wall times stage nothing at all. */
  lemma {:induction false} InvalidEventsIgnored(s: Staged, es: seq<Event>, initialMetadata: MetadataOracle)
    requires forall i :: 0 <= i < |es| ==> NewWallTime(es[i].wallTime).None?
    ensures StageEvents(s, es, initialMetadata) == s
    decreases |es|
  {
    if es != [] {
      InvalidEventsIgnored(s, es[..|es| - 1], initialMetadata);
    }
  }
}
