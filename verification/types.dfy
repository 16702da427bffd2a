/** Value types shared by the run loader: wall times, steps, tags, summary metadata and events. */
module Types {

  datatype Option<+T> = None | Some(value: T)

  /** A wall time in seconds since the Unix epoch, as accepted by the wall-time constructor. */
  type WallTime = real

  type Step = int

  type Tag = string

  /** The name of an event file inside its run directory. */
  type FileName = string

  type Bytes = seq<bv8>

  /**
   * The raw `wall_time` field of an event. `Unrepresentable` stands for every value that the
   * wall-time constructor rejects; the others carry their (ordered) value.
   */
  datatype RawWallTime = Representable(seconds: real) | Unrepresentable

  /** The wall-time constructor: `Some` exactly for the representable raw values. */
  function NewWallTime(raw: RawWallTime): Option<WallTime>
  {
    match raw
    case Representable(s) => Some(s)
    case Unrepresentable => None
  }

  /** The data classes of summary metadata. */
  datatype DataClass = Unknown | Scalar | Tensor | BlobSequence

  /** The wire number of each data class. */
  function DataClassToI32(dc: DataClass): int
  {
    match dc
    case Unknown => 0
    case Scalar => 1
    case Tensor => 2
    case BlobSequence => 3
  }

  /**
   * Decodes the `data_class` field of summary metadata; a number that names no data class
   * falls back to `Unknown`.
   */
  function DataClassFromI32(n: int): (dc: DataClass)
    ensures dc != Unknown ==> DataClassToI32(dc) == n
    ensures dc == Unknown <==> !(1 <= n <= 3)
  {
    if n == 1 then Scalar
    else if n == 2 then Tensor
    else if n == 3 then BlobSequence
    else Unknown
  }

  /** Encoding a data class and decoding it again gives it back. */
  lemma DataClassRoundTrip(dc: DataClass)
    ensures DataClassFromI32(DataClassToI32(dc)) == dc
  {
  }

  /** Summary metadata: the owning plugin and the data class, as its wire number. */
  datatype Metadata = Metadata(pluginName: string, pluginContent: Bytes, dataClass: int)

  /**
   * The value of one summary entry: a simple scalar, or one of the other kinds (image,
   * histogram, audio, tensor) carried as its encoded message.
   */
  datatype PbValue = SimpleValue(simpleValue: real) | EncodedValue(kind: string, encoded: Bytes)

  /** One entry of a summary; `value` is `None` when the entry carries no value at all. */
  datatype SummaryPbValue = SummaryPbValue(tag: Tag, metadata: Option<Metadata>, value: Option<PbValue>)

  /** The payload of an event. */
  datatype What =
    | NoWhat
    | FileVersion(version: string)
    | GraphDef(graphDef: Bytes)
    | TaggedRunMetadata(tag: Tag, runMetadata: Bytes)
    | Summary(values: seq<SummaryPbValue>)
    | OtherWhat

  datatype Event = Event(wallTime: RawWallTime, step: Step, what: What)
}
