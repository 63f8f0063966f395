/**
 * The EXIF tag bag every photo carries, as a closed record of the tags the
 * viewer reads. A tag that is absent is `None`; a description that is absent
 * is `None`. Numbers are JavaScript numbers, which are finite reals or NaN;
 * a GPS value array holds numbers or ExifReader's rational pairs.
 */
module Exif {
  import opened Wrappers

  /** A JavaScript number as the viewer sees it: a finite value or NaN. */
  datatype Num = NaN | Real(v: real)
  {
    /** Unary minus: `-NaN` is NaN. */
    function Negate(): (r: Num)
      ensures r.NaN? <==> this.NaN?
      ensures this.Real? ==> r == Real(-this.v)
    {
      match this
      case NaN => NaN
      case Real(x) => Real(-x)
    }
  }

  /**
   * What a coordinate variable of `parseGPS` holds: `null`, a number, or a
   * value that is not a number at all. The last is an ExifReader rational
   * pair `[numerator, denominator]` taken as it is, or the string that `+`
   * builds from one (`[37, 1] + NaN + NaN` is "37,1NaNNaN"); it is truthy,
   * `isNaN` holds of it and its negation is NaN.
   */
  datatype Value = Null | Number(n: Num) | NonNumeric
  {
    /** Unary minus: `-null` is `-0`, and a non-numeric value becomes NaN. */
    function Negate(): (r: Value)
      ensures this.Number? ==> r == Number(this.n.Negate())
      ensures this.NonNumeric? ==> r == Number(NaN)
      ensures this.Null? ==> r == Number(Real(0.0))
    {
      match this
      case Null => Number(Real(0.0))
      case Number(x) => Number(x.Negate())
      case NonNumeric => Number(NaN)
    }

    /** `isNaN(x)`: `null` converts to 0, a non-numeric value to NaN. */
    predicate IsNaN()
    {
      this == Number(NaN) || this.NonNumeric?
    }
  }

  /** `!x` for a coordinate: null, NaN and 0 are falsy; a non-numeric value is truthy. */
  predicate Falsy(x: Value)
  {
    x.Null? || x == Number(NaN) || x == Number(Real(0.0))
  }

  /** A string is truthy exactly when it is present and non-empty. */
  predicate Truthy(s: Option<string>)
  {
    s.Some? && s.value != ""
  }

  /** `s || ''`. */
  function OrEmpty(s: Option<string>): (r: string)
    ensures Truthy(s) ==> r == s.value
    ensures !Truthy(s) ==> r == ""
  {
    if s.Some? then s.value else ""
  }

  /** A plain tag such as Make or FNumber: only its description is read. */
  datatype Tag = Tag(description: Option<string>)

  /**
   * One element of a GPS value array: a plain number, or a rational as
   * ExifReader gives it, the pair `[numerator, denominator]`.
   */
  datatype Entry = Plain(x: real) | Pair(numerator: int, denominator: int)

  /** The raw value of GPSLatitude / GPSLongitude. */
  datatype CoordValue =
    | NoValue                       // value absent
    | Entries(items: seq<Entry>)    // an array: [deg, min, sec] or [decimal]
    | Scalar(x: real)               // a single number
    | Text(s: string)               // a single string

  datatype CoordTag = CoordTag(value: CoordValue, description: Option<string>)

  /**
   * GPSLatitudeRef / GPSLongitudeRef. `value` is the array the decoder
   * produces (usually one letter such as ["S"]); `value[0]` is its first
   * element, and an absent value is the empty array.
   */
  datatype RefTag = RefTag(value: seq<string>, description: Option<string>)
  {
    /** `ref?.value?.[0]`. */
    function First(): (r: Option<string>)
      ensures r.Some? <==> |value| > 0
      ensures r.Some? ==> r.value == value[0]
    {
      if |value| > 0 then Some(value[0]) else None
    }
  }

  /** The tags of one photo; `others` counts the tags the viewer never reads. */
  datatype TagBag = TagBag(
    make: Option<Tag>,
    model: Option<Tag>,
    focalLength: Option<Tag>,
    exposureTime: Option<Tag>,
    fNumber: Option<Tag>,
    dateTimeOriginal: Option<Tag>,
    dateTime: Option<Tag>,
    gpsLatitude: Option<CoordTag>,
    gpsLatitudeRef: Option<RefTag>,
    gpsLongitude: Option<CoordTag>,
    gpsLongitudeRef: Option<RefTag>,
    others: nat)

  /** `Object.keys(metadata).length === 0`. */
  predicate IsEmpty(bag: TagBag)
  {
    bag.make.None? && bag.model.None? && bag.focalLength.None? &&
    bag.exposureTime.None? && bag.fNumber.None? && bag.dateTimeOriginal.None? &&
    bag.dateTime.None? && bag.gpsLatitude.None? && bag.gpsLatitudeRef.None? &&
    bag.gpsLongitude.None? && bag.gpsLongitudeRef.None? && bag.others == 0
  }

  /** The bag of a photo whose metadata has not been read yet (`{}`). */
  const EmptyBag := TagBag(None, None, None, None, None, None, None, None, None, None, None, 0)

  /** `tag?.description`. */
  function DescriptionOf(t: Option<Tag>): (r: Option<string>)
    ensures t.None? ==> r.None?
    ensures t.Some? ==> r == t.value.description
  {
    if t.Some? then t.value.description else None
  }

  /** An uploaded photo: its id, its tag bag and the file's modification time. */
  datatype Photo = Photo(id: string, metadata: TagBag, lastModified: int)

  /** A resolved position in decimal degrees. */
  datatype Coords = Coords(lat: real, lon: real)
}
