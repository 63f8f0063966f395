/**
 * `parseGPS` (src/utils/gpsUtils.js): resolves a photo's position from its
 * GPS tags in three stages per axis, each stage used only when the earlier
 * ones left that axis falsy (null, NaN or 0; a value that is not a number,
 * such as an ExifReader rational pair, is truthy and is kept):
 *   1. the tag's value (a degrees/minutes/seconds array, a one-element array,
 *      a number or a string),
 *   2. the first numeric token of the tag's own description,
 *   3. the first / second numeric token of both descriptions joined by a space.
 * The stages are specification functions; `ParseGps` is the step-by-step
 * procedure, proved equal to their composition `Resolve`.
 */
module GpsUtils {
  import opened Wrappers
  import opened Exif
  import opened Text

  datatype Axis = Latitude | Longitude

  function CoordTagOf(bag: TagBag, axis: Axis): Option<CoordTag>
  {
    if axis == Latitude then bag.gpsLatitude else bag.gpsLongitude
  }

  function RefTagOf(bag: TagBag, axis: Axis): Option<RefTag>
  {
    if axis == Latitude then bag.gpsLatitudeRef else bag.gpsLongitudeRef
  }

  /** The reference letter that makes the axis negative. */
  function NegativeRef(axis: Axis): string
  {
    if axis == Latitude then "S" else "W"
  }

  function DefaultRef(axis: Axis): string
  {
    if axis == Latitude then "N" else "E"
  }

  /** The word searched for (lower-cased) in free text. */
  function HemisphereWord(axis: Axis): string
  {
    if axis == Latitude then "south" else "west"
  }

  /** The lower-case reference letter that makes the axis negative. */
  function HemisphereLetter(axis: Axis): string
  {
    if axis == Latitude then "s" else "w"
  }

  /** `Ref?.value?.[0] || 'N'` (array branch). */
  function ArrayRef(bag: TagBag, axis: Axis): (r: string)
    ensures r != ""
  {
    var ref := RefTagOf(bag, axis);
    if ref.Some? && ref.value.First().Some? && ref.value.First().value != ""
    then ref.value.First().value else DefaultRef(axis)
  }

  /** `Ref?.value?.[0] || Ref?.description || 'N'` (scalar branch). */
  function ScalarRef(bag: TagBag, axis: Axis): (r: string)
    ensures r != ""
  {
    var ref := RefTagOf(bag, axis);
    if ref.Some? && ref.value.First().Some? && ref.value.First().value != "" then ref.value.First().value
    else if ref.Some? && Truthy(ref.value.description) then ref.value.description.value
    else DefaultRef(axis)
  }

  /**
   * The reference tag marks the axis negative: its description or its first
   * value, lower-cased, is the hemisphere letter.
   */
  predicate RefSaysNegative(bag: TagBag, axis: Axis)
  {
    var ref := RefTagOf(bag, axis);
    ref.Some? &&
    ((ref.value.description.Some? && Lower(ref.value.description.value) == HemisphereLetter(axis)) ||
     (ref.value.First().Some? && Lower(ref.value.First().value) == HemisphereLetter(axis)))
  }

  /** Hemisphere test of the free-text stages, applied to `text`. */
  predicate NegativeText(text: string, bag: TagBag, axis: Axis)
  {
    Contains(Lower(text), HemisphereWord(axis)) || RefSaysNegative(bag, axis)
  }

  function Signed(negative: bool, x: real): (r: real)
    ensures negative ==> r == -x
    ensures !negative ==> r == x
  {
    if negative then -x else x
  }

  function SignedNum(negative: bool, x: Num): (r: Num)
    ensures negative ==> r == x.Negate()
    ensures !negative ==> r == x
  {
    if negative then x.Negate() else x
  }

  /** `if (negative) lat = -lat` on a coordinate variable. */
  function SignedValue(negative: bool, x: Value): (r: Value)
    ensures negative ==> r == x.Negate()
    ensures !negative ==> r == x
  {
    if negative then x.Negate() else x
  }

  /** Degrees, minutes and seconds as decimal degrees. */
  function Dms(d: real, m: real, s: real): real
  {
    d + m / 60.0 + s / 3600.0
  }

  /** `a + b` on two numbers: NaN when either is NaN. */
  function AddNum(a: Num, b: Num): (r: Num)
    ensures r.Real? <==> a.Real? && b.Real?
    ensures r.Real? ==> r.v == a.v + b.v
  {
    if a.Real? && b.Real? then Real(a.v + b.v) else NaN
  }

  /**
   * `x + b` for a coordinate and a number: `null` counts as 0, and a value
   * that is not a number is turned into a string and concatenated, which
   * leaves a string that is not a number either.
   */
  function Plus(x: Value, b: Num): Value
  {
    match x
    case Null => Number(AddNum(Real(0.0), b))
    case Number(a) => Number(AddNum(a, b))
    case NonNumeric => NonNumeric
  }

  /** An array element read as it is: a number, or the pair itself. */
  function EntryValue(e: Entry): Value
  {
    match e
    case Plain(x) => Number(Real(x))
    case Pair(_, _) => NonNumeric
  }

  /** `e / k`: a pair converts to NaN. */
  function EntryOver(e: Entry, k: real): Num
    requires k != 0.0
  {
    match e
    case Plain(x) => Real(x / k)
    case Pair(_, _) => NaN
  }

  /**
   * `xs[0] + xs[1] / 60 + xs[2] / 3600` as JavaScript evaluates it: decimal
   * degrees for three numbers, NaN when only the minutes or seconds are
   * pairs, and a string such as "37,1NaNNaN" when the degrees are a pair.
   */
  function DmsValue(d: Entry, m: Entry, s: Entry): (r: Value)
    ensures d.Pair? ==> r.NonNumeric?
    ensures d.Plain? && m.Plain? && s.Plain? ==> r == Number(Real(Dms(d.x, m.x, s.x)))
    ensures d.Plain? && !(m.Plain? && s.Plain?) ==> r == Number(NaN)
  {
    Plus(Plus(EntryValue(d), EntryOver(m, 60.0)), EntryOver(s, 3600.0))
  }

  /**
   * Stage 1: the tag's value. Only an array whose first element is a pair
   * leaves a value that is not a number, and only when the reference does
   * not negate it.
   */
  function StructuredStage(bag: TagBag, axis: Axis): (r: Value)
    ensures CoordTagOf(bag, axis).None? ==> r.Null?
    ensures r.NonNumeric? ==>
      CoordTagOf(bag, axis).Some? && CoordTagOf(bag, axis).value.value.Entries? &&
      |CoordTagOf(bag, axis).value.value.items| > 0 && CoordTagOf(bag, axis).value.value.items[0].Pair? &&
      ArrayRef(bag, axis) != NegativeRef(axis)
  {
    match CoordTagOf(bag, axis)
    case None => Null
    case Some(t) =>
      match t.value
      case Entries(xs) =>
        var negative := ArrayRef(bag, axis) == NegativeRef(axis);
        if |xs| >= 3 then SignedValue(negative, DmsValue(xs[0], xs[1], xs[2]))
        else if |xs| == 1 then SignedValue(negative, EntryValue(xs[0]))
        else Null
      case Scalar(x) =>
        if x == 0.0 then Null
        else Number(Real(Signed(ScalarRef(bag, axis) == NegativeRef(axis), x)))
      case Text(s) =>
        if s == "" then Null
        else Number(SignedNum(ScalarRef(bag, axis) == NegativeRef(axis), ParseFloat(s)))
      case NoValue => Null
  }

  /** Stage 2: the first numeric token of the axis's own description. */
  function DescriptionStage(bag: TagBag, axis: Axis, current: Value): (r: Value)
    ensures !Falsy(current) ==> r == current
    ensures r != current ==> r.Number? && r.n.Real? && CoordTagOf(bag, axis).Some?
  {
    var tag := CoordTagOf(bag, axis);
    if Falsy(current) && tag.Some? && Truthy(tag.value.description) then
      var d := tag.value.description.value;
      match FirstToken(d)
      case None => current
      case Some(t) => Number(Real(Signed(NegativeText(d, bag, axis), t.Value())))
    else current
  }

  /** Both descriptions joined by one space; a missing description counts as "". */
  function CombinedText(bag: TagBag): string
    requires bag.gpsLatitude.Some? && bag.gpsLongitude.Some?
  {
    OrEmpty(bag.gpsLatitude.value.description) + " " + OrEmpty(bag.gpsLongitude.value.description)
  }

  /** One axis of stage 3: a falsy axis takes `token`, signed by the hemisphere test on `c`. */
  function CombinedAxis(bag: TagBag, axis: Axis, c: string, token: Token, current: Value): (r: Value)
    ensures !Falsy(current) ==> r == current
    ensures Falsy(current) ==> r.Number? && r.n.Real?
  {
    if Falsy(current) then Number(Real(Signed(NegativeText(c, bag, axis), token.Value()))) else current
  }

  /** Stage 3: first token to latitude, second to longitude, for falsy axes only. */
  function CombinedStage(bag: TagBag, lat: Value, lon: Value): (r: (Value, Value))
    ensures !Falsy(lat) ==> r.0 == lat
    ensures !Falsy(lon) ==> r.1 == lon
    ensures bag.gpsLatitude.None? || bag.gpsLongitude.None? ==> r == (lat, lon)
    ensures r.0 != lat ==> r.0.Number? && r.0.n.Real?
    ensures r.1 != lon ==> r.1.Number? && r.1.n.Real?
  {
    if (Falsy(lat) || Falsy(lon)) && bag.gpsLatitude.Some? && bag.gpsLongitude.Some? then
      var c := CombinedText(bag);
      var toks := Tokens(c);
      if |toks| >= 2 then
        (CombinedAxis(bag, Latitude, c, toks[0], lat), CombinedAxis(bag, Longitude, c, toks[1], lon))
      else (lat, lon)
    else (lat, lon)
  }

  /** `lat !== null && lon !== null && !isNaN(lat) && !isNaN(lon)`, then the pair. */
  function Finish(lat: Value, lon: Value): (r: Option<Coords>)
    ensures r.Some? <==> lat.Number? && lat.n.Real? && lon.Number? && lon.n.Real?
    ensures r.Some? ==> r.value == Coords(lat.n.v, lon.n.v)
  {
    if !lat.Null? && !lon.Null? && !lat.IsNaN() && !lon.IsNaN()
    then Some(Coords(lat.n.v, lon.n.v)) else None
  }

  /** Both coordinates after the three stages, before the validity check. */
  function Resolved(bag: TagBag): (Value, Value)
  {
    var lat := DescriptionStage(bag, Latitude, StructuredStage(bag, Latitude));
    var lon := DescriptionStage(bag, Longitude, StructuredStage(bag, Longitude));
    CombinedStage(bag, lat, lon)
  }

  /** The three stages composed: the position `parseGPS` returns. */
  function Resolve(bag: TagBag): (r: Option<Coords>)
    ensures r.Some? ==> bag.gpsLatitude.Some? && bag.gpsLongitude.Some?
  {
    Finish(Resolved(bag).0, Resolved(bag).1)
  }

  /**
   * `parseGPS`, as the source writes it: two mutable coordinates threaded
   * through the stages, then the final validity check. The source repeats
   * each stage's block for latitude and longitude; here each block is one
   * method taking the axis.
   */
  method ParseGps(bag: TagBag) returns (r: Option<Coords>)
    ensures r == Resolve(bag)
    ensures r.Some? ==> bag.gpsLatitude.Some? && bag.gpsLongitude.Some?
  {
    var lat := ReadValue(bag, Latitude);
    var lon := ReadValue(bag, Longitude);
    lat := ReadDescription(bag, Latitude, lat);
    lon := ReadDescription(bag, Longitude, lon);
    lat, lon := ReadCombined(bag, lat, lon);
    if !lat.Null? && !lon.Null? && !lat.IsNaN() && !lon.IsNaN() {
      r := Some(Coords(lat.n.v, lon.n.v));
    } else {
      r := None;
    }
  }

  /** The first block of `parseGPS` for one axis. */
  method ReadValue(bag: TagBag, axis: Axis) returns (x: Value)
    ensures x == StructuredStage(bag, axis)
  {
    x := Null;
    var tag := CoordTagOf(bag, axis);
    if tag.Some? && tag.value.value.Entries? {
      var parts := tag.value.value.items;
      var ref := ArrayRef(bag, axis);
      if |parts| >= 3 {
        x := Plus(Plus(EntryValue(parts[0]), EntryOver(parts[1], 60.0)), EntryOver(parts[2], 3600.0));
        if ref == NegativeRef(axis) && !x.Null? { x := x.Negate(); }
      } else if |parts| == 1 {
        x := EntryValue(parts[0]);
        if ref == NegativeRef(axis) && !x.Null? { x := x.Negate(); }
      }
    } else if tag.Some? && IsTruthyValue(tag.value.value) {
      var ref := ScalarRef(bag, axis);
      x := Number(if tag.value.value.Scalar? then Real(tag.value.value.x) else ParseFloat(tag.value.value.s));
      if ref == NegativeRef(axis) { x := x.Negate(); }
    }
  }

  /** The description block of `parseGPS` for one axis. */
  method ReadDescription(bag: TagBag, axis: Axis, current: Value) returns (x: Value)
    ensures x == DescriptionStage(bag, axis, current)
  {
    x := current;
    var tag := CoordTagOf(bag, axis);
    if Falsy(x) && tag.Some? && Truthy(tag.value.description) {
      var desc := tag.value.description.value;
      var found := FirstToken(desc);
      if found.Some? {
        x := Number(Real(found.value.Value()));
        if NegativeText(desc, bag, axis) { x := x.Negate(); }
        assert x == Number(Real(Signed(NegativeText(desc, bag, axis), found.value.Value())));
      }
    }
  }

  /** The combined-description block of `parseGPS`. */
  method ReadCombined(bag: TagBag, lat0: Value, lon0: Value) returns (lat: Value, lon: Value)
    ensures (lat, lon) == CombinedStage(bag, lat0, lon0)
  {
    lat, lon := lat0, lon0;
    if (Falsy(lat) || Falsy(lon)) && bag.gpsLatitude.Some? && bag.gpsLongitude.Some? {
      var combined := OrEmpty(bag.gpsLatitude.value.description) + " " + OrEmpty(bag.gpsLongitude.value.description);
      var allNumbers := Tokens(combined);
      if |allNumbers| >= 2 {
        lat := ReadToken(bag, Latitude, combined, allNumbers[0], lat);
        lon := ReadToken(bag, Longitude, combined, allNumbers[1], lon);
      }
    }
  }

  /** `if (!lat) { lat = parseFloat(token); if (isSouth) lat = -lat; }` */
  method ReadToken(bag: TagBag, axis: Axis, combined: string, token: Token, current: Value) returns (x: Value)
    ensures x == CombinedAxis(bag, axis, combined, token, current)
  {
    x := current;
    if Falsy(x) {
      x := Number(Real(token.Value()));
      if NegativeText(combined, bag, axis) { x := x.Negate(); }
    }
  }

  /** `if (tag?.value)` for a value that is not an array: a non-zero number or a non-empty string. */
  predicate IsTruthyValue(v: CoordValue)
  {
    (v.Scalar? && v.x != 0.0) || (v.Text? && v.s != "")
  }

  // ---------------------------------------------------------------------------
  // Properties of the resolution
  // ---------------------------------------------------------------------------

  /**
   * An array of three numbers is read as `d + m/60 + s/3600`, negated exactly
   * when the reference's first value is the negative letter.
   */
  lemma DmsArrayStage(bag: TagBag, axis: Axis, xs: seq<Entry>)
    requires CoordTagOf(bag, axis).Some? && CoordTagOf(bag, axis).value.value == Entries(xs)
    requires |xs| >= 3 && xs[0].Plain? && xs[1].Plain? && xs[2].Plain?
    ensures var d := Dms(xs[0].x, xs[1].x, xs[2].x);
      StructuredStage(bag, axis) == Number(Real(if ArrayRef(bag, axis) == NegativeRef(axis) then -d else d))
  {
  }

  /**
   * ExifReader's rationals: an array whose first element is a pair gives a
   * truthy string (or the pair itself), which the reference S or W turns
   * into NaN.
   */
  lemma PairArrayStage(bag: TagBag, axis: Axis, xs: seq<Entry>)
    requires CoordTagOf(bag, axis).Some? && CoordTagOf(bag, axis).value.value == Entries(xs)
    requires (|xs| >= 3 || |xs| == 1) && xs[0].Pair?
    ensures StructuredStage(bag, axis) ==
      (if ArrayRef(bag, axis) == NegativeRef(axis) then Number(NaN) else NonNumeric)
  {
  }

  /** A one-element array is already decimal; an array of length 0 or 2 resolves nothing. */
  lemma ShortArrayStage(bag: TagBag, axis: Axis, xs: seq<Entry>)
    requires CoordTagOf(bag, axis).Some? && CoordTagOf(bag, axis).value.value == Entries(xs)
    requires |xs| < 3
    ensures |xs| == 1 && xs[0].Plain? ==>
      StructuredStage(bag, axis) == Number(Real(if ArrayRef(bag, axis) == NegativeRef(axis) then -xs[0].x else xs[0].x))
    ensures |xs| != 1 ==> StructuredStage(bag, axis).Null?
  {
  }

  /** Without both GPS tags there is no position: no stage can fill the missing axis. */
  lemma {:induction false} NeedsBothTags(bag: TagBag)
    requires bag.gpsLatitude.None? || bag.gpsLongitude.None?
    ensures Resolve(bag).None?
  {
  }

  /** A truthy value from the tag's value is final: neither fallback replaces it. */
  lemma ValueTakesPrecedence(bag: TagBag)
    ensures !Falsy(StructuredStage(bag, Latitude)) ==> Resolved(bag).0 == StructuredStage(bag, Latitude)
    ensures !Falsy(StructuredStage(bag, Longitude)) ==> Resolved(bag).1 == StructuredStage(bag, Longitude)
  {
  }

  /**
   * A value that is not a number is truthy, so no fallback replaces it, and
   * `isNaN` then rejects it: `parseGPS` returns null.
   */
  lemma NonNumericBlocks(bag: TagBag)
    requires StructuredStage(bag, Latitude).NonNumeric? || StructuredStage(bag, Longitude).NonNumeric?
    ensures Resolve(bag).None?
  {
    ValueTakesPrecedence(bag);
  }

  /**
   * The description stage takes the first numeric token of a falsy axis's own
   * description; the token has no sign, the hemisphere test supplies it.
   */
  lemma DescriptionToken(bag: TagBag, axis: Axis, current: Value)
    requires Falsy(current)
    requires CoordTagOf(bag, axis).Some? && Truthy(CoordTagOf(bag, axis).value.description)
    ensures var d := CoordTagOf(bag, axis).value.description.value;
      match FirstToken(d)
      case None => DescriptionStage(bag, axis, current) == current
      case Some(t) =>
        DescriptionStage(bag, axis, current) == Number(Real(if NegativeText(d, bag, axis) then -t.Value() else t.Value()))
  {
  }

  /**
   * Stage 3 overwrites only falsy axes, latitude with the first token and
   * longitude with the second token of the joined descriptions.
   */
  lemma CombinedTokens(bag: TagBag, lat: Value, lon: Value)
    requires bag.gpsLatitude.Some? && bag.gpsLongitude.Some?
    requires Falsy(lat) || Falsy(lon)
    requires |Tokens(CombinedText(bag))| >= 2
    ensures var c := CombinedText(bag); var toks := Tokens(c);
      CombinedStage(bag, lat, lon) ==
        (if Falsy(lat) then Number(Real(Signed(NegativeText(c, bag, Latitude), toks[0].Value()))) else lat,
         if Falsy(lon) then Number(Real(Signed(NegativeText(c, bag, Longitude), toks[1].Value()))) else lon)
  {
  }

  /** Longitude is resolved from the longitude tags alone in stages 1 and 2 (and latitude likewise). */
  lemma AxesIndependent(b1: TagBag, b2: TagBag, axis: Axis, current: Value)
    requires CoordTagOf(b1, axis) == CoordTagOf(b2, axis) && RefTagOf(b1, axis) == RefTagOf(b2, axis)
    ensures StructuredStage(b1, axis) == StructuredStage(b2, axis)
    ensures DescriptionStage(b1, axis, current) == DescriptionStage(b2, axis, current)
  {
    assert ArrayRef(b1, axis) == ArrayRef(b2, axis);
    assert ScalarRef(b1, axis) == ScalarRef(b2, axis);
    assert RefSaysNegative(b1, axis) == RefSaysNegative(b2, axis);
  }

  /**
   * After stage 2 an axis whose description holds a digit is a number, never
   * null or NaN, unless its value was not a number to begin with.
   */
  lemma {:induction false} DescriptionSettles(bag: TagBag, axis: Axis)
    requires CoordTagOf(bag, axis).Some? && CoordTagOf(bag, axis).value.description.Some?
    requires FirstToken(CoordTagOf(bag, axis).value.description.value).Some?
    requires !StructuredStage(bag, axis).NonNumeric?
    ensures var x := DescriptionStage(bag, axis, StructuredStage(bag, axis)); x.Number? && x.n.Real?
  {
    var x0 := StructuredStage(bag, axis);
    if !Falsy(x0) {
      assert x0.Number? && x0.n.Real?;
    } else {
      assert CoordTagOf(bag, axis).value.description.value != "";
    }
  }

  /** Both descriptions holding a digit guarantee a position, when neither value is a non-number. */
  lemma {:induction false} DescriptionsSuffice(bag: TagBag)
    requires bag.gpsLatitude.Some? && bag.gpsLatitude.value.description.Some?
    requires bag.gpsLongitude.Some? && bag.gpsLongitude.value.description.Some?
    requires FirstToken(bag.gpsLatitude.value.description.value).Some?
    requires FirstToken(bag.gpsLongitude.value.description.value).Some?
    requires !StructuredStage(bag, Latitude).NonNumeric? && !StructuredStage(bag, Longitude).NonNumeric?
    ensures Resolve(bag).Some?
  {
    DescriptionSettles(bag, Latitude);
    DescriptionSettles(bag, Longitude);
  }

  /** No range check: a latitude of 100 degrees is returned as it is. */
  lemma OutOfRangeAccepted()
    ensures Resolve(TagBag(None, None, None, None, None, None, None,
      Some(CoordTag(Entries([Plain(100.0), Plain(0.0), Plain(0.0)]), None)), None,
      Some(CoordTag(Entries([Plain(20.0), Plain(0.0), Plain(0.0)]), None)), None, 0)) == Some(Coords(100.0, 20.0))
  {
  }

  /** 37 deg 30 min N, 127 deg E, as plain numbers, resolve to (37.5, 127). */
  lemma NorthEastExample()
    ensures Resolve(TagBag(None, None, None, None, None, None, None,
      Some(CoordTag(Entries([Plain(37.0), Plain(30.0), Plain(0.0)]), None)), Some(RefTag(["N"], None)),
      Some(CoordTag(Entries([Plain(127.0), Plain(0.0), Plain(0.0)]), None)), Some(RefTag(["E"], None)), 0)) == Some(Coords(37.5, 127.0))
  {
  }

  /** 10 deg S, 20 deg E resolve to (-10, 20). */
  lemma SouthExample()
    ensures Resolve(TagBag(None, None, None, None, None, None, None,
      Some(CoordTag(Entries([Plain(10.0), Plain(0.0), Plain(0.0)]), None)), Some(RefTag(["S"], None)),
      Some(CoordTag(Entries([Plain(20.0), Plain(0.0), Plain(0.0)]), None)), Some(RefTag(["E"], None)), 0)) == Some(Coords(-10.0, 20.0))
  {
  }

  /**
   * The same photo as ExifReader reports it: rational pairs, the decimal
   * degrees as descriptions, and the references with their descriptions.
   */
  const ExifReaderBag := TagBag(None, None, None, None, None, None, None,
    Some(CoordTag(Entries([Pair(37, 1), Pair(30, 1), Pair(0, 1)]), Some("37.5"))),
    Some(RefTag(["N"], Some("North latitude"))),
    Some(CoordTag(Entries([Pair(127, 1), Pair(0, 1), Pair(0, 1)]), Some("127"))),
    Some(RefTag(["E"], Some("East longitude"))), 0)

  /** With ExifReader's pairs, 37 deg 30 min N, 127 deg E gets no position from `parseGPS`. */
  lemma ExifReaderNorthEast()
    ensures StructuredStage(ExifReaderBag, Latitude).NonNumeric?
    ensures Resolve(ExifReaderBag).None?
  {
    var xs := ExifReaderBag.gpsLatitude.value.value.items;
    assert ArrayRef(ExifReaderBag, Latitude) == "N";
    PairArrayStage(ExifReaderBag, Latitude, xs);
    NonNumericBlocks(ExifReaderBag);
  }

  /** A photo whose GPS tags carry descriptions only: "12.5 south" and "45 west". */
  const DescriptionOnlyBag := TagBag(None, None, None, None, None, None, None,
    Some(CoordTag(NoValue, Some("12.5 south"))), None,
    Some(CoordTag(NoValue, Some("45 west"))), None, 0)

  /** "12.5 south" holds the token 12.5. */
  lemma SouthToken()
    ensures FirstToken("12.5 south") == Some(Token("12", "5"))
  {
    var lat := "12.5 south";
    assert FindDigit(lat, 0) == 0;
    assert DigitRun(lat, 0) == 2 && DigitRun(lat, 3) == 4;
    assert lat[0..2] == "12" && lat[3..4] == "5";
  }

  lemma SouthValue()
    ensures Token("12", "5").Value() == 12.5
  {
    assert NatValue("12") == 12 by { assert "12"[..1] == "1"; }
    assert NatValue("5") == 5;
    assert Shift(5.0, -1) == 0.5;
  }

  lemma SouthWord()
    ensures Contains(Lower("12.5 south"), "south")
  {
    var lat := "12.5 south";
    assert Lower(lat) == lat;
    ContainsAt(lat, "south", 5);
  }

  /** "45 west" holds the token 45. */
  lemma WestToken()
    ensures FirstToken("45 west") == Some(Token("45", ""))
  {
    var lon := "45 west";
    assert FindDigit(lon, 0) == 0;
    assert DigitRun(lon, 0) == 2;
    assert lon[0..2] == "45";
  }

  lemma WestValue()
    ensures Token("45", "").Value() == 45.0
  {
    assert NatValue("45") == 45 by { assert "45"[..1] == "4"; }
    assert NatValue("") == 0;
  }

  lemma WestWord()
    ensures Contains(Lower("45 west"), "west")
  {
    var lon := "45 west";
    assert Lower(lon) == lon;
    ContainsAt(lon, "west", 3);
  }

  /**
   * An axis whose tag has no value and whose description names the negative
   * hemisphere in words is the negated first token of the description.
   */
  lemma HemisphereWordNegates(bag: TagBag, axis: Axis, d: string, t: Token)
    requires CoordTagOf(bag, axis) == Some(CoordTag(NoValue, Some(d)))
    requires FirstToken(d) == Some(t) && Contains(Lower(d), HemisphereWord(axis))
    ensures DescriptionStage(bag, axis, StructuredStage(bag, axis)) == Number(Real(-t.Value()))
  {
    assert StructuredStage(bag, axis) == Null;
  }

  /** Non-zero numbers for both axes after stage 2 are the position `parseGPS` returns. */
  lemma SettledAfterDescriptions(bag: TagBag, x: real, y: real)
    requires DescriptionStage(bag, Latitude, StructuredStage(bag, Latitude)) == Number(Real(x))
    requires DescriptionStage(bag, Longitude, StructuredStage(bag, Longitude)) == Number(Real(y))
    requires x != 0.0 && y != 0.0
    ensures Resolve(bag) == Some(Coords(x, y))
  {
    assert Resolved(bag) == (Number(Real(x)), Number(Real(y)));
  }

  /**
   * Tags holding descriptions only, each naming its negative hemisphere in
   * words: the position is the two first tokens, both negated (unless a
   * token is zero, which stage 3 then replaces).
   */
  lemma DescriptionsOnly(bag: TagBag, d1: string, t1: Token, d2: string, t2: Token)
    requires bag.gpsLatitude == Some(CoordTag(NoValue, Some(d1)))
    requires FirstToken(d1) == Some(t1) && Contains(Lower(d1), "south")
    requires bag.gpsLongitude == Some(CoordTag(NoValue, Some(d2)))
    requires FirstToken(d2) == Some(t2) && Contains(Lower(d2), "west")
    requires t1.Value() != 0.0 && t2.Value() != 0.0  // a zero is falsy and left to stage 3
    ensures Resolve(bag) == Some(Coords(-t1.Value(), -t2.Value()))
  {
    HemisphereWordNegates(bag, Latitude, d1, t1);
    HemisphereWordNegates(bag, Longitude, d2, t2);
    SettledAfterDescriptions(bag, -t1.Value(), -t2.Value());
  }

  /** A photo whose GPS tags carry the descriptions "12.5 south" and "45 west" and nothing else gives (-12.5, -45). */
  lemma DescriptionOnlyExample()
    ensures Resolve(DescriptionOnlyBag) == Some(Coords(-12.5, -45.0))
  {
    SouthToken();
    SouthWord();
    SouthValue();
    WestToken();
    WestWord();
    WestValue();
    DescriptionsOnly(DescriptionOnlyBag, "12.5 south", Token("12", "5"), "45 west", Token("45", ""));
  }
}
