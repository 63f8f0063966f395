/**
 * `formatMetadata` (src/utils/metadataUtils.js): the display record of one
 * photo — camera, exposure summary, date and position. Each field is
 * specified by a function of the tag bag; `FormatMetadata` builds the record
 * step by step as the source does, including its two extra position
 * fallbacks: the first supplies the position when a GPS value is an
 * ExifReader rational pair, the second is proved never to add one.
 */
module MetadataUtils {
  import opened Wrappers
  import opened Numbers
  import opened Exif
  import opened Text
  import GpsUtils

  /** How the position is shown: decimal degrees with references, or the raw descriptions. */
  datatype GpsLabel =
    | Decimal(absLat: real, latRef: string, absLon: real, lonRef: string)  // `|lat|.toFixed(6)°ref, ...`
    | Verbatim(text: string)                                                // `${lat}${latRef}, ${lon}${lonRef}`

  /** The record `formatMetadata` returns; an absent field is `None`. */
  datatype Display = Display(
    camera: Option<string>,
    exif: Option<string>,
    date: Option<string>,
    gps: Option<GpsLabel>,
    gpsCoords: Option<Coords>)

  // ---------------------------------------------------------------------------
  // Camera
  // ---------------------------------------------------------------------------

  /** Make and Model descriptions joined by a space and trimmed; absent when both tags are. */
  function CameraLabel(bag: TagBag): (r: Option<string>)
    ensures r.Some? <==> bag.make.Some? || bag.model.Some?
    ensures r.Some? ==> r.value == "" || (!IsWs(r.value[0]) && !IsWs(r.value[|r.value| - 1]))
  {
    if bag.make.Some? || bag.model.Some? then
      Some(Trim(OrEmpty(DescriptionOf(bag.make)) + " " + OrEmpty(DescriptionOf(bag.model))))
    else None
  }

  /**
   * The camera label is the joined descriptions with white space removed
   * from both ends and nothing else (its ends are not white space, above).
   */
  lemma CameraLabelContent(bag: TagBag)
    requires bag.make.Some? || bag.model.Some?
    ensures exists pre, post :: (AllWs(pre) && AllWs(post) &&
      OrEmpty(DescriptionOf(bag.make)) + " " + OrEmpty(DescriptionOf(bag.model)) == pre + CameraLabel(bag).value + post)
  {
    TrimSpec(OrEmpty(DescriptionOf(bag.make)) + " " + OrEmpty(DescriptionOf(bag.model)));
  }

  /** A description with no white space at either end and no comma. */
  predicate Plain(p: string)
  {
    p != "" && !IsWs(p[0]) && !IsWs(p[|p| - 1]) && forall i :: 0 <= i < |p| ==> p[i] != ','
  }

  lemma TrimKeeps(s: string)
    requires s != "" && !IsWs(s[0]) && !IsWs(s[|s| - 1])
    ensures Trim(s) == s
  {
  }

  /** Both descriptions present: the camera reads "Make Model". */
  lemma {:induction false} CameraBoth(bag: TagBag, make: string, model: string)
    requires bag.make == Some(Tag(Some(make))) && bag.model == Some(Tag(Some(model)))
    requires Plain(make) && Plain(model)
    ensures CameraLabel(bag) == Some(make + " " + model)
  {
    TrimKeeps(make + " " + model);
  }

  /** Only the model is described: the leading space is trimmed away. */
  lemma {:induction false} CameraModelOnly(bag: TagBag, model: string)
    requires bag.make.None? && bag.model == Some(Tag(Some(model))) && Plain(model)
    ensures CameraLabel(bag) == Some(model)
  {
    var s := "" + " " + model;
    assert LeadingWs(s[1..]) == 0;
    assert LeadingWs(s) == 1;
    assert s[1..] == model;
    TrimKeeps(model);
  }

  // ---------------------------------------------------------------------------
  // Exposure summary
  // ---------------------------------------------------------------------------

  /** `.replace(/^,\s*|,\s*$/g, '')`: one leading and one trailing comma with its white space. */
  function StripEdges(s: string): string
  {
    var start := if |s| > 0 && s[0] == ',' then 1 + LeadingWs(s[1..]) else 0;
    var rest := s[start..];
    var end := TrimmedEnd(rest);
    if end > 0 && rest[end - 1] == ',' then rest[..end - 1] else rest
  }

  /** `.replace(/,\s*,/g, ',')`: left to right, each comma, white space, comma becomes one comma. */
  function CollapseCommas(s: string): string
    decreases |s|
  {
    if |s| == 0 then ""
    else if s[0] == ',' && 1 + LeadingWs(s[1..]) < |s| && s[1 + LeadingWs(s[1..])] == ',' then
      "," + CollapseCommas(s[2 + LeadingWs(s[1..])..])
    else [s[0]] + CollapseCommas(s[1..])
  }

  /** The summary exactly as the source computes it from the three descriptions. */
  function ExifAsWritten(focal: string, exposure: string, fNumber: string): (r: string)
    ensures |r| <= |focal| + |exposure| + |fNumber| + 4
  {
    CollapseShorter(StripEdges(focal + ", " + exposure + ", " + fNumber));
    CollapseCommas(StripEdges(focal + ", " + exposure + ", " + fNumber))
  }

  lemma {:induction false} CollapseShorter(s: string)
    ensures |CollapseCommas(s)| <= |s|
    decreases |s|
  {
    if |s| > 0 {
      if s[0] == ',' && 1 + LeadingWs(s[1..]) < |s| && s[1 + LeadingWs(s[1..])] == ',' {
        CollapseShorter(s[2 + LeadingWs(s[1..])..]);
      } else {
        CollapseShorter(s[1..]);
      }
    }
  }

  /** The non-empty parts joined by ", ". */
  function JoinNonEmpty(parts: seq<string>): (r: string)
    ensures (forall i :: 0 <= i < |parts| ==> parts[i] == "") <==> r == ""
  {
    if |parts| == 0 then ""
    else if parts[0] == "" then JoinNonEmpty(parts[1..])
    else if JoinNonEmpty(parts[1..]) == "" then parts[0]
    else parts[0] + ", " + JoinNonEmpty(parts[1..])
  }

  /** The non-empty parts, in order. */
  function Present(parts: seq<string>): (r: seq<string>)
    ensures |r| <= |parts|
    ensures forall i :: 0 <= i < |r| ==> r[i] != ""
    ensures r == [] <==> forall i :: 0 <= i < |parts| ==> parts[i] == ""
  {
    if |parts| == 0 then []
    else if parts[0] == "" then Present(parts[1..])
    else [parts[0]] + Present(parts[1..])
  }

  /** The strings of `xs` with ", " between neighbours. */
  function Join(xs: seq<string>): string
  {
    if |xs| == 0 then ""
    else if |xs| == 1 then xs[0]
    else xs[0] + ", " + Join(xs[1..])
  }

  /** `JoinNonEmpty` lists exactly the non-empty parts, in order, separated by ", ". */
  lemma {:induction false} JoinNonEmptySpec(parts: seq<string>)
    ensures JoinNonEmpty(parts) == Join(Present(parts))
  {
    if |parts| > 0 {
      JoinNonEmptySpec(parts[1..]);
      if parts[0] != "" {
        var rest := Present(parts[1..]);
        assert Present(parts) == [parts[0]] + rest;
        if rest != [] {
          assert ([parts[0]] + rest)[1..] == rest;
        }
      }
    }
  }

  /** The summary as intended: the present descriptions joined by ", ". */
  function ExifSummary(focal: string, exposure: string, fNumber: string): (r: string)
    ensures r == "" <==> focal == "" && exposure == "" && fNumber == ""
  {
    var parts := [focal, exposure, fNumber];
    assert parts[0] == focal && parts[1] == exposure && parts[2] == fNumber;
    JoinNonEmpty(parts)
  }

  /** The summary field: present exactly when one of the three descriptions is non-empty. */
  function ExifLabel(bag: TagBag): (r: Option<string>)
    ensures r.Some? <==>
      Truthy(DescriptionOf(bag.focalLength)) || Truthy(DescriptionOf(bag.exposureTime)) || Truthy(DescriptionOf(bag.fNumber))
    ensures r.Some? ==> r.value != ""
  {
    var f := DescriptionOf(bag.focalLength);
    var e := DescriptionOf(bag.exposureTime);
    var n := DescriptionOf(bag.fNumber);
    if Truthy(f) || Truthy(e) || Truthy(n) then Some(ExifSummary(OrEmpty(f), OrEmpty(e), OrEmpty(n))) else None
  }

  lemma {:induction false} CollapsePlainPrefix(a: string, b: string)
    requires forall i :: 0 <= i < |a| ==> a[i] != ','
    ensures CollapseCommas(a + b) == a + CollapseCommas(b)
    decreases |a|
  {
    if |a| > 0 {
      var c, rest := a[0], a[1..];
      assert a == [c] + rest;
      CollapsePlainPrefix(rest, b);
      CollapseKeep(c, rest + b);
      calc {
        CollapseCommas(a + b);
        { assert a + b == [c] + (rest + b); }
        CollapseCommas([c] + (rest + b));
        [c] + CollapseCommas(rest + b);
        [c] + (rest + CollapseCommas(b));
        a + CollapseCommas(b);
      }
    } else {
      assert a + b == b;
    }
  }

  /** A ", " followed by a plain part is left alone. */
  lemma {:induction false} CollapseSeparator(x: string)
    requires x != "" && !IsWs(x[0]) && x[0] != ','
    ensures CollapseCommas(", " + x) == ", " + CollapseCommas(x)
  {
    var s := ", " + x;
    assert s[1..] == " " + x;
    assert LeadingWs(x) == 0;
    assert (" " + x)[1..] == x;
    assert LeadingWs(s[1..]) == 1;
    assert s[2] == x[0];
    assert CollapseCommas(s) == "," + CollapseCommas(s[1..]);
    assert s[1..][1..] == x;
    assert CollapseCommas(s[1..]) == " " + CollapseCommas(x);
  }

  lemma {:induction false} CollapsePlain(p: string)
    requires Plain(p)
    ensures CollapseCommas(p) == p
  {
    CollapsePlainPrefix(p, "");
    assert p + "" == p;
  }

  /** A string that neither starts with a comma nor ends in a comma or white space is not stripped. */
  lemma StripEdgesKeeps(s: string)
    requires s != "" && s[0] != ',' && s[|s| - 1] != ',' && !IsWs(s[|s| - 1])
    ensures StripEdges(s) == s
  {
    assert s[0..] == s;
  }

  /** With all three descriptions present, the source and the intended summary agree. */
  lemma {:induction false} ExifComplete(f: string, e: string, n: string)
    requires Plain(f) && Plain(e) && Plain(n)
    ensures ExifAsWritten(f, e, n) == f + ", " + e + ", " + n
    ensures ExifSummary(f, e, n) == f + ", " + e + ", " + n
  {
    var s := f + ", " + e + ", " + n;
    assert s[0] == f[0] && s[|s| - 1] == n[|n| - 1];
    StripEdgesKeeps(s);
    var tail := ", " + n;
    var mid := e + tail;
    assert s == f + (", " + mid);
    CollapsePlainPrefix(f, ", " + mid);
    assert mid[0] == e[0];
    CollapseSeparator(mid);
    CollapsePlainPrefix(e, tail);
    CollapseSeparator(n);
    CollapsePlain(n);
    assert CollapseCommas(s) == f + (", " + (e + (", " + n)));
    ExifJoinAll(f, e, n);
  }

  lemma ExifJoinAll(f: string, e: string, n: string)
    requires f != "" && e != "" && n != ""
    ensures ExifSummary(f, e, n) == f + ", " + e + ", " + n
  {
    assert JoinNonEmpty([n]) == n by { assert [n][1..] == []; }
    assert JoinNonEmpty([e, n]) == e + ", " + n by { assert [e, n][1..] == [n]; }
    assert JoinNonEmpty([f, e, n]) == f + ", " + (e + ", " + n) by { assert [f, e, n][1..] == [e, n]; }
  }

  /** One space before a part that does not start with white space. */
  lemma LeadingSpace(x: string)
    requires x != "" && !IsWs(x[0])
    ensures LeadingWs(" " + x) == 1
  {
    assert (" " + x)[1..] == x;
  }

  /** A trailing ", " leaves the comma as the last character that is not white space. */
  lemma TrailingSeparator(y: string)
    ensures TrimmedEnd(y + ", ") == |y| + 1
  {
    assert (y + ", ")[..|y| + 1] == y + ",";
  }

  /** No description at all: the source's regular expressions leave nothing. */
  lemma {:induction false} ExifNone()
    ensures ExifAsWritten("", "", "") == "" && ExifSummary("", "", "") == ""
  {
    assert "" + ", " + "" + ", " + "" == ", , ";
    StripSeparatorsOnly();
    assert CollapseCommas("") == "";
  }

  lemma StripSeparatorsOnly()
    ensures StripEdges(", , ") == ""
  {
    var s := ", , ";
    assert LeadingWs(s[1..]) == 1 by { LeadingSpace(", "); assert s[1..] == " " + ", "; }
    assert s[2..] == ", ";
    assert TrimmedEnd(", ") == 1 by { TrailingSeparator(""); assert "" + ", " == ", "; }
  }

  /** A leading ", " before a part that does not end in a comma or white space is stripped. */
  lemma {:induction false} StripLeading(rest: string)
    requires rest != "" && !IsWs(rest[0]) && rest[|rest| - 1] != ',' && !IsWs(rest[|rest| - 1])
    ensures StripEdges(", " + rest) == rest
  {
    var s := ", " + rest;
    assert s[1..] == " " + rest;
    LeadingSpace(rest);
    assert s[2..] == rest;
  }

  /** A trailing ", " after a part that does not start with a comma is stripped. */
  lemma {:induction false} StripTrailing(y: string)
    requires y != "" && y[0] != ','
    ensures StripEdges(y + ", ") == y
  {
    var s := y + ", ";
    assert s[0] == y[0];
    assert s[0..] == s;
    TrailingSeparator(y);
    assert s[..|y|] == y;
  }

  /** Two plain parts joined by ", " are left alone. */
  lemma {:induction false} CollapsePair(a: string, b: string)
    requires Plain(a) && Plain(b)
    ensures CollapseCommas(a + ", " + b) == a + ", " + b
  {
    assert a + ", " + b == a + (", " + b);
    CollapsePlainPrefix(a, ", " + b);
    CollapseSeparator(b);
    CollapsePlain(b);
  }

  /** ", , " before a plain part becomes ", ". */
  lemma {:induction false} CollapseEmptyMiddle(n: string)
    requires Plain(n)
    ensures CollapseCommas(", , " + n) == ", " + n
  {
    calc {
      CollapseCommas(", , " + n);
      { MergeEmptyMiddle(n); }
      "," + CollapseCommas([' '] + n);
      { CollapseKeep(' ', n); }
      "," + ([' '] + CollapseCommas(n));
      { CollapsePlain(n); }
      "," + ([' '] + n);
      { assert "," + [' '] == ", "; }
      ", " + n;
    }
  }

  /** The two commas of ", , " merge into one. */
  lemma MergeEmptyMiddle(n: string)
    ensures CollapseCommas(", , " + n) == "," + CollapseCommas([' '] + n)
  {
    var x := ", , " + n;
    assert x[1..] == " " + (", " + n);
    LeadingSpace(", " + n);
    CollapseMerge(x, 1);
    assert x[3..] == [' '] + n;
  }

  /** A comma, white space and a comma become one comma. */
  lemma CollapseMerge(x: string, k: nat)
    requires |x| > 0 && x[0] == ',' && LeadingWs(x[1..]) == k && 1 + k < |x| && x[1 + k] == ','
    ensures CollapseCommas(x) == "," + CollapseCommas(x[2 + k..])
  {
  }

  /** A character other than a comma is kept as it is. */
  lemma CollapseKeep(c: char, y: string)
    requires c != ','
    ensures CollapseCommas([c] + y) == [c] + CollapseCommas(y)
  {
    assert ([c] + y)[1..] == y;
  }

  /** The intended summary for each combination of two present parts and for the exposure time alone. */
  lemma SummaryCases(f: string, e: string, n: string)
    requires f != "" && e != "" && n != ""
    ensures ExifSummary("", e, "") == e
    ensures ExifSummary(f, e, "") == f + ", " + e
    ensures ExifSummary(f, "", n) == f + ", " + n
    ensures ExifSummary("", e, n) == e + ", " + n
  {
    assert JoinNonEmpty([""]) == "" by { assert [""][1..] == []; }
    assert JoinNonEmpty([n]) == n by { assert [n][1..] == []; }
    assert JoinNonEmpty([e, ""]) == e by { assert [e, ""][1..] == [""]; }
    assert JoinNonEmpty(["", e, ""]) == e by { assert ["", e, ""][1..] == [e, ""]; }
    assert JoinNonEmpty([f, e, ""]) == f + ", " + e by { assert [f, e, ""][1..] == [e, ""]; }
    assert JoinNonEmpty(["", n]) == n by { assert ["", n][1..] == [n]; }
    assert JoinNonEmpty([f, "", n]) == f + ", " + n by { assert [f, "", n][1..] == ["", n]; }
    assert JoinNonEmpty([e, n]) == e + ", " + n by { assert [e, n][1..] == [n]; }
    assert JoinNonEmpty(["", e, n]) == e + ", " + n by { assert ["", e, n][1..] == [e, n]; }
  }

  /** Only the exposure time: the leading and the trailing ", " are both stripped. */
  lemma {:induction false} ExifExposureOnly(e: string)
    requires Plain(e)
    ensures ExifAsWritten("", e, "") == e
  {
    var s := "" + ", " + e + ", " + "";
    assert s == ", " + (e + ", ");
    assert s[1..] == " " + (e + ", ");
    LeadingSpace(e + ", ");
    var rest := s[2..];
    assert rest == e + ", ";
    TrailingSeparator(e);
    assert rest[..|e|] == e;
    assert StripEdges(s) == e;
    CollapsePlain(e);
  }

  /** Focal length and exposure time: the trailing ", " is stripped. */
  lemma {:induction false} ExifFocalExposure(f: string, e: string)
    requires Plain(f) && Plain(e)
    ensures ExifAsWritten(f, e, "") == f + ", " + e
  {
    var y := f + ", " + e;
    assert f + ", " + e + ", " + "" == y + ", ";
    assert y[0] == f[0];
    StripTrailing(y);
    CollapsePair(f, e);
  }

  /** Focal length and f-number: the empty middle's ", ," collapses to one comma. */
  lemma {:induction false} ExifFocalAperture(f: string, n: string)
    requires Plain(f) && Plain(n)
    ensures ExifAsWritten(f, "", n) == f + ", " + n
  {
    var s := f + (", , " + n);
    assert f + ", " + "" + ", " + n == s;
    assert s[0] == f[0] && s[|s| - 1] == n[|n| - 1];
    StripEdgesKeeps(s);
    CollapseAroundEmpty(f, n);
    assert f + (", " + n) == f + ", " + n;
  }

  lemma CollapseAroundEmpty(f: string, n: string)
    requires Plain(f) && Plain(n)
    ensures CollapseCommas(f + (", , " + n)) == f + (", " + n)
  {
    CollapsePlainPrefix(f, ", , " + n);
    CollapseEmptyMiddle(n);
  }

  /** Exposure time and f-number: the leading ", " is stripped. */
  lemma {:induction false} ExifExposureAperture(e: string, n: string)
    requires Plain(e) && Plain(n)
    ensures ExifAsWritten("", e, n) == e + ", " + n
  {
    var rest := e + ", " + n;
    assert "" + ", " + e + ", " + n == ", " + rest;
    assert rest[0] == e[0] && rest[|rest| - 1] == n[|n| - 1];
    StripLeading(rest);
    CollapsePair(e, n);
  }

  /**
   * For descriptions that are absent or plain, the source's summary is the
   * intended join except when the focal length alone or the f-number alone
   * is present.
   */
  lemma {:induction false} ExifAgreement(f: string, e: string, n: string)
    requires (f == "" || Plain(f)) && (e == "" || Plain(e)) && (n == "" || Plain(n))
    ensures ExifAsWritten(f, e, n) == ExifSummary(f, e, n) <==>
      !(f != "" && e == "" && n == "") && !(f == "" && e == "" && n != "")
  {
    if f == "" && e == "" && n == "" { ExifNone(); }
    else if f == "" && e == "" { ExifLeadingCommaSurvives(n); assert |", " + n| != |n|; }
    else if e == "" && n == "" { ExifTrailingCommaSurvives(f); assert |f + ", "| != |f|; }
    else if f == "" && n == "" { ExifExposureOnly(e); SummaryCases("x", e, "x"); }
    else if f == "" { ExifExposureAperture(e, n); SummaryCases("x", e, n); }
    else if e == "" { ExifFocalAperture(f, n); SummaryCases(f, "x", n); }
    else if n == "" { ExifFocalExposure(f, e); SummaryCases(f, e, "x"); }
    else { ExifComplete(f, e, n); }
  }

  /** Only the f-number present: the source keeps a leading ", ". */
  lemma {:induction false} ExifLeadingCommaSurvives(n: string)
    requires Plain(n)
    ensures ExifAsWritten("", "", n) == ", " + n
    ensures ExifSummary("", "", n) == n
  {
    assert "" + ", " + "" + ", " + n == ", , " + n;
    StripDoubleLeading(n);
    CollapseSeparator(n);
    CollapsePlain(n);
    SummaryAlone(n);
  }

  /** Of ", , " before a plain part only the first comma and space are stripped. */
  lemma StripDoubleLeading(n: string)
    requires Plain(n)
    ensures StripEdges(", , " + n) == ", " + n
  {
    var s, rest := ", , " + n, ", " + n;
    assert s[1..] == " " + rest;
    LeadingSpace(rest);
    assert s[2..] == rest;
    assert rest[|rest| - 1] == n[|n| - 1];
  }

  /** The intended summary of the focal length alone or of the f-number alone. */
  lemma SummaryAlone(p: string)
    requires p != ""
    ensures ExifSummary("", "", p) == p && ExifSummary(p, "", "") == p
  {
    assert JoinNonEmpty([p]) == p by { assert [p][1..] == []; }
    assert JoinNonEmpty(["", p]) == p by { assert ["", p][1..] == [p]; }
    assert JoinNonEmpty(["", "", p]) == p by { assert ["", "", p][1..] == ["", p]; }
    assert JoinNonEmpty(["", ""]) == "" by { assert ["", ""][1..] == [""]; assert [""][1..] == []; }
    assert JoinNonEmpty([p, "", ""]) == p by { assert [p, "", ""][1..] == ["", ""]; }
  }

  /** Only the focal length present: the source keeps a trailing ", ". */
  lemma {:induction false} ExifTrailingCommaSurvives(f: string)
    requires Plain(f)
    ensures ExifAsWritten(f, "", "") == f + ", "
    ensures ExifSummary(f, "", "") == f
  {
    assert f + ", " + "" + ", " + "" == f + ", , ";
    StripDoubleTrailing(f);
    CollapsePlainPrefix(f, ", ");
    CollapseLoneSeparator();
    SummaryAlone(f);
  }

  /** Of ", , " after a plain part only the last comma and space are stripped. */
  lemma StripDoubleTrailing(f: string)
    requires Plain(f)
    ensures StripEdges(f + ", , ") == f + ", "
  {
    var s := f + ", , ";
    assert s[0] == f[0] && s[0..] == s;
    assert s[..|f| + 3] == f + ", ,";
    assert TrimmedEnd(s) == |f| + 3;
    assert s[..|f| + 2] == f + ", ";
  }

  /** A ", " on its own has no second comma to merge with. */
  lemma CollapseLoneSeparator()
    ensures CollapseCommas(", ") == ", "
  {
    assert ", "[1..] == " " && " "[1..] == "";
    assert LeadingWs(" ") == 1;
  }

  // ---------------------------------------------------------------------------
  // Date
  // ---------------------------------------------------------------------------

  /**
   * The DateTimeOriginal description the date is rendered from; DateTime is
   * never consulted.
   */
  function DateLabel(bag: TagBag): (r: Option<string>)
    ensures r.Some? <==> bag.dateTimeOriginal.Some? && Truthy(bag.dateTimeOriginal.value.description)
    ensures r.Some? ==> r.value == bag.dateTimeOriginal.value.description.value
  {
    if bag.dateTimeOriginal.Some? && Truthy(bag.dateTimeOriginal.value.description)
    then bag.dateTimeOriginal.value.description else None
  }

  // ---------------------------------------------------------------------------
  // Position
  // ---------------------------------------------------------------------------

  predicate InRange(c: Coords)
  {
    -90.0 <= c.lat <= 90.0 && -180.0 <= c.lon <= 180.0
  }

  /** `Ref.description` when it is a string, else `Ref?.value?.[0] || 'N'` (raw branch). */
  function RawRef(bag: TagBag, axis: GpsUtils.Axis): (r: string)
  {
    var ref := GpsUtils.RefTagOf(bag, axis);
    if ref.Some? && ref.value.description.Some? then ref.value.description.value
    else if ref.Some? && ref.value.First().Some? && ref.value.First().value != "" then ref.value.First().value
    else GpsUtils.DefaultRef(axis)
  }

  /**
   * The hemisphere test of both fallbacks in `formatMetadata`: the word, or the
   * letter followed by a space, anywhere in the text.
   */
  predicate NegativeWords(text: string, axis: GpsUtils.Axis)
  {
    Contains(Lower(text), GpsUtils.HemisphereWord(axis)) ||
    Contains(Lower(text), GpsUtils.HemisphereLetter(axis) + " ")
  }

  /** The first fallback's test: the words, or the reference tag. */
  predicate LooseNegative(text: string, bag: TagBag, axis: GpsUtils.Axis)
  {
    NegativeWords(text, axis) || GpsUtils.RefSaysNegative(bag, axis)
  }

  /** The second fallback's test: the words, or the raw reference read as one letter. */
  predicate RawNegative(text: string, ref: string, axis: GpsUtils.Axis)
  {
    NegativeWords(text, axis) || Lower(ref) == GpsUtils.HemisphereLetter(axis)
  }

  /** The first numeric tokens of both texts, each negated when its test says so. */
  function SignedTokens(lat: string, latNegative: bool, lon: string, lonNegative: bool): Coords
    requires FirstToken(lat).Some? && FirstToken(lon).Some?
  {
    Coords(GpsUtils.Signed(latNegative, FirstToken(lat).value.Value()),
           GpsUtils.Signed(lonNegative, FirstToken(lon).value.Value()))
  }

  /**
   * The parse both fallbacks share: a position exactly when both texts hold a
   * numeric token and the signed tokens are within range.
   */
  function TokenPosition(lat: string, latNegative: bool, lon: string, lonNegative: bool): (r: Option<Coords>)
    ensures r.Some? <==> FirstToken(lat).Some? && FirstToken(lon).Some? &&
                         InRange(SignedTokens(lat, latNegative, lon, lonNegative))
    ensures r.Some? ==> r.value == SignedTokens(lat, latNegative, lon, lonNegative)
  {
    if FirstToken(lat).Some? && FirstToken(lon).Some? && InRange(SignedTokens(lat, latNegative, lon, lonNegative))
    then Some(SignedTokens(lat, latNegative, lon, lonNegative)) else None
  }

  /** Lines 39-72: the first fallback on the two descriptions (absent ones read as ""). */
  function Loose(bag: TagBag): Option<Coords>
    requires bag.gpsLatitude.Some? && bag.gpsLongitude.Some?
  {
    var lat := OrEmpty(bag.gpsLatitude.value.description);
    var lon := OrEmpty(bag.gpsLongitude.value.description);
    TokenPosition(lat, LooseNegative(lat, bag, GpsUtils.Latitude), lon, LooseNegative(lon, bag, GpsUtils.Longitude))
  }

  /**
   * The position `formatMetadata` reports: `parseGPS`'s, or else the first
   * fallback's when both GPS tags are present.
   */
  function Position(bag: TagBag): (r: Option<Coords>)
    ensures GpsUtils.Resolve(bag).Some? ==> r == GpsUtils.Resolve(bag)
    ensures r.Some? ==> bag.gpsLatitude.Some? && bag.gpsLongitude.Some?
  {
    if GpsUtils.Resolve(bag).Some? then GpsUtils.Resolve(bag)
    else if bag.gpsLatitude.Some? && bag.gpsLongitude.Some? then Loose(bag)
    else None
  }

  /** Both descriptions are non-empty strings: the raw label can be shown. */
  predicate BothDescribed(bag: TagBag)
  {
    bag.gpsLatitude.Some? && Truthy(bag.gpsLatitude.value.description) &&
    bag.gpsLongitude.Some? && Truthy(bag.gpsLongitude.value.description)
  }

  /**
   * The position label: decimal degrees of the reported position with the
   * references, else both raw descriptions with the raw references, else none.
   */
  function GpsText(bag: TagBag): (r: Option<GpsLabel>)
    ensures r.Some? <==> Position(bag).Some? || BothDescribed(bag)
    ensures r.Some? ==> (r.value.Decimal? <==> Position(bag).Some?)
    ensures Position(bag).Some? ==>
      r.value.absLat == Abs(Position(bag).value.lat) && r.value.absLon == Abs(Position(bag).value.lon) &&
      r.value.latRef == GpsUtils.ScalarRef(bag, GpsUtils.Latitude) &&
      r.value.lonRef == GpsUtils.ScalarRef(bag, GpsUtils.Longitude)
    ensures r.Some? && r.value.Verbatim? ==>
      r.value.text == bag.gpsLatitude.value.description.value + RawRef(bag, GpsUtils.Latitude) + ", " +
                      bag.gpsLongitude.value.description.value + RawRef(bag, GpsUtils.Longitude)
  {
    var c := Position(bag);
    if c.Some? then
      Some(Decimal(Abs(c.value.lat), GpsUtils.ScalarRef(bag, GpsUtils.Latitude),
                   Abs(c.value.lon), GpsUtils.ScalarRef(bag, GpsUtils.Longitude)))
    else if BothDescribed(bag) then
      var lat := bag.gpsLatitude.value.description.value;
      var lon := bag.gpsLongitude.value.description.value;
      Some(Verbatim(lat + RawRef(bag, GpsUtils.Latitude) + ", " + lon + RawRef(bag, GpsUtils.Longitude)))
    else None
  }

  /**
   * Lines 39-72: the first token of each description, signed by the looser
   * hemisphere test (also "s " / "w "), accepted only within range.
   */
  method LooseFallback(bag: TagBag) returns (r: Option<Coords>)
    requires bag.gpsLatitude.Some? && bag.gpsLongitude.Some?
    ensures r == Loose(bag)
    ensures var lat := OrEmpty(bag.gpsLatitude.value.description);
      var lon := OrEmpty(bag.gpsLongitude.value.description);
      var latNegative := LooseNegative(lat, bag, GpsUtils.Latitude);
      var lonNegative := LooseNegative(lon, bag, GpsUtils.Longitude);
      (r.Some? <==> FirstToken(lat).Some? && FirstToken(lon).Some? &&
                    InRange(SignedTokens(lat, latNegative, lon, lonNegative))) &&
      (r.Some? ==> r.value == SignedTokens(lat, latNegative, lon, lonNegative))
  {
    r := None;
    var latDesc := OrEmpty(bag.gpsLatitude.value.description);
    var lonDesc := OrEmpty(bag.gpsLongitude.value.description);
    var latMatch := FirstToken(latDesc);
    var lonMatch := FirstToken(lonDesc);
    if latMatch.Some? && lonMatch.Some? {
      var parsedLat := latMatch.value.Value();
      var parsedLon := lonMatch.value.Value();
      var isSouth := Contains(Lower(latDesc), "south") || Contains(Lower(latDesc), "s ") ||
                     GpsUtils.RefSaysNegative(bag, GpsUtils.Latitude);
      var isWest := Contains(Lower(lonDesc), "west") || Contains(Lower(lonDesc), "w ") ||
                    GpsUtils.RefSaysNegative(bag, GpsUtils.Longitude);
      if isSouth { parsedLat := -parsedLat; }
      if isWest { parsedLon := -parsedLon; }
      assert Coords(parsedLat, parsedLon) == SignedTokens(latDesc, isSouth, lonDesc, isWest);
      if InRange(Coords(parsedLat, parsedLon)) {
        r := Some(Coords(parsedLat, parsedLon));
      }
      assert r == TokenPosition(latDesc, isSouth, lonDesc, isWest);
      assert isSouth == LooseNegative(latDesc, bag, GpsUtils.Latitude) by { HemisphereTexts(); }
      assert isWest == LooseNegative(lonDesc, bag, GpsUtils.Longitude) by { HemisphereTexts(); }
    }
  }

  /** The words and letters both fallbacks search for. */
  lemma HemisphereTexts()
    ensures GpsUtils.HemisphereWord(GpsUtils.Latitude) == "south" && GpsUtils.HemisphereLetter(GpsUtils.Latitude) + " " == "s "
    ensures GpsUtils.HemisphereWord(GpsUtils.Longitude) == "west" && GpsUtils.HemisphereLetter(GpsUtils.Longitude) + " " == "w "
    ensures GpsUtils.HemisphereLetter(GpsUtils.Latitude) == "s" && GpsUtils.HemisphereLetter(GpsUtils.Longitude) == "w"
  {
  }

  /** Lines 97-119: the same parse of the raw descriptions, with the raw references. */
  method RawFallback(lat: string, latRef: string, lon: string, lonRef: string) returns (r: Option<Coords>)
    ensures r == TokenPosition(lat, RawNegative(lat, latRef, GpsUtils.Latitude), lon, RawNegative(lon, lonRef, GpsUtils.Longitude))
    ensures var latNegative := RawNegative(lat, latRef, GpsUtils.Latitude);
      var lonNegative := RawNegative(lon, lonRef, GpsUtils.Longitude);
      (r.Some? <==> FirstToken(lat).Some? && FirstToken(lon).Some? &&
                    InRange(SignedTokens(lat, latNegative, lon, lonNegative))) &&
      (r.Some? ==> r.value == SignedTokens(lat, latNegative, lon, lonNegative))
  {
    r := None;
    var latMatch := FirstToken(lat);
    var lonMatch := FirstToken(lon);
    if latMatch.Some? && lonMatch.Some? {
      var parsedLat := latMatch.value.Value();
      var parsedLon := lonMatch.value.Value();
      var isSouth := Contains(Lower(lat), "south") || Contains(Lower(lat), "s ") || Lower(latRef) == "s";
      var isWest := Contains(Lower(lon), "west") || Contains(Lower(lon), "w ") || Lower(lonRef) == "w";
      if isSouth { parsedLat := -parsedLat; }
      if isWest { parsedLon := -parsedLon; }
      assert Coords(parsedLat, parsedLon) == SignedTokens(lat, isSouth, lon, isWest);
      if InRange(Coords(parsedLat, parsedLon)) {
        r := Some(Coords(parsedLat, parsedLon));
      }
      assert r == TokenPosition(lat, isSouth, lon, isWest);
      assert isSouth == RawNegative(lat, latRef, GpsUtils.Latitude) by { HemisphereTexts(); }
      assert isWest == RawNegative(lon, lonRef, GpsUtils.Longitude) by { HemisphereTexts(); }
    }
  }

  /**
   * The range check is symmetric in sign, so whether the shared parse finds a
   * position does not depend on the hemisphere tests.
   */
  lemma SignsDoNotDecide(lat: string, n1: bool, m1: bool, lon: string, n2: bool, m2: bool)
    ensures TokenPosition(lat, n1, lon, n2).Some? == TokenPosition(lat, m1, lon, m2).Some?
  {
  }

  /**
   * The raw fallback never adds a position: it runs only after the first
   * fallback found none, on the same two descriptions.
   */
  lemma RawAddsNothing(bag: TagBag)
    requires bag.gpsLatitude.Some? && bag.gpsLongitude.Some? && Loose(bag).None?
    ensures forall latRef, lonRef ::
      TokenPosition(OrEmpty(bag.gpsLatitude.value.description), RawNegative(OrEmpty(bag.gpsLatitude.value.description), latRef, GpsUtils.Latitude),
                    OrEmpty(bag.gpsLongitude.value.description), RawNegative(OrEmpty(bag.gpsLongitude.value.description), lonRef, GpsUtils.Longitude)).None?
  {
    var lat := OrEmpty(bag.gpsLatitude.value.description);
    var lon := OrEmpty(bag.gpsLongitude.value.description);
    forall latRef, lonRef
      ensures TokenPosition(lat, RawNegative(lat, latRef, GpsUtils.Latitude), lon, RawNegative(lon, lonRef, GpsUtils.Longitude)).None?
    {
      SignsDoNotDecide(lat, LooseNegative(lat, bag, GpsUtils.Latitude), RawNegative(lat, latRef, GpsUtils.Latitude),
                       lon, LooseNegative(lon, bag, GpsUtils.Longitude), RawNegative(lon, lonRef, GpsUtils.Longitude));
    }
  }

  /**
   * When the tags' values are numbers (or absent), the first fallback can
   * only act where `parseGPS` already succeeded: the reported position is
   * `parseGPS`'s.
   */
  lemma {:induction false} NumericValuesNoFallback(bag: TagBag)
    requires !GpsUtils.StructuredStage(bag, GpsUtils.Latitude).NonNumeric?
    requires !GpsUtils.StructuredStage(bag, GpsUtils.Longitude).NonNumeric?
    ensures Position(bag) == GpsUtils.Resolve(bag)
  {
    if GpsUtils.Resolve(bag).None? && bag.gpsLatitude.Some? && bag.gpsLongitude.Some? {
      var lat := OrEmpty(bag.gpsLatitude.value.description);
      var lon := OrEmpty(bag.gpsLongitude.value.description);
      if FirstToken(lat).Some? && FirstToken(lon).Some? {
        assert FirstToken("").None?;
        assert bag.gpsLatitude.value.description.Some? && bag.gpsLongitude.value.description.Some?;
        GpsUtils.DescriptionsSuffice(bag);
        assert false;
      }
    }
  }

  /**
   * An array whose first element is a rational pair makes `parseGPS` fail,
   * and the position is the first fallback's.
   */
  lemma PairValueFallsBack(bag: TagBag)
    requires bag.gpsLatitude.Some? && bag.gpsLongitude.Some?
    requires GpsUtils.StructuredStage(bag, GpsUtils.Latitude).NonNumeric? ||
             GpsUtils.StructuredStage(bag, GpsUtils.Longitude).NonNumeric?
    ensures Position(bag) == Loose(bag)
  {
    GpsUtils.NonNumericBlocks(bag);
  }

  /** "37.5" holds the token 37.5, and "127" the token 127. */
  lemma ExifReaderTokens()
    ensures FirstToken("37.5") == Some(Token("37", "5")) && Token("37", "5").Value() == 37.5
    ensures FirstToken("127") == Some(Token("127", "")) && Token("127", "").Value() == 127.0
  {
    var lat := "37.5";
    assert FindDigit(lat, 0) == 0;
    assert DigitRun(lat, 0) == 2 && DigitRun(lat, 3) == 4;
    assert lat[0..2] == "37" && lat[3..4] == "5";
    assert NatValue("37") == 37 by { assert "37"[..1] == "3"; }
    assert Shift(5.0, -1) == 0.5;
    var lon := "127";
    assert FindDigit(lon, 0) == 0;
    assert DigitRun(lon, 0) == 3;
    assert lon[0..3] == "127";
    assert NatValue("127") == 127 by { assert "127"[..2] == "12"; assert "12"[..1] == "1"; }
  }

  /**
   * Descriptions "37.5" and "127" with references that are not negative: the
   * first fallback finds (37.5, 127).
   */
  lemma NorthEastDescriptions(bag: TagBag)
    requires bag.gpsLatitude.Some? && bag.gpsLatitude.value.description == Some("37.5")
    requires bag.gpsLongitude.Some? && bag.gpsLongitude.value.description == Some("127")
    requires !GpsUtils.RefSaysNegative(bag, GpsUtils.Latitude) && !GpsUtils.RefSaysNegative(bag, GpsUtils.Longitude)
    ensures Loose(bag) == Some(Coords(37.5, 127.0))
  {
    ExifReaderTokens();
    HemisphereTexts();
    assert Lower("37.5") == "37.5" && Lower("127") == "127";
    NotContains("37.5", "s ");
    NotContains("37.5", "south");
    NotContains("127", "w ");
    NotContains("127", "west");
    assert !LooseNegative("37.5", bag, GpsUtils.Latitude);
    assert !LooseNegative("127", bag, GpsUtils.Longitude);
  }

  /**
   * The photo as ExifReader reports it, rational pairs and all: `parseGPS`
   * gives nothing, and `formatMetadata` reports (37.5, 127) from the
   * descriptions.
   */
  lemma ExifReaderPosition()
    ensures GpsUtils.Resolve(GpsUtils.ExifReaderBag).None?
    ensures Position(GpsUtils.ExifReaderBag) == Some(Coords(37.5, 127.0))
  {
    var bag := GpsUtils.ExifReaderBag;
    GpsUtils.ExifReaderNorthEast();
    PairValueFallsBack(bag);
    HemisphereTexts();
    assert Lower("N")[0] == 'n' && Lower("E")[0] == 'e';
    assert Lower("North latitude")[0] == 'n' && Lower("East longitude")[0] == 'e';
    NorthEastDescriptions(bag);
  }

  /** Without both GPS tags no position is reported. */
  lemma PositionNeedsBothTags(bag: TagBag)
    requires bag.gpsLatitude.None? || bag.gpsLongitude.None?
    ensures Position(bag).None?
  {
    GpsUtils.NeedsBothTags(bag);
  }

  /** A position that only the fallback found is within range. */
  lemma FallbackInRange(bag: TagBag)
    requires GpsUtils.Resolve(bag).None? && Position(bag).Some?
    ensures InRange(Position(bag).value)
  {
  }

  /**
   * `formatMetadata`. The position is `parseGPS`'s, else the first fallback's
   * (which acts only when a tag's value is not a number, see
   * `NumericValuesNoFallback`); the raw fallback never adds one. The exposure
   * summary is the intended join (see `ExifAsWritten` for the source's
   * regular expressions).
   */
  method FormatMetadata(bag: TagBag) returns (m: Display)
    ensures m.camera == CameraLabel(bag)
    ensures m.exif == ExifLabel(bag)
    ensures m.date == DateLabel(bag)
    ensures m.gpsCoords == Position(bag)
    ensures m.gps == GpsText(bag)
  {
    var camera: Option<string> := None;
    if bag.make.Some? || bag.model.Some? {
      camera := Some(Trim(OrEmpty(DescriptionOf(bag.make)) + " " + OrEmpty(DescriptionOf(bag.model))));
    }

    var exif: Option<string> := None;
    var focalLength := DescriptionOf(bag.focalLength);
    var exposureTime := DescriptionOf(bag.exposureTime);
    var fNumber := DescriptionOf(bag.fNumber);
    if Truthy(focalLength) || Truthy(exposureTime) || Truthy(fNumber) {
      exif := Some(ExifSummary(OrEmpty(focalLength), OrEmpty(exposureTime), OrEmpty(fNumber)));
    }

    var date: Option<string> := None;
    if bag.dateTimeOriginal.Some? {
      var dateStr := bag.dateTimeOriginal.value.description;
      if Truthy(dateStr) {
        date := dateStr;
      }
    }

    var gps, gpsCoords := FormatPosition(bag);
    m := Display(camera, exif, date, gps, gpsCoords);
  }

  /** Lines 35-121 of `formatMetadata`: the position and its label. */
  method FormatPosition(bag: TagBag) returns (gps: Option<GpsLabel>, gpsCoords: Option<Coords>)
    ensures gpsCoords == Position(bag)
    ensures gps == GpsText(bag)
  {
    gpsCoords := GpsUtils.ParseGps(bag);
    if gpsCoords.None? && bag.gpsLatitude.Some? && bag.gpsLongitude.Some? {
      var parsed := LooseFallback(bag);
      if parsed.Some? {
        gpsCoords := parsed;
      }
    }

    gps := None;
    if gpsCoords.Some? {
      var latRef := GpsUtils.ScalarRef(bag, GpsUtils.Latitude);
      var lonRef := GpsUtils.ScalarRef(bag, GpsUtils.Longitude);
      gps := Some(Decimal(Abs(gpsCoords.value.lat), latRef, Abs(gpsCoords.value.lon), lonRef));
    } else if bag.gpsLatitude.Some? && bag.gpsLongitude.Some? {
      var lat := OrEmpty(bag.gpsLatitude.value.description);
      var lon := OrEmpty(bag.gpsLongitude.value.description);
      var latRef := RawRef(bag, GpsUtils.Latitude);
      var lonRef := RawRef(bag, GpsUtils.Longitude);
      if lat != "" && lon != "" {
        gps := Some(Verbatim(lat + latRef + ", " + lon + lonRef));
        var raw := RawFallback(lat, latRef, lon, lonRef);
        RawAddsNothing(bag);
        if raw.Some? {
          gpsCoords := raw;
        }
      }
    }
  }
}
