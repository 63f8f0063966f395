/**
 * Reverse geocoding (src/utils/geocodingUtils.js): turning a Nominatim
 * reverse-lookup response into one address line, and the in-memory cache
 * keyed by the rounded position. The fetch is not modelled: its outcome is a
 * parameter, `None` standing for a failed request, a non-ok status or a body
 * that is not JSON.
 */
module GeocodingUtils {
  import opened Wrappers

  /** The `address` object of a response; absent fields are `None`. */
  datatype Address = Address(
    country: Option<string>, province: Option<string>, state: Option<string>,
    city: Option<string>, county: Option<string>, suburb: Option<string>,
    town: Option<string>, village: Option<string>, neighbourhood: Option<string>,
    road: Option<string>)

  /** The parts of a response the formatter reads. */
  datatype Response = Response(address: Option<Address>, displayName: Option<string>)

  /** A field is truthy when it is present and not the empty string. */
  predicate Truthy(o: Option<string>)
  {
    o.Some? && o.value != ""
  }

  /** JavaScript's `a || b` on two optional strings. */
  function Or(a: Option<string>, b: Option<string>): (r: Option<string>)
    ensures Truthy(r) <==> Truthy(a) || Truthy(b)
    ensures Truthy(a) ==> r == a
    ensures !Truthy(a) ==> r == b
  {
    if Truthy(a) then a else b
  }

  /** `if (x) parts.push(x)`. */
  function Push(parts: seq<string>, o: Option<string>): (r: seq<string>)
    ensures Truthy(o) ==> r == parts + [o.value]
    ensures !Truthy(o) ==> r == parts
    ensures |r| <= |parts| + 1
  {
    if Truthy(o) then parts + [o.value] else parts
  }

  predicate IsKorea(a: Address)
  {
    a.country == Some("대한민국") || a.country == Some("South Korea")
  }

  /** The values an address holds. */
  predicate FieldOf(a: Address, s: string)
  {
    Some(s) in [a.country, a.province, a.state, a.city, a.county, a.suburb, a.town,
                a.village, a.neighbourhood, a.road]
  }

  /** The Korean order: province, city, county, district, neighbourhood, road. */
  function KoreanParts(a: Address): (r: seq<string>)
    ensures |r| <= 6 && forall i :: 0 <= i < |r| ==> r[i] != "" && FieldOf(a, r[i])
  {
    var p := Push([], Or(a.province, a.state));
    var p := Push(p, a.city);
    var p := Push(p, a.county);
    var p := Push(p, Or(a.suburb, Or(a.town, a.village)));
    var p := Push(p, a.neighbourhood);
    Push(p, a.road)
  }

  /** The order for other countries: road, district, city, state, country. */
  function ForeignParts(a: Address): (r: seq<string>)
    ensures |r| <= 5 && forall i :: 0 <= i < |r| ==> r[i] != "" && FieldOf(a, r[i])
  {
    var p := Push([], a.road);
    var p := Push(p, Or(a.suburb, a.neighbourhood));
    var p := Push(p, Or(a.city, Or(a.town, a.village)));
    var p := Push(p, Or(a.state, a.province));
    Push(p, a.country)
  }

  /** The address parts in the order for the address's country. */
  function Parts(a: Address): (r: seq<string>)
    ensures IsKorea(a) ==> |r| <= 6
    ensures !IsKorea(a) ==> |r| <= 5
    ensures forall i :: 0 <= i < |r| ==> r[i] != "" && FieldOf(a, r[i])
  {
    if IsKorea(a) then KoreanParts(a) else ForeignParts(a)
  }

  /** `parts.join(sep)`. */
  function Join(parts: seq<string>, sep: string): string
  {
    if |parts| == 0 then ""
    else if |parts| == 1 then parts[0]
    else parts[0] + sep + Join(parts[1..], sep)
  }

  /** The address line for a response: the joined parts, else `display_name`, else empty. */
  function FormatAddress(data: Response): (r: string)
    ensures data.address.None? || Parts(data.address.value) == [] ==>
      r == (if Truthy(data.displayName) then data.displayName.value else "")
  {
    var joined := if data.address.Some? then Join(Parts(data.address.value), " ") else "";
    if joined == "" && Truthy(data.displayName) then data.displayName.value else joined
  }

  // ---------------------------------------------------------------------------
  // Properties of the formatter
  // ---------------------------------------------------------------------------

  /** Joining non-empty parts gives the empty string exactly when there are none. */
  lemma {:induction false} JoinEmpty(parts: seq<string>, sep: string)
    requires forall i :: 0 <= i < |parts| ==> parts[i] != ""
    ensures Join(parts, sep) == "" <==> parts == []
  {
    if |parts| > 1 {
      assert |Join(parts, sep)| >= |parts[0]| > 0;
    }
  }

  /** The result is empty exactly when the address yields no part and there is no display name. */
  lemma EmptyAddress(data: Response)
    ensures FormatAddress(data) == "" <==>
      (data.address.None? || Parts(data.address.value) == []) && !Truthy(data.displayName)
  {
    if data.address.Some? {
      JoinEmpty(Parts(data.address.value), " ");
    }
  }

  /** The display name is used only when the address yields no part. */
  lemma DisplayNameFallback(data: Response)
    requires data.address.Some? && Parts(data.address.value) != []
    ensures FormatAddress(data) == Join(Parts(data.address.value), " ")
  {
    JoinEmpty(Parts(data.address.value), " ");
  }

  /** A Korean address starts with its province (or state); a foreign one ends with its country. */
  lemma CoarseToFine(a: Address)
    ensures IsKorea(a) && Truthy(Or(a.province, a.state)) ==>
      Parts(a)[0] == Or(a.province, a.state).value
    ensures !IsKorea(a) && Truthy(a.country) ==> Parts(a)[|Parts(a)| - 1] == a.country.value
  {
  }

  /** A Korean address line never names the country itself unless another field repeats it. */
  lemma KoreaOmitsCountry(a: Address)
    requires IsKorea(a)
    requires a.country !in [a.province, a.state, a.city, a.county, a.suburb, a.town,
                            a.village, a.neighbourhood, a.road]
    ensures a.country.value !in Parts(a)
  {
  }

  // ---------------------------------------------------------------------------
  // Splitting the line back into its parts
  // ---------------------------------------------------------------------------

  /** The index of the first space in `s`, or `|s|`. */
  function FirstSpace(s: string): (i: nat)
    ensures i <= |s| && (i < |s| ==> s[i] == ' ')
    ensures forall j :: 0 <= j < i ==> s[j] != ' '
  {
    if s == "" then 0 else if s[0] == ' ' then 0 else 1 + FirstSpace(s[1..])
  }

  /** The space-separated words of `s`. */
  function Split(s: string): seq<string>
    decreases |s|
  {
    if s == "" then []
    else
      var i := FirstSpace(s);
      if i == |s| then [s] else [s[..i]] + Split(s[i + 1..])
  }

  predicate Word(p: string)
  {
    p != "" && ' ' !in p
  }

  lemma {:induction false} FirstSpaceAfterWord(p: string, rest: string)
    requires ' ' !in p
    ensures FirstSpace(p + " " + rest) == |p|
    decreases |p|
  {
    if p != "" {
      assert (p + " " + rest)[1..] == p[1..] + " " + rest;
      FirstSpaceAfterWord(p[1..], rest);
    }
  }

  /** Splitting a line joined from words gives the words back. */
  lemma {:induction false} SplitJoin(parts: seq<string>)
    requires forall i :: 0 <= i < |parts| ==> Word(parts[i])
    ensures Split(Join(parts, " ")) == parts
  {
    if |parts| == 1 {
      assert FirstSpace(parts[0]) == |parts[0]|;
    } else if |parts| > 1 {
      var s := Join(parts, " ");
      var rest := Join(parts[1..], " ");
      assert s == parts[0] + " " + rest;
      FirstSpaceAfterWord(parts[0], rest);
      assert s[..|parts[0]|] == parts[0];
      assert s[|parts[0]| + 1..] == rest;
      SplitJoin(parts[1..]);
      assert parts == [parts[0]] + parts[1..];
    }
  }

  /** An address whose fields are single words is recovered part by part from its line. */
  lemma LineRecoversParts(a: Address, displayName: Option<string>)
    requires forall i :: 0 <= i < |Parts(a)| ==> ' ' !in Parts(a)[i]
    ensures Split(FormatAddress(Response(Some(a), displayName))) ==
      if Parts(a) == [] && Truthy(displayName) then Split(displayName.value) else Parts(a)
  {
    JoinEmpty(Parts(a), " ");
    SplitJoin(Parts(a));
  }

  // ---------------------------------------------------------------------------
  // The cache
  // ---------------------------------------------------------------------------

  /**
   * `reverseGeocode` with its module-level cache. `requests` counts the
   * lookups sent to the service.
   */
  class Geocoder {
    var cache: map<string, string>
    var requests: nat

    constructor ()
      ensures cache == map[] && requests == 0
    {
      cache, requests := map[], 0;
    }

    /**
     * Looks up `key` (the position rounded to six decimals). A cached entry
     * is returned as it is, even an empty one, with no request. Otherwise a
     * request is made; its failure gives `None` and caches nothing, and its
     * response is formatted, cached and returned.
     */
    method Reverse(key: string, outcome: Option<Response>) returns (r: Option<string>)
      modifies this
      ensures key in old(cache) ==> r == Some(old(cache)[key]) && cache == old(cache) && requests == old(requests)
      ensures key !in old(cache) ==> requests == old(requests) + 1
      ensures key !in old(cache) && outcome.None? ==> r.None? && cache == old(cache)
      ensures key !in old(cache) && outcome.Some? ==>
        r == Some(FormatAddress(outcome.value)) && cache == old(cache)[key := FormatAddress(outcome.value)]
    {
      if key in cache {
        return Some(cache[key]);
      }
      requests := requests + 1;
      if outcome.None? {
        return None;
      }
      var address := FormatAddress(outcome.value);
      cache := cache[key := address];
      r := Some(address);
    }
  }

  /**
   * Two lookups of one position after a successful first one: the second is
   * answered from the cache with the same line, and one request is made in all.
   */
  method LookupTwice(key: string, response: Response, later: Option<Response>)
    returns (first: Option<string>, second: Option<string>, requests: nat)
    ensures first == Some(FormatAddress(response)) && second == first && requests == 1
  {
    var g := new Geocoder();
    first := g.Reverse(key, Some(response));
    second := g.Reverse(key, later);
    requests := g.requests;
  }

  /** A failed lookup is retried: the next lookup of the same position makes a new request. */
  method FailureRetried(key: string, response: Response)
    returns (first: Option<string>, second: Option<string>, requests: nat)
    ensures first.None? && second == Some(FormatAddress(response)) && requests == 2
  {
    var g := new Geocoder();
    first := g.Reverse(key, None);
    second := g.Reverse(key, Some(response));
    requests := g.requests;
  }
}
