/** `get_nearby_places` and `print_nearby_places`: the places-search request
    for a site and the lines printed for its results. The JSON response is
    given already taken apart: each key the program reads is an `Option`. */
module Places {
  import opened Wrappers
  import opened Fingerprint
  import opened RequestCache
  import opened NationalSites
  import opened Nps

  const PlacesUrl: string := "http://www.mapquestapi.com/search/v2/radius"

  /** The query parameters of `get_nearby_places`, in insertion order, each
      value as the request renders it. */
  function NearbyParams(apiKey: string, site: NationalSite): (p: Params)
    ensures IsDict(p)
    ensures |p| == 7 && p[1] == ("origin", site.zipcode)
  {
    [("key", apiKey), ("origin", site.zipcode), ("radius", "10.0"), ("units", "m"),
     ("maxMatches", "10"), ("ambiguities", "ignore"), ("outFormat", "json")]
  }

  /** Two sites with the same postal code share one cache entry for their
      nearby places. */
  lemma SameZipSameRequestKey(apiKey: string, s: NationalSite, t: NationalSite)
    requires s.zipcode == t.zipcode
    ensures UniqueKey(PlacesUrl, Some(NearbyParams(apiKey, s))) == UniqueKey(PlacesUrl, Some(NearbyParams(apiKey, t)))
  {
  }

  /** A page key and the key of any places request never coincide, so pages
      and places responses can share one cache dictionary without clashing. */
  lemma PageAndPlacesKeysDiffer(href: string, params: Option<Params>)
    ensures UniqueKey(Resolve(href), None) != UniqueKey(PlacesUrl, params)
  {
    ResolveParts(href);
    assert Resolve(href)[4] == BaseUrl[4] == 's';
    assert PlacesUrl[4] == ':';
    BasesDifferKeysDiffer(Resolve(href), None, PlacesUrl, params, 4);
  }

  /** The fields of one search result that the program reads. */
  datatype PlaceFields = PlaceFields(
    name: Option<string>,
    category: Option<string>,   // `group_sic_code_name`
    address: Option<string>,
    city: Option<string>)

  datatype SearchResult = SearchResult(fields: Option<PlaceFields>)

  /** The decoded places-search response. */
  datatype PlacesResponse = PlacesResponse(searchResults: Option<seq<SearchResult>>)

  /** `get_nearby_places`: the places-search request through the cache. */
  function GetNearbyPlaces(apiKey: string, site: NationalSite, cache: Cache<PlacesResponse>,
                           fetch: (string, Option<Params>) -> PlacesResponse): (r: Outcome<PlacesResponse>)
    ensures var params := Some(NearbyParams(apiKey, site));
      var key := UniqueKey(PlacesUrl, params);
      && UpdatedOnlyAt(cache, r.cache, key, r.response)
      && (key in cache ==> r.response == cache[key] && r.cache == cache && r.saved == None)
      && (key !in cache ==> r.response == fetch(PlacesUrl, params) && r.saved == Some(r.cache))
  {
    RequestUsingCache(PlacesUrl, cache, Some(NearbyParams(apiKey, site)), fetch)
  }

  /** The key `print_nearby_places` indexes that is missing: each raises
      `KeyError` in the program. */
  datatype PlacesError = MissingSearchResults | MissingFields(index: nat) | MissingName(index: nat)

  /** A field's value, or the placeholder when the key is absent or the value empty. */
  function NonEmptyOr(o: Option<string>, placeholder: string): (r: string)
    // the printed text is the field's own non-empty value or the placeholder
    ensures r == placeholder || (o == Some(r) && r != "")
    // so a field is never printed blank
    ensures placeholder != "" ==> r != ""
    // and a value that is there and not empty is never replaced
    ensures o.Some? && o.value != "" ==> r == o.value
  {
    if o.Some? && o.value != "" then o.value else placeholder
  }

  /** `"- " + name + " (" + category + ") : " + address + ", " + city`. */
  function PlaceLine(name: string, f: PlaceFields): string {
    "- " + name + " (" + NonEmptyOr(f.category, "no category") + ") : "
      + NonEmptyOr(f.address, "no address") + ", " + NonEmptyOr(f.city, "no city")
  }

  /** A result the loop can format: it has `fields`, and they have `name`. */
  predicate Formattable(r: SearchResult) {
    r.fields.Some? && r.fields.value.name.Some?
  }

  function LineOf(r: SearchResult): string
    requires Formattable(r)
  {
    PlaceLine(r.fields.value.name.value, r.fields.value)
  }

  /** `print_nearby_places` on a response: one line per search result, in
      order, or the first missing key. */
  method FormatNearbyPlaces(resp: PlacesResponse) returns (r: Result<seq<string>, PlacesError>)
    ensures resp.searchResults.None? ==> r == Failure(MissingSearchResults)
    ensures resp.searchResults.Some? ==>
      var results := resp.searchResults.value;
      && (r.Success? <==> forall i :: 0 <= i < |results| ==> Formattable(results[i]))
      && (r.Success? ==>
            && |r.value| == |results|
            && (forall i :: 0 <= i < |results| ==> r.value[i] == LineOf(results[i])))
      && (r.Failure? ==> r.error.MissingFields? || r.error.MissingName?)
      && (r.Failure? && r.error.MissingFields? ==>
            r.error.index < |results| && results[r.error.index].fields.None?
            && forall j :: 0 <= j < r.error.index ==> Formattable(results[j]))
      && (r.Failure? && r.error.MissingName? ==>
            r.error.index < |results| && results[r.error.index].fields.Some?
            && results[r.error.index].fields.value.name.None?
            && forall j :: 0 <= j < r.error.index ==> Formattable(results[j]))
  {
    if resp.searchResults.None? {
      return Failure(MissingSearchResults);
    }
    var results := resp.searchResults.value;
    var lines: seq<string> := [];
    var i := 0;
    while i < |results|
      invariant 0 <= i <= |results|
      invariant |lines| == i
      invariant forall j :: 0 <= j < i ==> Formattable(results[j]) && lines[j] == LineOf(results[j])
    {
      var result := results[i];
      if result.fields.None? {
        return Failure(MissingFields(i));
      }
      if result.fields.value.name.None? {
        return Failure(MissingName(i));
      }
      lines := lines + [LineOf(result)];
      i := i + 1;
    }
    return Success(lines);
  }

  /** An empty field prints exactly like an absent one. */
  lemma EmptyFieldIsMissing(name: string, f: PlaceFields)
    ensures PlaceLine(name, f.(category := Some(""))) == PlaceLine(name, f.(category := None))
    ensures PlaceLine(name, f.(address := Some(""))) == PlaceLine(name, f.(address := None))
    ensures PlaceLine(name, f.(city := Some(""))) == PlaceLine(name, f.(city := None))
  {
  }

  /** The line starts with the name, as given, after the dash. */
  lemma LineStartsWithName(name: string, f: PlaceFields)
    ensures "- " + name + " (" <= PlaceLine(name, f)
  {
  }

  /** A result without a category formats with the category placeholder. */
  lemma CafeScenario()
    ensures LineOf(SearchResult(Some(PlaceFields(Some("Cafe X"), None, Some("123 Main"), Some("Springfield")))))
         == "- Cafe X (no category) : 123 Main, Springfield"
  {
    var f := PlaceFields(Some("Cafe X"), None, Some("123 Main"), Some("Springfield"));
    assert LineOf(SearchResult(Some(f))) == PlaceLine("Cafe X", f);
    assert NonEmptyOr(f.category, "no category") == "no category";
    assert NonEmptyOr(f.address, "no address") == "123 Main";
    assert NonEmptyOr(f.city, "no city") == "Springfield";
    // string literals are joined two at a time, left to right, as the line is built
    assert "- " + "Cafe X" == "- Cafe X";
    assert "- Cafe X" + " (" == "- Cafe X (";
    assert "- Cafe X (" + "no category" == "- Cafe X (no category";
    assert "- Cafe X (no category" + ") : " == "- Cafe X (no category) : ";
    assert "- Cafe X (no category) : " + "123 Main" == "- Cafe X (no category) : 123 Main";
    assert "- Cafe X (no category) : 123 Main" + ", " == "- Cafe X (no category) : 123 Main, ";
    assert "- Cafe X (no category) : 123 Main, " + "Springfield"
        == "- Cafe X (no category) : 123 Main, Springfield";
  }
}
