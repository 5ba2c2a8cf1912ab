# National park sites explorer: a Dafny model of its core

The program is a command-line explorer for U.S. National Park Service sites.
It scrapes `nps.gov` for the states and their sites, and it asks a places-search
API for points of interest near a chosen site. Every outbound request goes
through a cache. The cache is keyed by a fingerprint of the URL and its query
parameters, and it is saved to disk after every miss.

This project models the pure logic of `proj2_nps.py` as Dafny functions,
methods and lemmas:

- `Fingerprint` models `construct_unique_key`. Parameters are a dictionary in
  insertion order. Each is rendered `name_value`, the renderings are sorted and
  joined with `_`, and the result is appended to `baseurl + "_"`. `None` or an
  empty dictionary gives the bare base URL. The proofs show that the key does
  not depend on the order of insertion. They also show it is not unique, although
  its doc comment (line 57) claims it is: `{"a_b": "c"}` and `{"a": "b_c"}` collide.
- `Sorting` models `list.sort()` on strings as an insertion sort, using
  Python's code-point order (`Text.LexLe`). It proves that a sorted permutation
  is unique, so any correct sort gives the same list.
- `RequestCache` models `make_url_request_using_cache` and
  `make_url_request_using_cache_API`. They differ only in decoding the response
  as text or as JSON, so one function generic in the stored value models both.
  The HTTP fetch is a function parameter. `TryRequestUsingCache` is the same
  call with a fetch that can fail: the error propagates and nothing is stored
  or saved. The `saved` field records what
  `save_cache` writes. `RunRequests` strings calls together and counts how many
  go to the network.
- `NationalSites` models `NationalSite.info()` and the placeholder decision
  tree of `get_site_instance`. The page is given with each element already
  found or absent. It also models the in-order loop of `get_sites_for_state`.
- `StateDirectory` models the loop of `build_state_url_dict` and the
  state-name prompt of the main loop.
- `SiteMenu` models the numbered site listing and the selection check of the
  main loop.
- `Places` models the request parameters of `get_nearby_places` and the line
  formatting of `print_nearby_places`. It includes the `KeyError`s raised when
  `searchResults`, `fields` or `name` is missing.
- `Text` holds the string primitives these rely on: `lower`, `strip`,
  `isnumeric`/`int`, `str(n)`, `join` and string comparison. All are ASCII
  versions.

`get_site_instance` strips every stored field, including the placeholders.
The model uses each placeholder as it is. `NationalSites.StripFixesPlaceholders`
proves this is the same thing.

Two details of the code are kept as they are:
- The missing-postal-code placeholder is spelled `"no zipcode"` at line 253,
  when the contact block exists but has no postal code. It is spelled
  `"no zip code"` at line 261, when the contact block is absent.
- `build_state_url_dict()` is called at line 381, before the `try` block
  opens at line 383, so a failure while building the directory is not
  caught by the `except` at line 422.

## Model

| member | source | states |
|---|---|---|
| `Text.Strip` | proj2_nps.py:264-268 | The stored field has no white space at either end |
| `Text.StripSplit` | proj2_nps.py:264-268 | The input is white space, then the stripped result, then white space: only the ends are removed |
| `Text.StripPadding` | proj2_nps.py:264-268 | White space around an already stripped text is exactly what is removed, whatever its length |
| `Text.TrimRightPadding` | proj2_nps.py:264-268 | Trailing white space after a piece that does not end in white space is exactly what the right trim removes |
| `Text.TrimRightSplit` | proj2_nps.py:264-268 | The right trim removes only trailing white space |
| `Text.StripAllSpace` | proj2_nps.py:264-268 | A text of white space only strips to the empty string |
| `Text.StripIdempotent` | proj2_nps.py:264-268 | Stripping a stripped field changes nothing |
| `Text.Lower` | proj2_nps.py:379-380 | Each capital letter becomes its own small letter, at the same place in the alphabet, and every other character keeps its place, so white space and digits survive lowering |
| `Text.NatToString` | proj2_nps.py:392 | The printed site number is all digits, without a leading zero |
| `Text.NatToStringRoundTrip` | proj2_nps.py:392-398 | `int()` of the printed number gives back the number |
| `Text.LexLeReflexive` | proj2_nps.py:77 | Python's string comparison puts every string at most itself |
| `Text.LexLeTotal` | proj2_nps.py:77 | Any two strings are comparable, so the sort is well defined |
| `Text.LexLeAntisymmetric` | proj2_nps.py:77 | Two strings each at most the other are equal |
| `Text.LexLeTransitive` | proj2_nps.py:77 | The string comparison is transitive |
| `Sorting.Insert` | proj2_nps.py:77 | Inserting into a sorted list keeps it sorted and adds exactly that one element |
| `Sorting.Sort` | proj2_nps.py:77 | `sort()` leaves the rendered parameters in ascending order with the same elements |
| `Sorting.SortedHeadLeast` | proj2_nps.py:77 | The first element of a sorted list is at most every element in it |
| `Sorting.SortedUnique` | proj2_nps.py:77 | Two sorted lists with the same elements are identical, so the sort result does not depend on the algorithm |
| `Sorting.SortPermutationInvariant` | proj2_nps.py:75-77 | Sorting a rearranged list gives the same list |
| `Fingerprint.AsMap` | proj2_nps.py:75-76 | The dictionary holds exactly the names of its pairs, each with its own value when names are distinct |
| `Fingerprint.UniqueKey` | proj2_nps.py:72-81 | `None` or empty parameters give exactly the base URL; otherwise the key starts with the base URL and `_` |
| `Fingerprint.KeyFromSortedRendering` | proj2_nps.py:72-81 | With parameters, the key is the base URL, `_`, and the `name_value` renderings in any ascending order joined by `_` |
| `Fingerprint.RenderAllPermutation` | proj2_nps.py:75-76 | Rearranging the parameters rearranges their `name_value` renderings the same way |
| `Fingerprint.KeyOrderIndependent` | proj2_nps.py:72-81 | Permuting the parameter pairs never changes the key |
| `Fingerprint.DictCounts` | proj2_nps.py:75-76 | Each pair of a dictionary occurs exactly once in its items |
| `Fingerprint.SameDictSameKey` | proj2_nps.py:56-81 | Two dictionaries with equal contents give the same key, whatever their insertion order |
| `Fingerprint.BasesDifferKeysDiffer` | proj2_nps.py:72-81 | Base URLs that differ at some position give different keys whatever the parameters, since every key begins with its base URL |
| `Fingerprint.KeyCollision` | proj2_nps.py:56-58 | The key is not unique, contrary to the doc comment: two different dictionaries share one key |
| `RequestCache.RequestUsingCache` | proj2_nps.py:84-142 | Hit: stored value returned, cache unchanged, nothing saved. Miss: fetched value returned and stored under the key, only that entry added, updated cache saved |
| `RequestCache.TryRequestUsingCache` | proj2_nps.py:103-112 | When the fetch raises, a miss returns that error and the cache stays as it was. A hit never fetches. A successful miss stores the value under the key only and saves the updated cache |
| `RequestCache.TryAgreesWhenFetchSucceeds` | proj2_nps.py:103-112 | With a fetch that never fails, the fallible call gives the same outcome as the total one |
| `RequestCache.HitIgnoresFetch` | proj2_nps.py:103-106 | On a hit the outcome is the same for any fetch, so the network is never consulted |
| `RequestCache.MissAddsOneEntry` | proj2_nps.py:107-112 | A miss grows the cache by exactly one entry |
| `RequestCache.RepeatIsHit` | proj2_nps.py:103-112 | Repeating a request right after it is a hit with the same response and no save |
| `RequestCache.RunRequests` | proj2_nps.py:84-112 | A run of requests gives one response per request |
| `RequestCache.RunKeys` | proj2_nps.py:103-112 | After a run, the cache holds its old keys plus exactly the requested keys |
| `RequestCache.RunKeeps` | proj2_nps.py:103-112 | No entry the cache already held is ever changed |
| `RequestCache.RunAnswers` | proj2_nps.py:103-112 | Every request in a run is answered with what the cache holds for its key at the end |
| `RequestCache.RunFetchCount` | proj2_nps.py:103-112 | A run goes to the network once per distinct key not already cached |
| `RequestCache.FreshRunFetchesEachKeyOnce` | proj2_nps.py:103-112 | From an empty cache, the number of fetches is the number of distinct keys and at most the number of requests |
| `Nps.ResolveParts` | proj2_nps.py:200 | A resolved URL starts with the base URL and the link can be read back from the rest |
| `Nps.ResolveInjective` | proj2_nps.py:291 | Different links resolve to different URLs |
| `NationalSites.DistinctLinksDistinctKeys` | proj2_nps.py:218-291 | Two different site links never share a cache entry: each page's key is its resolved URL |
| `NationalSites.Info` | proj2_nps.py:173-174 | Read left to right, the line is the name, " (", the category, "): ", the address, one space and the postal code, and nothing else |
| `NationalSites.InfoOmitsPhone` | proj2_nps.py:173-174 | The phone number does not appear in the line |
| `NationalSites.InfoDistinguishesNames` | proj2_nps.py:173-174 | Sites differing only in name get different lines |
| `NationalSites.GetSiteInstance` | proj2_nps.py:205-269 | Each field is stripped. No header gives "no name"/"no type"; no contact block gives "no address"/"no zip code"/"no phone"; otherwise each missing span gets its own placeholder and the address is "locality, region" stripped as a whole |
| `NationalSites.StripFixesPlaceholders` | proj2_nps.py:220-268 | Stripping leaves each placeholder unchanged |
| `NationalSites.AddressOfCleanFields` | proj2_nps.py:236-248 | With clean locality and region, possibly placeholders, the address is exactly "locality, region" |
| `NationalSites.MapInOrder` | proj2_nps.py:289-293 | The loop yields one item per row, each computed from its own row, in row order |
| `NationalSites.SitesForState` | proj2_nps.py:272-293 | One site per row link, in page order, each read from the page at the base URL plus that link |
| `StateDirectory.BuildStateUrlDict` | proj2_nps.py:195-202 | The directory's names are exactly the lowercased link texts |
| `StateDirectory.LastLinkWins` | proj2_nps.py:197-202 | Each name maps to the base URL plus the href of the last link with that name: later duplicates overwrite |
| `StateDirectory.LastOf` | proj2_nps.py:197-202 | Every link has a last link with the same lowercased name |
| `StateDirectory.DirectoryUnderBase` | proj2_nps.py:200 | Every directory URL starts with the base URL |
| `StateDirectory.MichiganScenario` | proj2_nps.py:197-202 | A page listing Michigan at /state/mi/index.htm yields `{"michigan": base + "/state/mi/index.htm"}` |
| `StateDirectory.StatePromptStep` | proj2_nps.py:378-386 | "exit" in any case but unstripped quits; any other answer is stripped and lowercased and either finds that state's URL or is unknown |
| `StateDirectory.PaddedStateNameFound` | proj2_nps.py:379-384 | A known state typed in any letter case with white space around it finds its page |
| `SiteMenu.SiteListing` | proj2_nps.py:391-399 | One line per site in list order: "[", a label, "] " and the site's `info()`. The label of line i is i+1 in decimal, all digits without a leading zero, and typed at the selection prompt it selects exactly site i |
| `SiteMenu.SiteCommand` | proj2_nps.py:396-413 | "exit"/"back" in any case quit/go back. Otherwise the answer selects site n-1 iff it is all digits with value n in 1..N, and is invalid in every other case |
| `SiteMenu.DigitsAreNoCommand` | proj2_nps.py:396-397 | A numeric answer is never taken for "exit" or "back" |
| `SiteMenu.ListedNumberSelects` | proj2_nps.py:391-399 | Typing the number printed before a site selects exactly that site |
| `SiteMenu.OutOfRangeIsInvalid` | proj2_nps.py:397-410 | "0" and numbers above the list length are refused |
| `SiteMenu.PaddedNumberIsInvalid` | proj2_nps.py:396-413 | A number with surrounding white space is refused, since the answer is not stripped |
| `Places.NearbyParams` | proj2_nps.py:308-317 | Seven parameters with distinct names; the origin is the site's postal code |
| `Places.SameZipSameRequestKey` | proj2_nps.py:309-318 | Sites with the same postal code share one cache entry for nearby places |
| `Places.PageAndPlacesKeysDiffer` | proj2_nps.py:103-142 | A site-page key never equals a places-request key, so the one cache dictionary the program shares between pages and places responses never mixes the two |
| `Places.GetNearbyPlaces` | proj2_nps.py:295-319 | The request is keyed by the URL and the seven parameters. On a hit the cached response is returned, the cache is unchanged and nothing is saved. On a miss the fetched response is returned, stored under that key only, and the updated cache is saved |
| `Places.NonEmptyOr` | proj2_nps.py:342-364 | A printed field is never blank: it is the field's own non-empty value or the placeholder, and a value that is present and non-empty is never replaced |
| `Places.FormatNearbyPlaces` | proj2_nps.py:336-368 | Succeeds iff every result has fields and a name: one line per result, in order. Otherwise it fails at the first result lacking fields or name; missing `searchResults` fails first |
| `Places.EmptyFieldIsMissing` | proj2_nps.py:342-364 | An empty category, address or city prints exactly like an absent one |
| `Places.LineStartsWithName` | proj2_nps.py:365 | Every line starts with "- ", the name as given, and " (" |
| `Places.CafeScenario` | proj2_nps.py:339-365 | A result whose fields hold the name "Cafe X", no category, address "123 Main" and city "Springfield" formats as "- Cafe X (no category) : 123 Main, Springfield" |

## Left out

- `load_cache` and `save_cache` (lines 17-54) read and write a JSON file. They are not modelled. A miss records the saved copy in `Outcome.saved`, and the JSON round trip through the file is out of scope.
- `requests.get`, `.text`, `.json()`, `time.sleep(1)` and `secrets.API_KEY` are network, delay and credential side effects. The fetch is a function parameter and the API key a string parameter. The delay has no observable effect on the model.
- BeautifulSoup parsing is foreign code. Pages are given as `Option` fields, and state and site rows as lists of (text, href) or href. Errors from a missing navigation list or row anchor are not modelled.
- `NationalSites.SitesForState`: the page fetch for each site goes through the cache in the program. Here it is the parameter `pageAt`, so the cache threading across the site pages is not shown.
- `print`, `input` and the loop control of the `__main__` block are terminal I/O. So are the dashed headers and the broad `except` at line 422. Only the answer checks (`StatePromptStep`, `SiteCommand`) and the numbered listing are modelled.
- `Text.Lower` and `Text.Strip` are ASCII versions of Python's Unicode-aware `lower` and `strip`. Non-ASCII letters are not lowered and non-ASCII white space is not stripped.
- `SiteMenu.SiteCommand` accepts ASCII digits only. The program's `isnumeric()` also accepts other Unicode decimal digits, such as "３" or "٣", and `int()` reads them, so the program selects a site for such an answer where the model says `Invalid`. Other numerals, such as "²" or "½", pass `isnumeric()` but make `int()` raise `ValueError` at line 398. So does, on Python 3.11 and later, a digit string longer than 4300 characters. That error is caught by the `except` at line 422, which prints the state-name error and returns to the state prompt; the model does not show this path.
- `Places.NearbyParams` writes the values `10.0` and `10` as the strings the request sends. Python's `f"{v}"` rendering of numbers in the key is not modelled in general.
- `Places.FormatNearbyPlaces` assumes that the name, category, address and city values are strings. A JSON `null` name, category, address or city raises a `TypeError` at line 365 in the program. `PlaceFields` cannot represent a `null` value, since an absent key is `None`.
- `RequestCache.RequestUsingCache` and everything built on it (`RequestCache.RunRequests`, `Places.GetNearbyPlaces`, the page fetches) take a fetch that always succeeds. A failing fetch is modelled only for a single call, by `RequestCache.TryRequestUsingCache`. The program lets such an error propagate from lines 110 and 140 and stores nothing.
- `Places.GetNearbyPlaces`: the program keeps one cache dictionary, holding page HTML under page keys (line 110) and decoded JSON under places keys (line 140), and `save_cache` writes all of it at once. The model keeps one `Cache<V>` per kind of stored value, so the `saved` copy of a places request holds only places entries, and page fetches are the parameter `pageAt`. The split cannot change a lookup: page keys start with `https://www.nps.gov` and places keys with `http://www.mapquestapi.com/search/v2/radius`; they differ at the fifth character, so no key of one kind is a key of the other (`Places.PageAndPlacesKeysDiffer`). What the two halves write to disk together is not modelled.
- `Sorting.Sort` is an insertion sort, not Python's Timsort. `Sorting.SortedUnique` shows that any correct sort gives the same list.
