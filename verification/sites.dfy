/** `NationalSite`, its `info()` line, `get_site_instance` and
    `get_sites_for_state`. The HTML page is given already taken apart: each
    element the scraper looks for is an `Option` holding the element's text. */
module NationalSites {
  import opened Wrappers
  import opened Text
  import opened Nps
  import opened Fingerprint

  datatype NationalSite = NationalSite(
    category: string,
    name: string,
    address: string,
    zipcode: string,
    phone: string)

  /** `NationalSite.info()`: `name (category): address zipcode`. */
  function Info(s: NationalSite): (r: string)
    ensures |r| == |s.name| + |s.category| + |s.address| + |s.zipcode| + 6
    // read left to right: name, " (", category, "): ", address, " ", zipcode
    ensures var c := |s.name| + 2;
      var a := c + |s.category| + 3;
      var z := a + |s.address| + 1;
      && r[..|s.name|] == s.name && r[|s.name|..c] == " ("
      && r[c..c + |s.category|] == s.category && r[c + |s.category|..a] == "): "
      && r[a..z - 1] == s.address && r[z - 1..z] == " "
      && r[z..] == s.zipcode
  {
    s.name + " (" + s.category + "): " + s.address + " " + s.zipcode
  }

  /** The displayed line leaves the phone number out. */
  lemma InfoOmitsPhone(s: NationalSite, phone: string)
    ensures Info(s.(phone := phone)) == Info(s)
  {
  }

  /** Sites that differ only in their name have different lines. */
  lemma InfoDistinguishesNames(s: NationalSite, t: NationalSite)
    requires s.category == t.category && s.address == t.address && s.zipcode == t.zipcode
    requires s.name != t.name
    ensures Info(s) != Info(t)
  {
    var rest := " (" + s.category + "): " + s.address + " " + s.zipcode;
    assert Info(s) == s.name + rest && Info(t) == t.name + rest;
    assert Info(s)[..|s.name|] == s.name && Info(t)[..|t.name|] == t.name;
  }

  /** The header block: the anchor holding the name and the designation span. */
  datatype TitleBlock = TitleBlock(name: Option<string>, designation: Option<string>)

  /** The `vcard` contact block and the four spans read from it. */
  datatype ContactBlock = ContactBlock(
    locality: Option<string>,
    region: Option<string>,
    postalCode: Option<string>,
    telephone: Option<string>)

  /** What the scraper finds on a site page: each container may be absent. */
  datatype SitePage = SitePage(title: Option<TitleBlock>, contact: Option<ContactBlock>)

  /** The text of a found element, or the placeholder when it is absent. */
  function TextOr(o: Option<string>, placeholder: string): string {
    match o
    case Some(t) => t
    case None => placeholder
  }

  /** `get_site_instance`: the site a page describes. A missing element
      never fails; it becomes a fixed placeholder. */
  function GetSiteInstance(page: SitePage): (r: NationalSite)
    // every stored field is stripped
    ensures IsStripped(r.name) && IsStripped(r.category) && IsStripped(r.address)
    ensures IsStripped(r.zipcode) && IsStripped(r.phone)
    // no header block at all
    ensures page.title.None? ==> r.name == "no name" && r.category == "no type"
    // header block present: each of its two fields falls back on its own
    ensures page.title.Some? ==>
      && r.name == (if page.title.value.name.Some? then Strip(page.title.value.name.value) else "no name")
      && r.category == (if page.title.value.designation.Some? then Strip(page.title.value.designation.value) else "no type")
    // no contact block at all
    ensures page.contact.None? ==>
      r.address == "no address" && r.zipcode == "no zip code" && r.phone == "no phone"
    // contact block present: the address is "locality, region" stripped as a whole
    ensures page.contact.Some? ==>
      var c := page.contact.value;
      && r.address == Strip(TextOr(c.locality, "no location") + ", " + TextOr(c.region, "no state"))
      && r.zipcode == (if c.postalCode.Some? then Strip(c.postalCode.value) else "no zipcode")
      && r.phone == (if c.telephone.Some? then Strip(c.telephone.value) else "no phone")
  {
    var title := page.title;
    var contact := page.contact;
    NationalSite(
      category := if title.Some? then StrippedOr(title.value.designation, "no type") else "no type",
      name := if title.Some? then StrippedOr(title.value.name, "no name") else "no name",
      address := if contact.Some? then
          Strip(TextOr(contact.value.locality, "no location") + ", " + TextOr(contact.value.region, "no state"))
        else "no address",
      zipcode := if contact.Some? then StrippedOr(contact.value.postalCode, "no zipcode") else "no zip code",
      phone := if contact.Some? then StrippedOr(contact.value.telephone, "no phone") else "no phone")
  }

  /** `(element.text if element else placeholder).strip()`. The placeholder is
      used as it is, since stripping leaves every placeholder unchanged
      (`StripFixesPlaceholders`). */
  function StrippedOr(o: Option<string>, placeholder: string): (r: string)
    requires IsStripped(placeholder)
    ensures IsStripped(r)
    ensures o.Some? ==> r == Strip(o.value)
    ensures o.None? ==> r == placeholder
  {
    match o
    case Some(t) => Strip(t)
    case None => placeholder
  }

  /** The placeholders have no white space at either end, so stripping keeps them. */
  lemma StripFixesPlaceholders()
    ensures Strip("no name") == "no name" && Strip("no type") == "no type"
    ensures Strip("no address") == "no address" && Strip("no zip code") == "no zip code"
    ensures Strip("no zipcode") == "no zipcode" && Strip("no phone") == "no phone"
  {
    StripPadding("", "no name", "");
    StripPadding("", "no type", "");
    StripPadding("", "no address", "");
    StripPadding("", "no zip code", "");
    StripPadding("", "no zipcode", "");
    StripPadding("", "no phone", "");
  }

  /** A contact block with clean locality and region texts gives exactly
      "locality, region"; the placeholders are combined the same way, with
      no special case. */
  lemma AddressOfCleanFields(c: ContactBlock, page: SitePage)
    requires page.contact == Some(c)
    requires IsStripped(TextOr(c.locality, "no location")) && |TextOr(c.locality, "no location")| > 0
    requires IsStripped(TextOr(c.region, "no state")) && |TextOr(c.region, "no state")| > 0
    ensures GetSiteInstance(page).address == TextOr(c.locality, "no location") + ", " + TextOr(c.region, "no state")
  {
    var loc, reg := TextOr(c.locality, "no location"), TextOr(c.region, "no state");
    var a := loc + ", " + reg;
    assert a[0] == loc[0] && a[|a| - 1] == reg[|reg| - 1];
    StripPadding("", a, "");
    assert "" + a + "" == a;
  }

  /** The loop of `get_sites_for_state`: `f` applied to each element, in order. */
  method MapInOrder<A, B>(xs: seq<A>, f: A -> B) returns (ys: seq<B>)
    ensures |ys| == |xs|
    ensures forall i :: 0 <= i < |xs| ==> ys[i] == f(xs[i])
  {
    ys := [];
    var i := 0;
    while i < |xs|
      invariant 0 <= i <= |xs|
      invariant |ys| == i
      invariant forall k :: 0 <= k < i ==> ys[k] == f(xs[k])
    {
      ys := ys + [f(xs[i])];
      i := i + 1;
    }
  }

  /** `get_sites_for_state`: one site per row link, in page order, each read
      from the page at the link resolved against the base URL. `pageAt`
      stands for fetching a URL through the cache and taking the page apart. */
  method SitesForState(hrefs: seq<string>, pageAt: string -> SitePage) returns (sites: seq<NationalSite>)
    ensures |sites| == |hrefs|
    ensures forall i :: 0 <= i < |hrefs| ==> sites[i] == GetSiteInstance(pageAt(Resolve(hrefs[i])))
  {
    sites := MapInOrder(hrefs, href => GetSiteInstance(pageAt(Resolve(href))));
  }

  /** Each site page is fetched without parameters, so its cache key is its
      resolved URL: two different row links never share a cache entry. */
  lemma DistinctLinksDistinctKeys(a: string, b: string)
    requires a != b
    ensures UniqueKey(Resolve(a), None) != UniqueKey(Resolve(b), None)
  {
    if Resolve(a) == Resolve(b) {
      ResolveInjective(a, b);
    }
  }
}
