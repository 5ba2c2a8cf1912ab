/** The parks website every scraped link is resolved against. */
module Nps {

  const BaseUrl: string := "https://www.nps.gov"

  /** `BASE_URL + href`: a site-relative link made absolute. */
  function Resolve(href: string): string {
    BaseUrl + href
  }

  /** A resolved URL is the base URL followed by the link, which can be read back. */
  lemma ResolveParts(href: string)
    ensures |Resolve(href)| == |BaseUrl| + |href|
    ensures BaseUrl <= Resolve(href)
    ensures Resolve(href)[|BaseUrl|..] == href
  {
  }

  /** Different links resolve to different URLs. */
  lemma ResolveInjective(a: string, b: string)
    requires Resolve(a) == Resolve(b)
    ensures a == b
  {
    ResolveParts(a);
    ResolveParts(b);
  }
}
