/** The site-list stage of the main loop: the numbered listing and the
    check applied to each answer to the selection prompt. */
module SiteMenu {
  import opened Text
  import opened NationalSites

  /** One line of the listing: the bracketed number, then the site's `info()`. */
  function ListingLine(n: nat, site: NationalSite): string {
    "[" + NatToString(n) + "] " + Info(site)
  }

  /** The label of a listing line whose text after `"] "` has length `tail`:
      what stands between the opening bracket and the closing one. */
  function Label(line: string, tail: nat): string
    requires |line| >= tail + 3
  {
    line[1..|line| - tail - 2]
  }

  /** `line` lists `site` as entry `n` (counting from 0) of a list of `count`
      sites: an opening bracket, a label, `"] "` and the site's `info()`.
      The label is the decimal rendering of `n + 1`, all digits without a
      leading zero, and typed at the selection prompt it selects entry `n`. */
  predicate ListedAs(line: string, site: NationalSite, n: nat, count: nat) {
    var tail := |Info(site)|;
    && |line| >= tail + 4 && line[0] == '['
    && line[|line| - tail - 2..] == "] " + Info(site)
    && IsNumeric(Label(line, tail)) && Label(line, tail)[0] != '0'
    && DigitsValue(Label(line, tail)) == n + 1
    && SiteCommand(Label(line, tail), count) == Select(n)
  }

  /** The listing printed for a state, numbered from 1: line `i` lists site
      `i`, so the number in front of a site selects exactly that site. */
  function SiteListing(sites: seq<NationalSite>): (lines: seq<string>)
    ensures |lines| == |sites|
    ensures forall i :: 0 <= i < |sites| ==> ListedAs(lines[i], sites[i], i, |sites|)
  {
    var lines := seq(|sites|, i requires 0 <= i < |sites| => ListingLine(i + 1, sites[i]));
    ListingLabelsSelect(sites, lines);
    lines
  }

  lemma ListingLabelsSelect(sites: seq<NationalSite>, lines: seq<string>)
    requires |lines| == |sites|
    requires forall i :: 0 <= i < |sites| ==> lines[i] == ListingLine(i + 1, sites[i])
    ensures forall i :: 0 <= i < |sites| ==> ListedAs(lines[i], sites[i], i, |sites|)
  {
    forall i | 0 <= i < |sites|
      ensures ListedAs(lines[i], sites[i], i, |sites|)
    {
      var d := NatToString(i + 1);
      var rest := "] " + Info(sites[i]);
      var line := lines[i];
      assert line == "[" + d + rest;
      assert |line| == 1 + |d| + |rest|;
      assert line[|line| - |rest|..] == rest;
      assert line[1..|line| - |rest|] == d;
      ListedNumberSelects(sites, i);
    }
  }

  /** What an answer to the selection prompt does. */
  datatype SiteChoice = Exit | Back | Select(index: nat) | Invalid

  /** One answer to the selection prompt when `count` sites are listed.
      "exit" and "back" are recognised in any letter case but without
      surrounding white space; otherwise the answer selects site `n - 1`
      exactly when it is all digits with value `n` in `1..count`. */
  function SiteCommand(input: string, count: nat): (c: SiteChoice)
    ensures c == Exit <==> Lower(input) == "exit"
    ensures c == Back <==> Lower(input) == "back"
    ensures c.Select? <==> IsNumeric(input) && 1 <= DigitsValue(input) <= count
    ensures c.Select? ==> c.index == DigitsValue(input) - 1 && c.index < count
  {
    if Lower(input) == "exit" then Exit
    else if Lower(input) == "back" then Back
    else if IsNumeric(input) && 0 <= DigitsValue(input) - 1 < count then Select(DigitsValue(input) - 1)
    else Invalid
  }

  /** A string of digits is neither "exit" nor "back" in any letter case. */
  lemma DigitsAreNoCommand(s: string)
    requires IsNumeric(s)
    ensures Lower(s) != "exit" && Lower(s) != "back"
  {
    assert Lower(s)[0] == s[0];
    assert "exit"[0] == 'e' && "back"[0] == 'b';
  }

  /** Typing the number printed in front of a listed site selects that site. */
  lemma ListedNumberSelects(sites: seq<NationalSite>, i: nat)
    requires i < |sites|
    ensures SiteCommand(NatToString(i + 1), |sites|) == Select(i)
  {
    NatToStringRoundTrip(i + 1);
    DigitsAreNoCommand(NatToString(i + 1));
  }

  /** A number outside `1..count` is refused, "0" included. */
  lemma OutOfRangeIsInvalid(n: nat, count: nat)
    requires n == 0 || n > count
    ensures SiteCommand(NatToString(n), count) == Invalid
  {
    NatToStringRoundTrip(n);
    DigitsAreNoCommand(NatToString(n));
  }

  /** A number with white space around it is refused: the answer is not stripped. */
  lemma PaddedNumberIsInvalid(pre: string, digits: string, post: string, count: nat)
    requires IsNumeric(digits) && AllSpace(pre) && AllSpace(post) && |pre| + |post| > 0
    ensures SiteCommand(pre + digits + post, count) == Invalid
  {
    var s := pre + digits + post;
    var k := if |pre| > 0 then 0 else |s| - 1;
    assert IsSpace(s[k]) && !IsDigit(s[k]);
    assert Lower(s)[k] == s[k];
    assert forall c :: c in "exit" + "back" ==> !IsSpace(c);
    assert Lower(s)[k] !in "exit" && Lower(s)[k] !in "back";
  }
}
