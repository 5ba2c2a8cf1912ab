/** `build_state_url_dict` and the state-name prompt of the main loop. */
module StateDirectory {
  import opened Text
  import opened Nps

  /** A link of the states navigation list: its text and its `href`. */
  type StateLink = (string, string)

  /** No later link lowers to the same state name as link `i`. */
  predicate LastWithName(links: seq<StateLink>, i: int)
    requires 0 <= i < |links|
  {
    forall j :: i < j < |links| ==> Lower(links[j].0) != Lower(links[i].0)
  }

  /** The loop of `build_state_url_dict`: each link's lowercased text maps to
      its resolved URL, a later link with the same name replacing an earlier one. */
  function BuildStateUrlDict(links: seq<StateLink>): (dir: map<string, string>)
    ensures forall name :: name in dir <==> exists i :: 0 <= i < |links| && Lower(links[i].0) == name
    decreases |links|
  {
    if |links| == 0 then map[]
    else
      var init := links[..|links| - 1];
      var last := links[|links| - 1];
      assert forall i :: 0 <= i < |init| ==> init[i] == links[i];
      BuildStateUrlDict(init)[Lower(last.0) := Resolve(last.1)]
  }

  /** The directory maps a state name to the URL of the last link with that
      name: a later duplicate overwrites an earlier one. */
  lemma {:induction false} LastLinkWins(links: seq<StateLink>, i: nat)
    requires i < |links| && LastWithName(links, i)
    ensures var dir := BuildStateUrlDict(links);
      Lower(links[i].0) in dir && dir[Lower(links[i].0)] == Resolve(links[i].1)
    decreases |links|
  {
    if i < |links| - 1 {
      var init := links[..|links| - 1];
      assert init[i] == links[i];
      assert LastWithName(init, i) by {
        forall j | i < j < |init| ensures Lower(init[j].0) != Lower(init[i].0) {
          assert init[j] == links[j];
        }
      }
      LastLinkWins(init, i);
    }
  }

  /** Every URL in the directory is under the base URL. */
  lemma DirectoryUnderBase(links: seq<StateLink>)
    ensures var dir := BuildStateUrlDict(links);
      forall name :: name in dir ==> BaseUrl <= dir[name]
  {
    var dir := BuildStateUrlDict(links);
    forall name | name in dir ensures BaseUrl <= dir[name] {
      var i :| 0 <= i < |links| && Lower(links[i].0) == name;
      var last := LastOf(links, i);
      LastLinkWins(links, last);
      ResolveParts(links[last].1);
    }
  }

  /** The last link whose name is the same as link `i`'s. */
  function LastOf(links: seq<StateLink>, i: nat): (k: nat)
    requires i < |links|
    ensures i <= k < |links| && Lower(links[k].0) == Lower(links[i].0) && LastWithName(links, k)
    decreases |links| - i
  {
    if exists j :: i < j < |links| && Lower(links[j].0) == Lower(links[i].0) then
      var j :| i < j < |links| && Lower(links[j].0) == Lower(links[i].0);
      LastOf(links, j)
    else i
  }

  /** The state prompt's answer: quit, the listing page of a known state, or
      an unknown name. */
  datatype StateStep = Quit | Listing(stateUrl: string) | UnknownState(name: string)

  /** One answer to the state prompt. "exit" is recognised in any letter
      case but only without surrounding white space; any other answer is
      stripped and lowercased before it is looked up. */
  function StatePromptStep(input: string, dir: map<string, string>): (r: StateStep)
    ensures r.Quit? <==> Lower(input) == "exit"
    ensures r.Listing? <==> Lower(input) != "exit" && Lower(Strip(input)) in dir
    ensures r.Listing? ==> r.stateUrl == dir[Lower(Strip(input))]
    ensures r.UnknownState? ==> r.name == Lower(Strip(input)) && r.name !in dir
  {
    if Lower(input) == "exit" then Quit
    else
      var name := Lower(Strip(input));
      if name in dir then Listing(dir[name]) else UnknownState(name)
  }

  /** A state typed in any letter case with white space around it finds that
      state's page. */
  lemma PaddedStateNameFound(dir: map<string, string>, pre: string, typed: string, post: string)
    requires AllSpace(pre) && AllSpace(post) && IsStripped(typed)
    requires Lower(typed) in dir && Lower(typed) != "exit"
    ensures StatePromptStep(pre + typed + post, dir) == Listing(dir[Lower(typed)])
  {
    var s := pre + typed + post;
    StripPadding(pre, typed, post);
    if |pre| > 0 {
      assert Lower(s)[0] == s[0] == pre[0];
      assert "exit"[0] == 'e';
    } else if |post| > 0 {
      assert Lower(s)[|s| - 1] == s[|s| - 1] == post[|post| - 1];
      assert "exit"[3] == 't';
    } else {
      assert s == typed;
    }
  }

  /** The page lists Michigan at /state/mi/index.htm: the directory maps
      "michigan" to the full URL. */
  lemma MichiganScenario()
    ensures BuildStateUrlDict([("Michigan", "/state/mi/index.htm")])
         == map["michigan" := "https://www.nps.gov/state/mi/index.htm"]
  {
    assert Lower("Michigan") == "michigan";
    assert Resolve("/state/mi/index.htm") == "https://www.nps.gov/state/mi/index.htm";
    var links: seq<StateLink> := [("Michigan", "/state/mi/index.htm")];
    assert links[..0] == [];
    assert BuildStateUrlDict(links) == map[][Lower("Michigan") := Resolve("/state/mi/index.htm")];
  }
}
