/** `construct_unique_key`: the cache key of a request, built from its base
    URL and its query parameters. */
module Fingerprint {
  import opened Wrappers
  import opened Text
  import opened Sorting

  /** A parameter dictionary as Python iterates it: (name, value) pairs in
      insertion order. Values are already rendered as strings. */
  type Params = seq<(string, string)>

  /** The pairs come from a dictionary: no name occurs twice. */
  predicate IsDict(p: Params) {
    forall i, j :: 0 <= i < j < |p| ==> p[i].0 != p[j].0
  }

  /** The dictionary the pairs describe; a later pair overrides an earlier one. */
  function AsMap(p: Params): (m: map<string, string>)
    ensures forall k :: k in m <==> exists i :: 0 <= i < |p| && p[i].0 == k
    ensures IsDict(p) ==> forall i :: 0 <= i < |p| ==> p[i].0 in m && m[p[i].0] == p[i].1
  {
    if |p| == 0 then map[]
    else
      var init := p[..|p| - 1];
      assert forall i :: 0 <= i < |init| ==> init[i] == p[i];
      AsMap(init)[p[|p| - 1].0 := p[|p| - 1].1]
  }

  /** The separator between the base URL, the parameters, and a name and its value. */
  const Connector: string := "_"

  /** `f"{key}_{params[key]}"`. */
  function Render(kv: (string, string)): string {
    kv.0 + Connector + kv.1
  }

  /** The rendering of each pair, in insertion order. */
  function RenderAll(p: Params): seq<string> {
    seq(|p|, i requires 0 <= i < |p| => Render(p[i]))
  }

  /** `params` is falsy in Python: `None` or an empty dictionary. */
  predicate NoParams(params: Option<Params>) {
    params.None? || |params.value| == 0
  }

  /** The cache key of a request to `baseurl` with `params`. */
  function UniqueKey(baseurl: string, params: Option<Params>): (key: string)
    ensures NoParams(params) ==> key == baseurl
    ensures !NoParams(params) ==> baseurl + Connector <= key
  {
    if NoParams(params) then baseurl
    else baseurl + Connector + Join(Connector, Sort(RenderAll(params.value)))
  }

  /** With parameters, the key is the base URL, the connector, and the
      rendered parameters in ascending order joined by the connector --
      whatever way of ordering them is used. */
  lemma KeyFromSortedRendering(baseurl: string, p: Params, s: seq<string>)
    requires |p| > 0
    requires Sorted(s) && multiset(s) == multiset(RenderAll(p))
    ensures UniqueKey(baseurl, Some(p)) == baseurl + Connector + Join(Connector, s)
  {
    SortedUnique(Sort(RenderAll(p)), s);
  }

  /** Taking the element at `k` out of `s`. */
  lemma RemoveAt<T>(s: seq<T>, k: nat)
    requires k < |s|
    ensures multiset(s) == multiset(s[..k] + s[k + 1..]) + multiset{s[k]}
  {
    assert s == s[..k] + [s[k]] + s[k + 1..];
  }

  /** Taking the pair at `k` out of `q` takes its rendering out of the renderings. */
  lemma RenderRemoveAt(q: Params, k: nat)
    requires k < |q|
    ensures multiset(q) == multiset(q[..k] + q[k + 1..]) + multiset{q[k]}
    ensures multiset(RenderAll(q)) == multiset(RenderAll(q[..k] + q[k + 1..])) + multiset{Render(q[k])}
  {
    var r := RenderAll(q);
    assert RenderAll(q[..k] + q[k + 1..]) == r[..k] + r[k + 1..];
    RemoveAt(q, k);
    RemoveAt(r, k);
  }

  /** Rearranging the parameters rearranges their renderings the same way. */
  lemma {:induction false} RenderAllPermutation(p: Params, q: Params)
    requires multiset(p) == multiset(q)
    ensures multiset(RenderAll(p)) == multiset(RenderAll(q))
    decreases |p|
  {
    if |p| == 0 {
      assert |multiset(q)| == 0;
    } else {
      var x := p[0];
      assert x in multiset(q);
      var k :| 0 <= k < |q| && q[k] == x;
      var rest := q[..k] + q[k + 1..];
      RenderRemoveAt(q, k);
      RenderRemoveAt(p, 0);
      assert p[..0] + p[1..] == p[1..];
      CancelOne(multiset(p[1..]), multiset(rest), x);
      RenderAllPermutation(p[1..], rest);
    }
  }

  /** The key does not depend on the order in which the parameters were inserted. */
  lemma KeyOrderIndependent(baseurl: string, p: Params, q: Params)
    requires multiset(p) == multiset(q)
    ensures UniqueKey(baseurl, Some(p)) == UniqueKey(baseurl, Some(q))
  {
    if |p| == 0 {
      assert |multiset(q)| == 0;
    } else {
      assert |q| == |multiset(q)|;
      RenderAllPermutation(p, q);
      SortPermutationInvariant(RenderAll(p), RenderAll(q));
    }
  }

  /** A dictionary's pairs occur once each. */
  lemma {:induction false} DictCounts(p: Params)
    requires IsDict(p)
    ensures forall x :: multiset(p)[x] == if x in p then 1 else 0
    decreases |p|
  {
    if |p| > 0 {
      var t := p[1..];
      assert IsDict(t);
      DictCounts(t);
      assert p == [p[0]] + t;
      assert p[0] !in t;
      forall x ensures multiset(p)[x] == if x in p then 1 else 0 {
        assert multiset(p)[x] == multiset{p[0]}[x] + multiset(t)[x];
      }
    }
  }

  /** Two dictionaries with the same contents give the same key, however
      their entries were inserted. */
  lemma SameDictSameKey(baseurl: string, p: Params, q: Params)
    requires IsDict(p) && IsDict(q) && AsMap(p) == AsMap(q)
    ensures UniqueKey(baseurl, Some(p)) == UniqueKey(baseurl, Some(q))
  {
    forall x | x in p ensures x in q {
      var i :| 0 <= i < |p| && p[i] == x;
      var j :| 0 <= j < |q| && q[j].0 == x.0;
      assert q[j] == x;
    }
    forall x | x in q ensures x in p {
      var j :| 0 <= j < |q| && q[j] == x;
      var i :| 0 <= i < |p| && p[i].0 == x.0;
      assert p[i] == x;
    }
    DictCounts(p);
    DictCounts(q);
    assert multiset(p) == multiset(q);
    KeyOrderIndependent(baseurl, p, q);
  }

  /** Base URLs that differ at some position give different keys, whatever
      the parameters: the key begins with its base URL. */
  lemma BasesDifferKeysDiffer(a: string, pa: Option<Params>, b: string, pb: Option<Params>, k: nat)
    requires k < |a| && k < |b| && a[k] != b[k]
    ensures UniqueKey(a, pa) != UniqueKey(b, pb)
  {
    var ka, kb := UniqueKey(a, pa), UniqueKey(b, pb);
    assert a <= ka && b <= kb;
    assert ka[k] == a[k] && kb[k] == b[k];
  }

  /** The key is not unique: these two different dictionaries share one. */
  lemma KeyCollision(baseurl: string)
    ensures AsMap([("a_b", "c")]) != AsMap([("a", "b_c")])
    ensures UniqueKey(baseurl, Some([("a_b", "c")])) == UniqueKey(baseurl, Some([("a", "b_c")]))
  {
    assert "a_b" in AsMap([("a_b", "c")]);
    var p, q := [("a_b", "c")], [("a", "b_c")];
    assert Render(p[0]) == "a_b_c" == Render(q[0]);
    assert RenderAll(p) == RenderAll(q);
  }
}
