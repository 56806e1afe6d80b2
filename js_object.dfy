/** JavaScript plain objects with string property keys, as the classifier uses them for its
    per-model results, its confidences and its vote tally. Such an object lists its keys in the
    order they were first assigned, and `Object.entries` and `Object.values` report them in
    that order. */
module JsObject {
  import opened Wrappers

  /** No key occurs twice. */
  predicate Distinct(s: seq<string>)
  {
    forall i, j :: 0 <= i < j < |s| ==> s[i] != s[j]
  }

  /** An object: its keys in insertion order and its value for each key. */
  datatype Dict<V> = Dict(keys: seq<string>, vals: map<string, V>) {

    /** Every key is listed once, and exactly the listed keys have values. */
    ghost predicate Valid()
    {
      Distinct(keys) && forall k :: k in vals <==> k in keys
    }

    /** Property read `o[k]`; `None` is `undefined`. */
    function Get(k: string): Option<V>
    {
      if k in vals then Some(vals[k]) else None
    }

    /** Property assignment `o[k] = v`: a new key goes to the end of the key order, an existing
        key keeps its place. */
    function Set(k: string, v: V): (d: Dict<V>)
      ensures Valid() ==> d.Valid() && d.keys == if k in keys then keys else keys + [k]
      ensures d.Get(k) == Some(v)
      ensures forall k' :: k' != k ==> d.Get(k') == Get(k')
    {
      if k in vals then Dict(keys, vals[k := v]) else Dict(keys + [k], vals[k := v])
    }

    /** `Object.entries(o)`. */
    function Entries(): (e: seq<(string, V)>)
      requires Valid()
      ensures |e| == |keys|
      ensures forall i :: 0 <= i < |e| ==> e[i].0 == keys[i] && Get(keys[i]) == Some(e[i].1)
    {
      seq(|keys|, i requires 0 <= i < |keys| => (keys[i], vals[keys[i]]))
    }

    /** `Object.values(o)`. */
    function Values(): (vs: seq<V>)
      requires Valid()
      ensures |vs| == |keys|
      ensures forall i :: 0 <= i < |vs| ==> Get(keys[i]) == Some(vs[i])
    {
      seq(|keys|, i requires 0 <= i < |keys| => vals[keys[i]])
    }
  }

  /** The object literal `{}`. */
  function Empty<V>(): (d: Dict<V>)
    ensures d.Valid() && d.keys == []
    ensures forall k :: d.Get(k) == None
  {
    Dict([], map[])
  }

  /** The property key a value is stored under: a string is its own key, and `undefined`
      becomes the key "undefined". */
  function PropertyKey(v: Option<string>): string
  {
    match v
    case Some(s) => s
    case None => "undefined"
  }

  function PropertyKeys(vs: seq<Option<string>>): seq<string>
  {
    seq(|vs|, i requires 0 <= i < |vs| => PropertyKey(vs[i]))
  }

  /** The object built by assigning `xs[i]` to key `ks[i]`, for i from first to last. */
  function FromPairs<V>(ks: seq<string>, xs: seq<V>): Dict<V>
    requires |ks| == |xs|
  {
    if ks == [] then Empty()
    else FromPairs(ks[..|ks| - 1], xs[..|xs| - 1]).Set(ks[|ks| - 1], xs[|xs| - 1])
  }

  lemma FromPairsAppend<V>(ks: seq<string>, xs: seq<V>, k: string, x: V)
    requires |ks| == |xs|
    ensures FromPairs(ks + [k], xs + [x]) == FromPairs(ks, xs).Set(k, x)
  {
    assert (ks + [k])[..|ks|] == ks && (xs + [x])[..|xs|] == xs;
  }

  /** Dropping the last key of a duplicate-free key list leaves a duplicate-free list that
      does not contain the dropped key. */
  lemma DistinctLast(ks: seq<string>)
    requires Distinct(ks) && |ks| > 0
    ensures Distinct(ks[..|ks| - 1]) && ks[|ks| - 1] !in ks[..|ks| - 1]
  {
    var n := |ks| - 1;
    forall i | 0 <= i < n ensures ks[..n][i] == ks[i] && ks[i] != ks[n] { }
  }

  lemma SetNewKey<V>(d: Dict<V>, k: string, v: V)
    requires d.Valid() && k !in d.keys
    ensures d.Set(k, v).Valid() && d.Set(k, v).keys == d.keys + [k]
  {
  }

  lemma LastSplit<T>(s: seq<T>)
    requires |s| > 0
    ensures s == s[..|s| - 1] + [s[|s| - 1]]
  {
  }

  lemma FromPairsLast<V>(ks: seq<string>, xs: seq<V>)
    requires |ks| == |xs| > 0
    ensures FromPairs(ks, xs) == FromPairs(ks[..|ks| - 1], xs[..|xs| - 1]).Set(ks[|ks| - 1], xs[|xs| - 1])
  {
  }

  lemma {:induction false} FromPairsKeys<V>(ks: seq<string>, xs: seq<V>)
    requires |ks| == |xs| && Distinct(ks)
    ensures FromPairs(ks, xs).Valid() && FromPairs(ks, xs).keys == ks
  {
    if ks != [] {
      var n := |ks| - 1;
      var p, q := ks[..n], xs[..n];
      DistinctLast(ks);
      FromPairsKeys(p, q);
      var d := FromPairs(p, q);
      SetNewKey(d, ks[n], xs[n]);
      FromPairsLast(ks, xs);
      LastSplit(ks);
    }
  }

  lemma {:induction false} FromPairsGet<V>(ks: seq<string>, xs: seq<V>)
    requires |ks| == |xs| && Distinct(ks)
    ensures forall i :: 0 <= i < |ks| ==> FromPairs(ks, xs).Get(ks[i]) == Some(xs[i])
  {
    if ks != [] {
      var n := |ks| - 1;
      var p, q := ks[..n], xs[..n];
      assert Distinct(p);
      FromPairsGet(p, q);
      forall i | 0 <= i < n
        ensures FromPairs(ks, xs).Get(ks[i]) == Some(xs[i])
      {
        assert ks[i] == p[i] && xs[i] == q[i] && ks[i] != ks[n];
      }
    }
  }

  /** Assigning distinct keys in order gives an object whose keys are exactly those keys, in
      that order, each holding its own value, so that `Object.values` returns the values in
      assignment order. */
  lemma FromPairsLookup<V>(ks: seq<string>, xs: seq<V>)
    requires |ks| == |xs| && Distinct(ks)
    ensures FromPairs(ks, xs).Valid()
    ensures FromPairs(ks, xs).keys == ks
    ensures forall i :: 0 <= i < |ks| ==> FromPairs(ks, xs).Get(ks[i]) == Some(xs[i])
    ensures FromPairs(ks, xs).Values() == xs
  {
    FromPairsKeys(ks, xs);
    FromPairsGet(ks, xs);
    var vs := FromPairs(ks, xs).Values();
    forall i | 0 <= i < |xs|
      ensures vs[i] == xs[i]
    {
      assert FromPairs(ks, xs).Get(ks[i]) == Some(vs[i]);
    }
  }
}
