/** The vote tally (one vote per model for its resolved label, kept in a plain object whose
    keys are in first-vote order) and the majority choice over its entries. */
module Votes {
  import opened Wrappers
  import opened JsObject

  /** Number of occurrences of `x` in `s`. */
  function Count(s: seq<string>, x: string): (c: nat)
    ensures c <= |s|
    ensures c == 0 <==> x !in s
  {
    if s == [] then 0
    else
      var p := s[..|s| - 1];
      assert s == p + [s[|s| - 1]];
      Count(p, x) + (if s[|s| - 1] == x then 1 else 0)
  }

  /** Position of the first occurrence of `x` in `s`. */
  function FirstIndex(s: seq<string>, x: string): (r: nat)
    requires x in s
    ensures r < |s| && s[r] == x
    ensures forall j :: 0 <= j < r ==> s[j] != x
  {
    var p := s[..|s| - 1];
    assert s == p + [s[|s| - 1]];
    if x in p then FirstIndex(p, x) else |s| - 1
  }

  /** The distinct elements of `s`, each where it first occurs. */
  function FirstOccurrences(s: seq<string>): (fo: seq<string>)
    ensures Distinct(fo)
    ensures forall x :: x in fo <==> x in s
  {
    if s == [] then []
    else
      var p := s[..|s| - 1];
      var k := s[|s| - 1];
      assert s == p + [k];
      if k in p then FirstOccurrences(p) else FirstOccurrences(p) + [k]
  }

  /** Reference definition of the tally of `s`: one key per distinct element, in
      first-occurrence order, holding that element's number of occurrences. */
  function Tally(s: seq<string>): Dict<nat>
  {
    Dict(FirstOccurrences(s), map x | x in s :: Count(s, x))
  }

  /** Sum of the counts stored under `keys`. */
  function SumCounts(keys: seq<string>, counts: map<string, nat>): nat
    requires forall k :: k in keys ==> k in counts
  {
    if keys == [] then 0
    else
      var p := keys[..|keys| - 1];
      assert forall k :: k in p ==> k in keys;
      SumCounts(p, counts) + counts[keys[|keys| - 1]]
  }

  /** Total number of votes recorded in a tally. */
  function VoteTotal(d: Dict<nat>): nat
    requires d.Valid()
  {
    SumCounts(d.keys, d.vals)
  }

  /** The tally is a well-formed object whose keys are the distinct labels in first-vote
      order, each holding the number of votes for it, and it has an entry as soon as there
      is a vote. */
  lemma TallyCounts(s: seq<string>)
    ensures Tally(s).Valid()
    ensures Tally(s).keys == FirstOccurrences(s)
    ensures forall x :: Tally(s).Get(x) == if x in s then Some(Count(s, x)) else None
    ensures |s| > 0 ==> |Tally(s).Entries()| > 0
  {
    if |s| > 0 {
      assert s[0] in FirstOccurrences(s);
    }
  }

  lemma CountAppend(s: seq<string>, k: string, x: string)
    ensures Count(s + [k], x) == Count(s, x) + (if x == k then 1 else 0)
  {
    assert (s + [k])[..|s|] == s;
  }

  /** One more vote for `k` is the accumulator step `acc[k] = (acc[k] || 0) + 1`. */
  lemma TallyAppend(s: seq<string>, k: string)
    ensures Tally(s + [k]) == Tally(s).Set(k, Tally(s).Get(k).GetOr(0) + 1)
  {
    var t := s + [k];
    assert t[..|t| - 1] == s;
    var m := map x | x in t :: Count(t, x);
    var m0 := map x | x in s :: Count(s, x);
    var c := Tally(s).Get(k).GetOr(0) + 1;
    CountAppend(s, k, k);
    assert c == Count(t, k);
    var m1 := m0[k := c];
    assert forall x :: x in m <==> x in m1;
    forall x | x in m
      ensures m[x] == m1[x]
    {
      CountAppend(s, k, x);
    }
    assert m == m1;
    var d := Tally(s).Set(k, c);
    assert d.vals == m1;
    assert d.keys == FirstOccurrences(t);
  }

  /** The loop over the models' labels that builds the vote tally (lines 74-77 of the
      classifier): it yields the reference tally of the labels' property keys. */
  method CountVotes(predictions: seq<Option<string>>) returns (acc: Dict<nat>)
    ensures acc == Tally(PropertyKeys(predictions))
  {
    acc := Empty();
    assert Tally([]) == acc;
    for i := 0 to |predictions|
      invariant acc == Tally(PropertyKeys(predictions[..i]))
    {
      var key := PropertyKey(predictions[i]);
      ghost var before := PropertyKeys(predictions[..i]);
      assert PropertyKeys(predictions[..i + 1]) == before + [key];
      TallyAppend(before, key);
      acc := acc.Set(key, acc.Get(key).GetOr(0) + 1);
    }
    assert predictions[..|predictions|] == predictions;
  }

  /** Raising the count of `k` by one raises the sum over distinct keys by one when `k` is one
      of them, and leaves it unchanged otherwise. */
  lemma {:induction false} SumCountsBump(keys: seq<string>, m: map<string, nat>, m2: map<string, nat>, k: string)
    requires Distinct(keys)
    requires forall x :: x in keys ==> x in m && x in m2 && m2[x] == m[x] + (if x == k then 1 else 0)
    ensures SumCounts(keys, m2) == SumCounts(keys, m) + (if k in keys then 1 else 0)
  {
    if keys != [] {
      var p := keys[..|keys| - 1];
      assert keys == p + [keys[|keys| - 1]];
      assert Distinct(p);
      SumCountsBump(p, m, m2, k);
    }
  }

  /** The counts of a tally add up to the number of votes cast. */
  lemma {:induction false} TallyTotal(s: seq<string>)
    ensures Tally(s).Valid() && VoteTotal(Tally(s)) == |s|
  {
    TallyCounts(s);
    if s != [] {
      var p := s[..|s| - 1];
      var k := s[|s| - 1];
      assert s == p + [k];
      TallyTotal(p);
      TallyAppend(p, k);
      TallyCounts(p);
      var t0, t := Tally(p), Tally(s);
      if k in p {
        assert t.keys == t0.keys;
        SumCountsBump(t0.keys, t0.vals, t.vals, k);
      } else {
        assert t.keys == t0.keys + [k];
        assert t.keys[..|t.keys| - 1] == t0.keys;
        SumCountsBump(t0.keys, t0.vals, t.vals, k);
      }
    }
  }

  /** Two different labels together never have more votes than were cast. */
  lemma {:induction false} CountPair(s: seq<string>, x: string, y: string)
    requires x != y
    ensures Count(s, x) + Count(s, y) <= |s|
  {
    if s != [] {
      CountPair(s[..|s| - 1], x, y);
    }
  }

  /** A sequence made of one value only counts that value once per element. */
  lemma {:induction false} CountAll(s: seq<string>, x: string)
    requires forall i :: 0 <= i < |s| ==> s[i] == x
    ensures Count(s, x) == |s|
  {
    if s != [] {
      CountAll(s[..|s| - 1], x);
    }
  }

  /** Every element of a sequence without repetitions occurs exactly once. */
  lemma {:induction false} CountDistinct(s: seq<string>, x: string)
    requires Distinct(s) && x in s
    ensures Count(s, x) == 1
  {
    var p := s[..|s| - 1];
    assert s == p + [s[|s| - 1]];
    assert Distinct(p);
    if x in p {
      CountDistinct(p, x);
    }
  }

  /** Labels come first in the tally in the order of their first vote. */
  lemma {:induction false} FirstOccurrencesOrder(s: seq<string>)
    ensures forall i, j :: 0 <= i < j < |FirstOccurrences(s)| ==>
      FirstIndex(s, FirstOccurrences(s)[i]) < FirstIndex(s, FirstOccurrences(s)[j])
  {
    if s != [] {
      var p := s[..|s| - 1];
      var k := s[|s| - 1];
      assert s == p + [k];
      FirstOccurrencesOrder(p);
      var fo0, fo := FirstOccurrences(p), FirstOccurrences(s);
      forall x | x in p
        ensures FirstIndex(s, x) == FirstIndex(p, x)
      {
      }
      forall i, j | 0 <= i < j < |fo|
        ensures FirstIndex(s, fo[i]) < FirstIndex(s, fo[j])
      {
        assert fo[i] == fo0[i];
        if j < |fo0| {
          assert fo[j] == fo0[j];
        } else {
          assert fo[j] == k && k !in p;
        }
      }
    }
  }

  /** `e[i]` is the first entry of `e` with the largest count: every earlier entry has a
      strictly smaller count and no later entry a larger one. */
  ghost predicate IsFirstMax(e: seq<(string, nat)>, i: int)
  {
    0 <= i < |e| &&
    (forall j :: 0 <= j < i ==> e[j].1 < e[i].1) &&
    (forall j :: i <= j < |e| ==> e[j].1 <= e[i].1)
  }

  /** `reduce((a, b) => b[1] > a[1] ? b : a)` over `rest`, starting from `acc`. */
  function FoldMax(acc: (string, nat), rest: seq<(string, nat)>): (string, nat)
    decreases |rest|
  {
    if rest == [] then acc
    else FoldMax(if rest[0].1 > acc.1 then rest[0] else acc, rest[1..])
  }

  /** An accumulator with a smaller count than the next entry is overtaken: the first maximum
      of the rest is the first maximum of the whole. */
  lemma FirstMaxOvertaken(acc: (string, nat), rest: seq<(string, nat)>, i: int)
    requires rest != [] && rest[0].1 > acc.1 && IsFirstMax(rest, i)
    ensures IsFirstMax([acc] + rest, i + 1) && ([acc] + rest)[i + 1] == rest[i]
  {
    var e := [acc] + rest;
    forall j | 0 <= j < i + 1
      ensures e[j].1 < e[i + 1].1
    {
      if j > 0 {
        assert e[j] == rest[j - 1];
      }
    }
    forall j | i + 1 <= j < |e|
      ensures e[j].1 <= e[i + 1].1
    {
      assert e[j] == rest[j - 1];
    }
  }

  /** An accumulator with at least the next entry's count keeps its place: dropping that entry
      does not move the first maximum, except that positions after the accumulator shift by one. */
  lemma FirstMaxKept(acc: (string, nat), rest: seq<(string, nat)>, i: int)
    requires rest != [] && rest[0].1 <= acc.1 && IsFirstMax([acc] + rest[1..], i)
    ensures var k := if i == 0 then 0 else i + 1;
      IsFirstMax([acc] + rest, k) && ([acc] + rest)[k] == ([acc] + rest[1..])[i]
  {
    var e, e2 := [acc] + rest, [acc] + rest[1..];
    var k := if i == 0 then 0 else i + 1;
    assert e[k] == e2[i];
    forall j | 0 <= j < k
      ensures e[j].1 < e[k].1
    {
      if j >= 2 {
        assert e[j] == e2[j - 1];
      } else if j == 1 {
        assert e2[0].1 < e2[i].1;
      }
    }
    forall j | k <= j < |e|
      ensures e[j].1 <= e[k].1
    {
      if j >= 2 {
        assert e[j] == e2[j - 1];
      } else if j == 1 {
        assert e2[0].1 <= e2[i].1;
      }
    }
  }

  /** Because the fold replaces its accumulator only on a strictly larger count, it ends on the
      first entry with the largest count. */
  lemma {:induction false} FoldMaxIsFirstMax(acc: (string, nat), rest: seq<(string, nat)>)
    ensures exists i :: IsFirstMax([acc] + rest, i) && ([acc] + rest)[i] == FoldMax(acc, rest)
    decreases |rest|
  {
    if rest == [] {
      assert IsFirstMax([acc] + rest, 0);
    } else {
      var next := if rest[0].1 > acc.1 then rest[0] else acc;
      FoldMaxIsFirstMax(next, rest[1..]);
      var e2 := [next] + rest[1..];
      var i :| IsFirstMax(e2, i) && e2[i] == FoldMax(next, rest[1..]);
      if rest[0].1 > acc.1 {
        assert e2 == rest;
        FirstMaxOvertaken(acc, rest, i);
      } else {
        FirstMaxKept(acc, rest, i);
      }
    }
  }

  /** The majority choice over the tally entries (lines 79-80 of the classifier): the first
      entry, in entry order, with the largest count. */
  function Majority(e: seq<(string, nat)>): (w: (string, nat))
    requires |e| > 0
    ensures exists i :: IsFirstMax(e, i) && e[i] == w
  {
    FoldMaxIsFirstMax(e[0], e[1..]);
    assert [e[0]] + e[1..] == e;
    FoldMax(e[0], e[1..])
  }

  /** The label that wins the vote `s`: the majority choice over the entries of its tally. */
  function MajorityLabel(s: seq<string>): string
    requires |s| > 0
  {
    TallyCounts(s);
    Majority(Tally(s).Entries()).0
  }

  /** The label at position `i` of the tally entries, when that is the first entry with the
      largest count, wins in the sense of the entry order. */
  lemma FirstMaxOfTally(s: seq<string>, i: int)
    requires Tally(s).Valid() && IsFirstMax(Tally(s).Entries(), i)
    ensures FirstOccurrences(s)[i] in s
    ensures forall x :: x in s ==> Count(s, x) <= Count(s, FirstOccurrences(s)[i])
    ensures forall x :: x in s && Count(s, x) == Count(s, FirstOccurrences(s)[i]) ==>
      FirstIndex(s, FirstOccurrences(s)[i]) <= FirstIndex(s, x)
  {
    TallyCounts(s);
    var e := Tally(s).Entries();
    var fo := FirstOccurrences(s);
    var w := fo[i];
    assert e[i].1 == Count(s, w) by {
      assert Tally(s).Get(fo[i]) == Some(e[i].1);
    }
    FirstOccurrencesOrder(s);
    forall x | x in s
      ensures Count(s, x) <= Count(s, w)
      ensures Count(s, x) == Count(s, w) ==> FirstIndex(s, w) <= FirstIndex(s, x)
    {
      var j :| 0 <= j < |fo| && fo[j] == x;
      assert e[j].1 == Count(s, x) by {
        assert Tally(s).Get(fo[j]) == Some(e[j].1);
      }
      if j < i {
        assert e[j].1 < e[i].1;
      } else {
        assert e[j].1 <= e[i].1;
        if j > i {
          assert FirstIndex(s, fo[i]) < FirstIndex(s, fo[j]);
        }
      }
    }
  }

  /** The winning label has a vote, no label has more votes, and among the labels with as many
      votes it is the one voted for first. */
  lemma MajorityInQueryOrder(s: seq<string>)
    requires |s| > 0
    ensures MajorityLabel(s) in s
    ensures forall x :: x in s ==> Count(s, x) <= Count(s, MajorityLabel(s))
    ensures forall x :: x in s && Count(s, x) == Count(s, MajorityLabel(s)) ==>
      FirstIndex(s, MajorityLabel(s)) <= FirstIndex(s, x)
  {
    TallyCounts(s);
    var e := Tally(s).Entries();
    var m := Majority(e);
    var i :| IsFirstMax(e, i) && e[i] == m;
    assert MajorityLabel(s) == m.0 == FirstOccurrences(s)[i];
    FirstMaxOfTally(s, i);
  }
}
