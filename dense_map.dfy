/**
 * The page-link maps of the paginator: a Go `map[int]string` that is kept
 * dense on the keys 1..n and so reads as an ordered list of n links, and the
 * order in which a Go `for range` loop visits the keys of a map.
 */
module DenseMap {

  /** The marker placed before the slider and the last zone. */
  const ELLIPSIS: string := "..."

  /** The keys of `m` are exactly 1..|m|. */
  ghost predicate Dense(m: map<int, string>) {
    forall k :: k in m <==> 1 <= k <= |m|
  }

  /** A dense map read as the list of its values in key order. */
  function Listing(m: map<int, string>): (s: seq<string>)
    requires Dense(m)
    ensures |s| == |m|
    ensures forall i :: 0 <= i < |s| ==> s[i] == m[i + 1]
  {
    seq(|m|, i requires 0 <= i < |m| => m[i + 1])
  }

  /** `order` visits every key of `m` exactly once: Go leaves the order of a `range` over a map unspecified. */
  ghost predicate Enumerates(order: seq<int>, m: map<int, string>) {
    && (forall i, j :: 0 <= i < j < |order| ==> order[i] != order[j])
    && (forall i :: 0 <= i < |order| ==> order[i] in m)
    && (forall k :: k in m ==> k in order)
  }

  /** The values of `m` in the order the keys are visited. */
  function Visit(m: map<int, string>, order: seq<int>): (s: seq<string>)
    requires forall i :: 0 <= i < |order| ==> order[i] in m
    ensures |s| == |order|
    ensures forall i :: 0 <= i < |order| ==> s[i] == m[order[i]]
  {
    seq(|order|, i requires 0 <= i < |order| => m[order[i]])
  }

  /** One merge step: a non-empty zone goes after an ellipsis; an empty zone adds nothing. */
  function Merged(elems: seq<string>, zone: seq<string>): (r: seq<string>)
    ensures zone == [] ==> r == elems
    ensures zone != [] ==> |r| == |elems| + 1 + |zone| && r[..|elems|] == elems
    ensures zone != [] ==> r[|elems|] == ELLIPSIS && r[|elems| + 1..] == zone
  {
    if zone == [] then elems else elems + [ELLIPSIS] + zone
  }

  /** Writing at key |m|+1 keeps a dense map dense and appends to its listing. */
  lemma ListingPush(m: map<int, string>, v: string)
    requires Dense(m)
    ensures |m[|m| + 1 := v]| == |m| + 1
    ensures Dense(m[|m| + 1 := v])
    ensures Listing(m[|m| + 1 := v]) == Listing(m) + [v]
  {
    var m' := m[|m| + 1 := v];
    assert |m| + 1 !in m;
    assert m'.Keys == m.Keys + {|m| + 1};
    assert |m'| == |m| + 1;
  }

  /** One step of a `range` loop: the value at the next key of `order` is appended to a dense listing. */
  lemma VisitPush(entries: map<int, string>, prefix: seq<string>, m: map<int, string>, order: seq<int>, i: nat)
    requires Dense(entries) && i < |order|
    requires forall j :: 0 <= j < |order| ==> order[j] in m
    requires Listing(entries) == prefix + Visit(m, order[..i])
    ensures Dense(entries[|entries| + 1 := m[order[i]]])
    ensures Listing(entries[|entries| + 1 := m[order[i]]]) == prefix + Visit(m, order[..i + 1])
  {
    ListingPush(entries, m[order[i]]);
    assert order[..i + 1] == order[..i] + [order[i]];
    assert Visit(m, order[..i + 1]) == Visit(m, order[..i]) + [m[order[i]]];
  }

  /** A visit order has as many entries as the map has keys. */
  lemma {:induction false} EnumerationLength(order: seq<int>, m: map<int, string>)
    requires Enumerates(order, m)
    ensures |order| == |m|
  {
    DistinctCard(order);
    var keys := set k | k in order;
    assert forall k :: k in keys <==> k in m;
    assert m.Keys == keys;
  }

  /** A sequence without repetitions has as many distinct elements as entries. */
  lemma {:induction false} DistinctCard(s: seq<int>)
    requires forall i, j :: 0 <= i < j < |s| ==> s[i] != s[j]
    ensures |set k | k in s| == |s|
  {
    if s != [] {
      var t := s[1..];
      DistinctCard(t);
      assert (set k | k in s) == (set k | k in t) + {s[0]};
      assert s[0] !in t by {
        forall i | 0 <= i < |t| ensures t[i] != s[0] {
          assert t[i] == s[i + 1];
        }
      }
    }
  }
}
