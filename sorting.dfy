/** The two sorts the engine performs with `Array.prototype.sort`: a stable
    sort of positions by a timestamp (workouts by start, a week's windows by
    end), and a sort of distinct week keys in string order. Both are written
    as insertion sorts; any stable sort gives the same result. */
module Sorting {
  import opened Text

  /** `a` comes before `b`: a smaller key, or an equal key and an earlier
      position, which is where a stable sort leaves ties. */
  predicate KeyIndexLess(keys: seq<int>, a: nat, b: nat)
    requires a < |keys| && b < |keys|
  {
    keys[a] < keys[b] || (keys[a] == keys[b] && a < b)
  }

  predicate StrictlyIncreasing(s: seq<nat>)
  {
    forall p, q :: 0 <= p < q < |s| ==> s[p] < s[q]
  }

  predicate InRange(s: seq<nat>, n: nat)
  {
    forall p :: 0 <= p < |s| ==> s[p] < n
  }

  /** Positions listed in stable order of their keys. */
  predicate SortedByKey(keys: seq<int>, s: seq<nat>)
  {
    InRange(s, |keys|) && forall p, q :: 0 <= p < q < |s| ==> KeyIndexLess(keys, s[p], s[q])
  }

  /** The stable order lists every position once: no two entries are equal. */
  lemma SortedByKeyDistinct(keys: seq<int>, s: seq<nat>, p: int, q: int)
    requires SortedByKey(keys, s) && 0 <= p < |s| && 0 <= q < |s| && p != q
    ensures s[p] != s[q]
  {
  }

  /** Inserts position `x`, later than every position in `r`, after the
      last entry whose key is not greater than its own. */
  method InsertStable(r: seq<nat>, x: nat, keys: seq<int>) returns (r': seq<nat>)
    requires SortedByKey(keys, r) && x < |keys|
    requires forall p :: 0 <= p < |r| ==> r[p] < x
    ensures |r'| == |r| + 1 && (forall y :: y in r' <==> y in r || y == x)
    ensures SortedByKey(keys, r')
  {
    var j := |r|;
    while j > 0 && keys[r[j - 1]] > keys[x]
      invariant 0 <= j <= |r|
      invariant forall p :: j <= p < |r| ==> keys[r[p]] > keys[x]
    {
      j := j - 1;
    }
    assert forall p :: 0 <= p < j ==> keys[r[p]] <= keys[x] by {
      forall p | 0 <= p < j
        ensures keys[r[p]] <= keys[x]
      {
        if p < j - 1 {
          assert KeyIndexLess(keys, r[p], r[j - 1]);
        }
      }
    }
    r' := r[..j] + [x] + r[j..];
    assert forall p :: 0 <= p < |r'| ==> r'[p] == (if p < j then r[p] else if p == j then x else r[p - 1]);
  }

  /** Stable sort of the positions `idx` (listed in increasing order) by
      `keys`: the result holds the same positions, ordered by key and, among
      equal keys, by position. */
  method StableSortByKey(idx: seq<nat>, keys: seq<int>) returns (r: seq<nat>)
    requires StrictlyIncreasing(idx) && InRange(idx, |keys|)
    ensures |r| == |idx| && (forall x :: x in r <==> x in idx)
    ensures SortedByKey(keys, r)
  {
    r := [];
    var k := 0;
    while k < |idx|
      invariant 0 <= k <= |idx| && |r| == k
      invariant forall x :: x in r <==> x in idx[..k]
      invariant SortedByKey(keys, r)
    {
      var x := idx[k];
      forall p | 0 <= p < |r|
        ensures r[p] < x
      {
        assert r[p] in idx[..k];
      }
      r := InsertStable(r, x, keys);
      assert idx[..k + 1] == idx[..k] + [x];
      k := k + 1;
    }
    assert idx[..k] == idx;
  }

  /** Strings in strictly ascending code-unit order. */
  predicate StrictlyAscending(s: seq<string>)
  {
    forall p, q :: 0 <= p < q < |s| ==> Less(s[p], s[q])
  }

  predicate Distinct(s: seq<string>)
  {
    forall p, q :: 0 <= p < q < |s| ==> s[p] != s[q]
  }

  /** Keys in strictly ascending order are distinct. */
  lemma AscendingDistinct(s: seq<string>)
    requires StrictlyAscending(s)
    ensures Distinct(s)
  {
    forall p, q | 0 <= p < q < |s|
      ensures s[p] != s[q]
    {
      LessIrreflexive(s[p]);
    }
  }

  /** Sort of distinct keys with the comparator `a < b ? -1 : 1`. */
  method SortStrings(keys: seq<string>) returns (r: seq<string>)
    requires Distinct(keys)
    ensures |r| == |keys| && (forall x :: x in r <==> x in keys)
    ensures StrictlyAscending(r)
  {
    r := [];
    var k := 0;
    while k < |keys|
      invariant 0 <= k <= |keys| && |r| == k
      invariant forall x :: x in r <==> x in keys[..k]
      invariant StrictlyAscending(r)
    {
      var x := keys[k];
      assert x !in keys[..k];
      var j := |r|;
      while j > 0 && !Less(r[j - 1], x)
        invariant 0 <= j <= |r|
        invariant forall p :: j <= p < |r| ==> Less(x, r[p])
      {
        LessTotal(r[j - 1], x);
        j := j - 1;
      }
      assert forall p :: 0 <= p < j ==> Less(r[p], x) by {
        forall p | 0 <= p < j
          ensures Less(r[p], x)
        {
          if p < j - 1 {
            LessTransitive(r[p], r[j - 1], x);
          }
        }
      }
      var r' := r[..j] + [x] + r[j..];
      assert forall p :: 0 <= p < |r'| ==> r'[p] == (if p < j then r[p] else if p == j then x else r[p - 1]);
      forall p, q | 0 <= p < q < |r'|
        ensures Less(r'[p], r'[q])
      {
        if p < j && q > j {
          LessTransitive(r'[p], x, r'[q]);
        }
      }
      r := r';
      assert keys[..k + 1] == keys[..k] + [x];
      k := k + 1;
    }
    assert keys[..k] == keys;
  }
}
