/** A plain JavaScript object used as a dictionary from strings to numbers
    (`Record<string, number>`). Its keys enumerate in insertion order, so it
    is modelled as the sequence of its entries in that order. */
module Dict {
  import opened Common

  type Dict = seq<(string, int)>

  /** `Object.keys(d)`. */
  function Keys(d: Dict): (ks: seq<string>)
    ensures |ks| == |d|
    ensures forall i :: 0 <= i < |d| ==> ks[i] == d[i].0
  {
    if d == [] then [] else [d[0].0] + Keys(d[1..])
  }

  /** No key occurs twice, as in any object. */
  predicate Wellformed(d: Dict) {
    forall i, j :: 0 <= i < j < |d| ==> d[i].0 != d[j].0
  }

  /** `d[k]`, `None` standing for `undefined`. */
  function Get(d: Dict, k: string): Option<int> {
    if d == [] then None
    else if d[0].0 == k then Some(d[0].1)
    else Get(d[1..], k)
  }

  /** `d[k] = v`: an existing key keeps its place and takes the new value, a
      new key is added at the end. */
  function Put(d: Dict, k: string, v: int): Dict {
    if d == [] then [(k, v)]
    else if d[0].0 == k then [(k, v)] + d[1..]
    else [d[0]] + Put(d[1..], k, v)
  }

  /** After `d[k] = v`, `d[k]` reads `v` and every other key reads as before. */
  lemma {:induction false} PutGet(d: Dict, k: string, v: int)
    ensures Get(Put(d, k, v), k) == Some(v)
    ensures forall k' :: k' != k ==> Get(Put(d, k, v), k') == Get(d, k')
    decreases |d|
  {
    if d != [] && d[0].0 != k {
      PutGet(d[1..], k, v);
      var r := Put(d, k, v);
      assert r[0] == d[0] && r[1..] == Put(d[1..], k, v);
    }
  }

  /** After `d[k] = v` the keys are the old ones, in the same order, followed
      by `k` when it is new. */
  lemma {:induction false} PutKeys(d: Dict, k: string, v: int)
    ensures Keys(Put(d, k, v)) == if k in Keys(d) then Keys(d) else Keys(d) + [k]
    decreases |d|
  {
    if d != [] && d[0].0 != k {
      PutKeys(d[1..], k, v);
      var r := Put(d, k, v);
      assert r[0] == d[0] && r[1..] == Put(d[1..], k, v);
      assert Keys(r) == [d[0].0] + Keys(Put(d[1..], k, v));
      assert Keys(d) == [d[0].0] + Keys(d[1..]);
    }
  }

  /** In a well-formed dictionary each entry's key reads its own value. */
  lemma {:induction false} GetEntry(d: Dict, i: nat)
    requires Wellformed(d) && i < |d|
    ensures Get(d, d[i].0) == Some(d[i].1)
    decreases |d|
  {
    if i > 0 {
      assert d[0].0 != d[i].0;
      assert Wellformed(d[1..]) by {
        forall a, b | 0 <= a < b < |d[1..]| ensures d[1..][a].0 != d[1..][b].0 {
          assert d[1..][a] == d[a + 1] && d[1..][b] == d[b + 1];
        }
      }
      GetEntry(d[1..], i - 1);
      assert d[1..][i - 1] == d[i];
    }
  }

  /** The sum of the values. */
  function SumValues(d: Dict): int {
    if d == [] then 0 else d[0].1 + SumValues(d[1..])
  }

  /** Keys of a well-formed dictionary are distinct, and `Put` keeps it so. */
  lemma {:induction false} PutWellformed(d: Dict, k: string, v: int)
    requires Wellformed(d)
    ensures Wellformed(Put(d, k, v))
  {
    var r := Put(d, k, v);
    PutKeys(d, k, v);
    forall i, j | 0 <= i < j < |r| ensures r[i].0 != r[j].0 {
      assert Keys(r)[i] == r[i].0 && Keys(r)[j] == r[j].0;
      assert Keys(d) == Keys(r)[..|d|] || Keys(d) == Keys(r);
      if j < |d| {
        assert Keys(r)[i] == Keys(d)[i] && Keys(r)[j] == Keys(d)[j];
      }
    }
  }

  /** Setting a key of a well-formed dictionary replaces its old value (0
      when absent) in the sum of the values. */
  lemma {:induction false} PutSum(d: Dict, k: string, v: int)
    requires Wellformed(d)
    ensures SumValues(Put(d, k, v)) == SumValues(d) - Get(d, k).GetOr(0) + v
    decreases |d|
  {
    if d == [] {
    } else if d[0].0 == k {
    } else {
      PutSum(d[1..], k, v);
    }
  }
}
