/** Ordered access to the keys of a finite map. */
module Keys {
  lemma EmptyWhenNoMember(keys: set<int>)
    requires forall k :: k !in keys
    ensures keys == {}
  {
    assert forall k :: k in keys <==> k in {};
  }

  lemma HasMember(keys: set<int>)
    requires keys != {}
    ensures exists k :: k in keys
  {
    if forall k :: k !in keys {
      EmptyWhenNoMember(keys);
    }
  }

  /** The largest of the keys, if there are any. */
  ghost function MaxKey(keys: set<int>): (m: int)
    ensures keys != {} ==> m in keys
    ensures forall k :: k in keys ==> k <= m
  {
    if keys == {} then 0 else
    HasMember(keys);
    var k :| k in keys;
    assert keys == (keys - {k}) + {k};
    var m := MaxKey(keys - {k});
    if keys == {k} || k > m then k else m
  }

  /** The keys in ascending order. */
  ghost function SortedKeys(keys: set<int>): (s: seq<int>)
    ensures |s| == |keys|
    decreases |keys|
  {
    if keys == {} then []
    else
      var m := MaxKey(keys);
      SortedKeys(keys - {m}) + [m]
  }

  /** How many keys are smaller: the place the key takes in ascending order. */
  function Place(keys: set<int>, k: int): (n: nat)
    ensures k in keys ==> n < |keys|
  {
    assert k in keys ==> Below(keys, k) <= keys - {k};
    SubsetIsSmaller(Below(keys, k), if k in keys then keys - {k} else keys);
    |Below(keys, k)|
  }

  function Below(keys: set<int>, k: int): set<int> {
    set m | m in keys && m < k
  }

  lemma {:induction false} SubsetIsSmaller(a: set<int>, b: set<int>)
    requires a <= b
    ensures |a| <= |b|
    decreases |a|
  {
    if a != {} {
      HasMember(a);
      var k :| k in a;
      SubsetIsSmaller(a - {k}, b - {k});
    }
  }

  /** The key at a place is a key, and its place is where it stands. */
  lemma {:induction false} KeyAtPlace(keys: set<int>, p: nat)
    requires p < |keys|
    ensures SortedKeys(keys)[p] in keys && Place(keys, SortedKeys(keys)[p]) == p
    decreases |keys|
  {
    var m := MaxKey(keys);
    var less := keys - {m};
    var k := SortedKeys(keys)[p];
    if p == |less| {
      assert Below(keys, m) == less;
    } else {
      KeyAtPlace(less, p);
      assert Below(keys, k) == Below(less, k);
    }
  }

  lemma {:induction false} KeyHasPlace(keys: set<int>, k: int)
    requires k in keys
    ensures SortedKeys(keys)[Place(keys, k)] == k
    decreases |keys|
  {
    var m := MaxKey(keys);
    var less := keys - {m};
    if k == m {
      assert Below(keys, m) == less;
    } else {
      KeyHasPlace(less, k);
      assert Below(keys, k) == Below(less, k);
    }
  }
}
