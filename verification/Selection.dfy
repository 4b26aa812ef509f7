/** Items picked from a sequence stand in their old order, and none with the property is left out. */
module Selection {
  import opened Json
  import opened Dialects

  /** Places in ascending order. */
  ghost predicate Ascending(at: seq<nat>, n: nat) {
    (forall m :: 0 <= m < |at| ==> at[m] < n) && forall l, m :: 0 <= l < m < |at| ==> at[l] < at[m]
  }

  ghost predicate AllPlaces(items: seq<Value>, p: Value -> bool, at: seq<nat>) {
    Ascending(at, |items|) && forall k: nat :: k < |items| && p(items[k]) ==> k in at
  }

  /** What is picked stands at exactly the places with the property, in order. */
  ghost predicate PickedAt(items: seq<Value>, p: Value -> bool, picked: seq<Value>, at: seq<nat>) {
    |picked| == |at| && AllPlaces(items, p, at) &&
    forall m :: 0 <= m < |at| ==> picked[m] == items[at[m]] && p(items[at[m]])
  }

  lemma {:induction false} PickOneMore(items: seq<Value>, x: Value, p: Value -> bool)
    ensures Pick(items + [x], p) == Pick(items, p) + if p(x) then [x] else []
  {
    if items == [] {
      assert [] + [x] == [x] && [x][1..] == [];
    } else {
      assert (items + [x])[1..] == items[1..] + [x];
      PickOneMore(items[1..], x, p);
    }
  }

  /** The places with the property, in order. */
  function Places(items: seq<Value>, p: Value -> bool): seq<nat> {
    if items == [] then []
    else
      var n := |items| - 1;
      Places(items[..n], p) + if p(items[n]) then [n] else []
  }

  lemma {:induction false} PlacesAreAll(items: seq<Value>, p: Value -> bool)
    ensures AllPlaces(items, p, Places(items, p))
  {
    if items != [] {
      var n := |items| - 1;
      var before := Places(items[..n], p);
      PlacesAreAll(items[..n], p);
      forall k: nat | k < |items| && p(items[k]) ensures k in Places(items, p) {
        if k < n {
          assert items[..n][k] == items[k];
        }
      }
    }
  }

  lemma {:induction false} PickedAtPlaces(items: seq<Value>, p: Value -> bool)
    ensures |Pick(items, p)| == |Places(items, p)|
    ensures forall m :: 0 <= m < |Places(items, p)| ==>
              Places(items, p)[m] < |items| && Pick(items, p)[m] == items[Places(items, p)[m]] &&
              p(items[Places(items, p)[m]])
  {
    if items != [] {
      var n := |items| - 1;
      PickedAtPlaces(items[..n], p);
      assert items == items[..n] + [items[n]];
      PickOneMore(items[..n], items[n], p);
    }
  }

  lemma PickIsInOrder(items: seq<Value>, p: Value -> bool)
    ensures PickedAt(items, p, Pick(items, p), Places(items, p))
  {
    PlacesAreAll(items, p);
    PickedAtPlaces(items, p);
  }
}
