/**
  Which calls come out of the fragments of an OpenAI stream, and in which order: one for every index
  that occurs, by ascending index. The batch extraction takes the calls as they are listed.
*/
module CallOrder {
  import opened Json
  import opened Usage
  import opened Keys
  import opened SseTally
  import opened SseDialects

  lemma {:induction false} FragmentsAt(vs: seq<Value>, i: nat)
    requires i < |vs|
    ensures FragmentsOf(vs)[i] == FragmentOf(vs[i])
  {
    if i < |vs| - 1 {
      FragmentsAt(vs[..|vs| - 1], i);
    }
  }

  lemma {:induction false} OnlyFragment(fs: seq<Fragment>, k: nat, i: int)
    requires k < |fs| && fs[k].index == i && forall m :: 0 <= m < |fs| && m != k ==> fs[m].index != i
    ensures NameOf(fs, i) == fs[k].name && ArgsOf(fs, i) == fs[k].args
  {
    var n := |fs| - 1;
    if k == n {
      forall m | 0 <= m < n ensures fs[..n][m].index != i {
      }
      AbsentCall(fs[..n], i);
      assert "" + fs[k].args == fs[k].args;
    } else {
      OnlyFragment(fs[..n], k, i);
      assert fs[k].args + "" == fs[k].args;
    }
  }

  // ----- as many calls as there are indices

  function Indices(fs: seq<Fragment>): set<int> {
    set k | 0 <= k < |fs| :: fs[k].index
  }

  lemma MentionsIndex(fs: seq<Fragment>, i: int)
    ensures Mentions(fs, i) <==> i in Indices(fs)
  {
  }

  lemma BufferedIndices(fs: seq<Fragment>)
    ensures AddAll(fs).Keys == Indices(fs)
  {
    forall i ensures i in AddAll(fs).Keys <==> i in Indices(fs) {
      FragmentsAreGathered(fs, i);
      MentionsIndex(fs, i);
    }
  }

  /** No two fragments belong to one call. */
  ghost predicate Distinct(fs: seq<Fragment>) {
    forall i, j :: 0 <= i < j < |fs| ==> fs[i].index != fs[j].index
  }

  lemma IndicesStep(fs: seq<Fragment>)
    requires fs != []
    ensures var n := |fs| - 1;
            Indices(fs) == Indices(fs[..n]) + {fs[n].index} &&
            (Distinct(fs) <==> Distinct(fs[..n]) && fs[n].index !in Indices(fs[..n]))
  {
    var n := |fs| - 1;
    forall i ensures i in Indices(fs) <==> i in Indices(fs[..n]) || i == fs[n].index {
      MentionsStep(fs, i);
      MentionsIndex(fs, i);
      MentionsIndex(fs[..n], i);
    }
    if Distinct(fs[..n]) && fs[n].index !in Indices(fs[..n]) {
      forall i, j | 0 <= i < j < |fs| ensures fs[i].index != fs[j].index {
        assert fs[..n][i].index in Indices(fs[..n]);
        assert j < n ==> fs[..n][j] == fs[j];
      }
    }
    if Distinct(fs) {
      assert forall i :: 0 <= i < n ==> fs[..n][i] == fs[i];
    }
  }

  /** There are as many indices as fragments exactly if no two share one. */
  lemma {:induction false} IndexCount(fs: seq<Fragment>)
    ensures |Indices(fs)| <= |fs| && (|Indices(fs)| == |fs| <==> Distinct(fs))
  {
    if fs != [] {
      IndexCount(fs[..|fs| - 1]);
      IndicesStep(fs);
    }
  }

  // ----- the calls in order

  /** The call gathered from all fragments of one index. */
  function Gathered(codec: Codec, fs: seq<Fragment>, index: int): ToolCall {
    CallFrom(codec, (NameOf(fs, index), ArgsOf(fs, index)))
  }

  /** One call for every index, in ascending order. */
  lemma GatheredInOrder(codec: Codec, fs: seq<Fragment>)
    ensures var calls := ToolCalls(codec, AddAll(fs));
            |calls| == |Indices(fs)| &&
            forall p :: 0 <= p < |calls| ==> calls[p] == Gathered(codec, fs, SortedKeys(Indices(fs))[p])
  {
    BufferedIndices(fs);
    CallCount(codec, AddAll(fs));
    forall p | 0 <= p < |Indices(fs)|
      ensures ToolCalls(codec, AddAll(fs))[p] == Gathered(codec, fs, SortedKeys(Indices(fs))[p])
    {
      var k := SortedKeys(Indices(fs))[p];
      KeyAtPlace(Indices(fs), p);
      CallAtPlace(codec, AddAll(fs), p);
      FragmentsAreGathered(fs, k);
    }
  }

  /** Where the call of fragment `i` comes out. */
  function PlaceOf(fs: seq<Fragment>, i: nat): nat
    requires i < |fs|
  {
    Place(Indices(fs), fs[i].index)
  }

  /** Every listed call is the one at the place its index takes. */
  ghost predicate InPlace(fs: seq<Fragment>, listed: seq<ToolCall>)
    requires |listed| == |fs|
  {
    forall i :: 0 <= i < |fs| ==> PlaceOf(fs, i) < |listed| && listed[PlaceOf(fs, i)] == listed[i]
  }

  lemma DistinctCall(codec: Codec, fs: seq<Fragment>, i: nat)
    requires Distinct(fs) && i < |fs|
    ensures |ToolCalls(codec, AddAll(fs))| == |fs| && PlaceOf(fs, i) < |fs|
    ensures ToolCalls(codec, AddAll(fs))[PlaceOf(fs, i)] == CallFrom(codec, (fs[i].name, fs[i].args))
  {
    IndexCount(fs);
    GatheredInOrder(codec, fs);
    assert fs[i].index in Indices(fs);
    KeyHasPlace(Indices(fs), fs[i].index);
    OnlyFragment(fs, i, fs[i].index);
  }

  lemma PlaceIsTaken(fs: seq<Fragment>, p: nat) returns (i: nat)
    requires p < |Indices(fs)|
    ensures i < |fs| && PlaceOf(fs, i) == p
  {
    KeyAtPlace(Indices(fs), p);
    i :| 0 <= i < |fs| && fs[i].index == SortedKeys(Indices(fs))[p];
  }

  /** `calls` are the listed ones, each at the place of its index. */
  ghost predicate Permutes(fs: seq<Fragment>, calls: seq<ToolCall>, listed: seq<ToolCall>)
    requires |listed| == |fs|
  {
    |calls| == |fs| &&
    forall i :: 0 <= i < |fs| ==> PlaceOf(fs, i) < |fs| && calls[PlaceOf(fs, i)] == listed[i]
  }

  lemma SameWhenInPlace(fs: seq<Fragment>, calls: seq<ToolCall>, listed: seq<ToolCall>)
    requires |listed| == |fs| == |Indices(fs)| && Permutes(fs, calls, listed) && InPlace(fs, listed)
    ensures calls == listed
  {
    forall p | 0 <= p < |calls| ensures calls[p] == listed[p] {
      var i := PlaceIsTaken(fs, p);
      assert calls[PlaceOf(fs, i)] == listed[i] == listed[PlaceOf(fs, i)];
    }
  }

  lemma InPlaceWhenSame(fs: seq<Fragment>, calls: seq<ToolCall>, listed: seq<ToolCall>)
    requires |listed| == |fs| && Permutes(fs, calls, listed) && calls == listed
    ensures InPlace(fs, listed)
  {
  }

  lemma DistinctPermutes(codec: Codec, fs: seq<Fragment>, listed: seq<ToolCall>)
    requires |listed| == |fs| && Distinct(fs)
    requires forall i :: 0 <= i < |fs| ==> listed[i] == CallFrom(codec, (fs[i].name, fs[i].args))
    ensures Permutes(fs, ToolCalls(codec, AddAll(fs)), listed)
  {
    IndexCount(fs);
    GatheredInOrder(codec, fs);
    forall i | 0 <= i < |fs|
      ensures PlaceOf(fs, i) < |fs| && ToolCalls(codec, AddAll(fs))[PlaceOf(fs, i)] == listed[i]
    {
      DistinctCall(codec, fs, i);
    }
  }

  lemma OrderIs(fs: seq<Fragment>, calls: seq<ToolCall>, listed: seq<ToolCall>)
    requires |listed| == |fs| == |Indices(fs)| && Permutes(fs, calls, listed)
    ensures calls == listed <==> InPlace(fs, listed)
  {
    if InPlace(fs, listed) {
      SameWhenInPlace(fs, calls, listed);
    }
    if calls == listed {
      InPlaceWhenSame(fs, calls, listed);
    }
  }

  lemma CallForEachIndex(codec: Codec, fs: seq<Fragment>)
    ensures |ToolCalls(codec, AddAll(fs))| == |Indices(fs)|
  {
    BufferedIndices(fs);
    CallCount(codec, AddAll(fs));
  }

  /** The order decides: calls listed one fragment each come out as listed exactly if no two share an
      index and every one stands where its index belongs. Shared indices make the result shorter. */
  lemma OrderDecides(codec: Codec, fs: seq<Fragment>, listed: seq<ToolCall>)
    requires |listed| == |fs|
    requires forall i :: 0 <= i < |fs| ==> listed[i] == CallFrom(codec, (fs[i].name, fs[i].args))
    ensures ToolCalls(codec, AddAll(fs)) == listed <==> Distinct(fs) && InPlace(fs, listed)
    ensures |ToolCalls(codec, AddAll(fs))| < |listed| <==> !Distinct(fs)
  {
    IndexCount(fs);
    CallForEachIndex(codec, fs);
    if Distinct(fs) {
      DistinctPermutes(codec, fs, listed);
      OrderIs(fs, ToolCalls(codec, AddAll(fs)), listed);
    }
  }

  // ----- rising indices

  ghost predicate Rising(fs: seq<Fragment>) {
    forall i, j :: 0 <= i < j < |fs| ==> fs[i].index < fs[j].index
  }

  /** Rising indices are distinct, and every call stands in its place. */
  lemma RisingInPlace(fs: seq<Fragment>, i: nat)
    requires Rising(fs) && i < |fs|
    ensures Distinct(fs) && PlaceOf(fs, i) == i
  {
    var before := fs[..i];
    forall k ensures k in Below(Indices(fs), fs[i].index) <==> k in Indices(before) {
      if k in Indices(before) {
        var m :| 0 <= m < |before| && before[m].index == k;
        assert fs[m].index == k;
      }
      if k in Below(Indices(fs), fs[i].index) {
        var m :| 0 <= m < |fs| && fs[m].index == k;
        assert m < i;
        assert before[m].index == k;
      }
    }
    assert Below(Indices(fs), fs[i].index) == Indices(before);
    IndexCount(before);
  }
}
