/** Which lines the structural index keeps, told from the lines and their indents alone. */
module MaskMeaning {
  import opened Lines
  import opened KeptMask
  import opened Elision

  /** Line `k` is the next one behind line `i` that one can see. */
  ghost predicate Follows(xs: seq<SLine>, i: int, k: int) {
    0 <= i < k < |xs| && !xs[k].blank && !xs[k].annotation &&
    forall m :: i < m < k ==> xs[m].blank || xs[m].annotation
  }

  /** The next line one can see is indented deeper. */
  ghost predicate OpensBlock(xs: seq<SLine>, i: int) {
    exists k {:trigger Follows(xs, i, k)} :: Follows(xs, i, k) && xs[k].indent > xs[i].indent
  }

  /** No line one can see is indented less. */
  ghost predicate AtTheEdge(xs: seq<SLine>, i: nat)
    requires i < |xs|
  {
    forall k :: 0 <= k < |xs| && !xs[k].blank && !xs[k].annotation ==> xs[i].indent <= xs[k].indent
  }

  /** A line of the outermost level, or one that opens a block. */
  ghost predicate Carries(xs: seq<SLine>, i: nat) {
    i < |xs| && !xs[i].blank && !xs[i].annotation && (AtTheEdge(xs, i) || OpensBlock(xs, i))
  }

  /** The carrying lines that are indented less than line `i`. */
  ghost function Shallower(xs: seq<SLine>, i: nat): set<nat>
    requires i < |xs|
  {
    set j: nat | j < |xs| && Carries(xs, j) && xs[j].indent < xs[i].indent
  }

  // ----- which lines qualify

  lemma {:induction false} NextIsSomewhere(xs: seq<SLine>, i: nat)
    requires i < |xs|
    ensures NextIndent(xs[i + 1..]).Some? ==>
              exists k {:trigger Follows(xs, i, k)} ::
                Follows(xs, i, k) && xs[k].indent == NextIndent(xs[i + 1..]).value
    decreases |xs| - i
  {
    if NextIndent(xs[i + 1..]).Some? {
      if Visible(xs[i + 1]) {
        assert Follows(xs, i, i + 1);
      } else {
        assert xs[i + 1..][1..] == xs[i + 2..];
        NextIsSomewhere(xs, i + 1);
        var k :| Follows(xs, i + 1, k) && xs[k].indent == NextIndent(xs[i + 2..]).value;
        assert Follows(xs, i, k);
      }
    }
  }

  lemma {:induction false} OpensMeans(xs: seq<SLine>, i: nat)
    requires i < |xs|
    ensures OpensBlock(xs, i) <==> NextIndent(xs[i + 1..]).Some? && NextIndent(xs[i + 1..]).value > xs[i].indent
  {
    NextIsSomewhere(xs, i);
    if OpensBlock(xs, i) {
      var k :| Follows(xs, i, k) && xs[k].indent > xs[i].indent;
      NextIndentIs(xs, i, k);
    }
  }

  lemma {:induction false} EdgeMeans(xs: seq<SLine>, i: nat)
    requires i < |xs| && !xs[i].blank && !xs[i].annotation
    ensures AtTheEdge(xs, i) <==> xs[i].indent == MinIndent(xs)
  {
    MinIsLeast(xs, i);
    var k := LeastIsSomewhere(xs);
    forall m | 0 <= m < |xs| && !xs[m].blank && !xs[m].annotation ensures MinIndent(xs) <= xs[m].indent {
      MinIsLeast(xs, m);
    }
  }

  lemma {:induction false} QualifyingMeans(xs: seq<SLine>, i: nat)
    requires i < |xs|
    ensures Qualifying(xs)[i] <==> xs[i].annotation || Carries(xs, i)
  {
    OpensMeans(xs, i);
    if !xs[i].blank && !xs[i].annotation {
      EdgeMeans(xs, i);
    }
  }

  // ----- counting levels

  /** The first `n` lines that are kept, are no annotations, and lie no deeper than `c`. */
  function KeptWithin(xs: seq<SLine>, kept: seq<bool>, c: int, n: nat): set<nat>
    requires n <= |xs| == |kept|
  {
    set j: nat | j < n && kept[j] && !xs[j].annotation && xs[j].indent <= c
  }

  lemma {:induction false} LevelsAreCounted(xs: seq<SLine>, kept: seq<bool>, c: int, n: nat)
    requires n <= |xs| == |kept|
    ensures UpTo(Levels(xs[..n], kept[..n]), c) == |KeptWithin(xs, kept, c, n)|
  {
    if n == 0 {
      assert KeptWithin(xs, kept, c, 0) == {};
    } else {
      LevelsAreCounted(xs, kept, c, n - 1);
      assert xs[..n][..n - 1] == xs[..n - 1] && kept[..n][..n - 1] == kept[..n - 1];
      var more := if kept[n - 1] && !xs[n - 1].annotation then [xs[n - 1].indent] else [];
      UpToConcat(Levels(xs[..n - 1], kept[..n - 1]), more, c);
      LastWithin(xs, kept, c, n);
    }
  }

  lemma {:induction false} LastWithin(xs: seq<SLine>, kept: seq<bool>, c: int, n: nat)
    requires 0 < n <= |xs| == |kept|
    ensures |KeptWithin(xs, kept, c, n)| == |KeptWithin(xs, kept, c, n - 1)| +
              if kept[n - 1] && !xs[n - 1].annotation && xs[n - 1].indent <= c then 1 else 0
  {
    var before := KeptWithin(xs, kept, c, n - 1);
    if kept[n - 1] && !xs[n - 1].annotation && xs[n - 1].indent <= c {
      assert KeptWithin(xs, kept, c, n) == before + {n - 1};
    } else {
      assert KeptWithin(xs, kept, c, n) == before;
    }
  }

  lemma {:induction false} ShallowerAreCounted(xs: seq<SLine>, i: nat)
    requires i < |xs|
    ensures |Shallower(xs, i)| == UpTo(Levels(xs, Qualifying(xs)), xs[i].indent - 1)
  {
    var q := Qualifying(xs);
    LevelsAreCounted(xs, q, xs[i].indent - 1, |xs|);
    assert xs[..|xs|] == xs && q[..|q|] == q;
    forall j: nat ensures j in Shallower(xs, i) <==> j in KeptWithin(xs, q, xs[i].indent - 1, |xs|) {
      if j < |xs| {
        QualifyingMeans(xs, j);
      }
    }
    assert Shallower(xs, i) == KeptWithin(xs, q, xs[i].indent - 1, |xs|);
  }

  // ----- the theorem

  /** A carrying line does not lie above itself. */
  lemma {:induction false} CarryingIsCounted(xs: seq<SLine>, i: nat)
    requires i < |xs|
    ensures Carries(xs, i) ==> UpTo(Levels(xs, Qualifying(xs)), xs[i].indent - 1) < |Levels(xs, Qualifying(xs))|
  {
    var q := Qualifying(xs);
    var levels := Levels(xs, q);
    if Carries(xs, i) {
      QualifyingMeans(xs, i);
      LevelsAreCounted(xs, q, xs[i].indent - 1, |xs|);
      LevelsAreCounted(xs, q, xs[i].indent, |xs|);
      assert xs[..|xs|] == xs && q[..|q|] == q;
      var a, b := KeptWithin(xs, q, xs[i].indent - 1, |xs|), KeptWithin(xs, q, xs[i].indent, |xs|);
      assert i in b && i !in a && a <= b - {i};
      SmallerSet(a, b - {i});
      UpToGrows(levels, xs[i].indent, xs[i].indent);
    }
  }

  lemma {:induction false} SmallerSet(a: set<nat>, b: set<nat>)
    requires a <= b
    ensures |a| <= |b|
    decreases |a|
  {
    if a != {} {
      var x :| x in a;
      SmallerSet(a - {x}, b - {x});
    }
  }

  /** Over the cap: a level lies within the cutoff exactly if fewer than `cap` numbers are smaller. */
  lemma {:induction false} CutoffMeans(levels: seq<nat>, cap: nat, c: int, d: int)
    requires UpTo(levels, c - 1) < cap <= UpTo(levels, c)
    ensures d <= c <==> UpTo(levels, d - 1) < cap
  {
    if d <= c {
      UpToGrows(levels, d - 1, c - 1);
    } else {
      UpToGrows(levels, c, d - 1);
    }
  }

  lemma {:induction false} QualifyingSurvives(xs: seq<SLine>, cap: nat, i: nat, d: int)
    requires cap >= 1 && i < |xs| && d == xs[i].indent && |Levels(xs, Qualifying(xs))| > cap
    ensures Mask(xs, cap)[i] <==>
              Qualifying(xs)[i] && (xs[i].annotation || UpTo(Levels(xs, Qualifying(xs)), d - 1) < cap)
  {
    var c := CapIsExact(xs, cap);
    CutoffMeans(Levels(xs, Qualifying(xs)), cap, c, d);
  }

  lemma {:induction false} AllSurvive(xs: seq<SLine>, cap: nat, i: nat)
    requires cap >= 1 && i < |xs| && |Levels(xs, Qualifying(xs))| <= cap
    ensures Mask(xs, cap)[i] == Qualifying(xs)[i]
  {
    MaskBasics(xs, cap, i);
  }

  lemma {:induction false} StaysByCount(xs: seq<SLine>, cap: nat, i: nat, d: int, n: nat)
    requires cap >= 1 && i < |xs| && d == xs[i].indent && n == UpTo(Levels(xs, Qualifying(xs)), d - 1)
    ensures Mask(xs, cap)[i] <==> xs[i].annotation || (Carries(xs, i) && n < cap)
  {
    QualifyingMeans(xs, i);
    if |Levels(xs, Qualifying(xs))| > cap {
      QualifyingSurvives(xs, cap, i, d);
    } else {
      AllSurvive(xs, cap, i);
      CarryingIsCounted(xs, i);
    }
  }

  lemma {:induction false} StaysBelow(xs: seq<SLine>, cap: nat, i: nat, n: nat)
    requires cap >= 1 && i < |xs| && n == |Shallower(xs, i)|
    ensures Mask(xs, cap)[i] <==> xs[i].annotation || (Carries(xs, i) && n < cap)
  {
    ShallowerAreCounted(xs, i);
    StaysByCount(xs, cap, i, xs[i].indent, n);
  }

  /** A note of the earlier pass stays. Any other line stays exactly if it carries structure and fewer
      than `cap` carrying lines are indented less: under the cap every carrying line, over it those no
      deeper than the cap-th smallest of their indents. */
  lemma {:induction false} MaskIs(xs: seq<SLine>, cap: nat, i: nat)
    requires cap >= 1 && i < |xs|
    ensures Mask(xs, cap)[i] <==> xs[i].annotation || (Carries(xs, i) && |Shallower(xs, i)| < cap)
  {
    StaysBelow(xs, cap, i, |Shallower(xs, i)|);
  }

  // ----- the index

  /** Line `i` lies in a stretch of at least three lines of which none is kept. */
  ghost predicate LiesBare(kept: seq<bool>, i: nat) {
    exists a, b :: BareStretch(kept, a, b) && a <= i < b
  }

  ghost predicate BareStretch(kept: seq<bool>, a: int, b: int) {
    0 <= a && a + 3 <= b <= |kept| && forall k :: a <= k < b ==> !kept[k]
  }

  ghost predicate InGap(items: seq<Item>, i: nat) {
    exists k :: 0 <= k < |items| && items[k].Gap? && items[k].from <= i < items[k].to
  }

  /** The index leaves out exactly the lines of such stretches. */
  lemma {:induction false} GapsAreBare(kept: seq<bool>, i: nat)
    requires i < |kept|
    ensures InGap(Items(kept, 0), i) <==> LiesBare(kept, i)
  {
    var items := Items(kept, 0);
    ItemsAreRight(kept, 0);
    if InGap(items, i) {
      var k :| 0 <= k < |items| && items[k].Gap? && items[k].from <= i < items[k].to;
      assert ItemIsRight(kept, items[k]);
      assert BareStretch(kept, items[k].from, items[k].to);
    }
    if LiesBare(kept, i) {
      var a, b :| BareStretch(kept, a, b) && a <= i < b;
      BareIsNotShown(kept, a, b, i);
      var k := TileOf(items, 0, |kept|, i);
      assert ItemIsRight(kept, items[k]);
    }
  }

  lemma BareIsNotShown(kept: seq<bool>, a: int, b: int, i: nat)
    requires BareStretch(kept, a, b) && a <= i < b
    ensures !ShownIsRight(kept, i)
  {
    forall from: nat, end: nat ensures !IsShortStretch(kept, from, end, i) {
    }
  }

  /** The line stays in the index. */
  ghost predicate Stays(xs: seq<SLine>, cap: nat, i: nat) {
    i < |xs| && (xs[i].annotation || (Carries(xs, i) && |Shallower(xs, i)| < cap))
  }

  /** Three or more lines in a row of which none stays. */
  ghost predicate NoneStays(xs: seq<SLine>, cap: nat, a: int, b: int) {
    0 <= a && a + 3 <= b <= |xs| && forall k: nat :: a <= k < b ==> !Stays(xs, cap, k)
  }

  lemma {:induction false} MaskedStretch(xs: seq<SLine>, cap: nat, a: int, b: int)
    requires cap >= 1
    ensures BareStretch(Mask(xs, cap), a, b) <==> NoneStays(xs, cap, a, b)
  {
    forall k: nat | k < |xs| ensures Mask(xs, cap)[k] <==> Stays(xs, cap, k) {
      MaskIs(xs, cap, k);
    }
  }

  /** The structural index leaves a line out exactly if it lies in a row of at least three lines of which
      none is a note, an outermost line or the opener of a block among those the cap admits. */
  lemma {:induction false} IndexLeavesOut(xs: seq<SLine>, cap: nat, i: nat)
    requires cap >= 1 && i < |xs|
    ensures InGap(Items(Mask(xs, cap), 0), i) <==> exists a, b :: NoneStays(xs, cap, a, b) && a <= i < b
  {
    GapsAreBare(Mask(xs, cap), i);
    forall a, b ensures BareStretch(Mask(xs, cap), a, b) <==> NoneStays(xs, cap, a, b) {
      MaskedStretch(xs, cap, a, b);
    }
  }

  /** It applies exactly to six lines or more of which it leaves some out. */
  lemma {:induction false} IndexApplies(xs: seq<SLine>, fileCoords: bool, cap: nat)
    requires cap >= 1
    ensures Structural(xs, fileCoords, cap).Some? <==> |xs| >= 6 && exists a, b :: NoneStays(xs, cap, a, b)
  {
    var items := Items(Mask(xs, cap), 0);
    ItemsAreRight(Mask(xs, cap), 0);
    if HasGap(items) {
      var k :| 0 <= k < |items| && items[k].Gap?;
      assert ItemIsRight(Mask(xs, cap), items[k]);
      assert BareStretch(Mask(xs, cap), items[k].from, items[k].to);
      MaskedStretch(xs, cap, items[k].from, items[k].to);
    }
    if a, b :| NoneStays(xs, cap, a, b) {
      IndexLeavesOut(xs, cap, a);
    }
  }
}
