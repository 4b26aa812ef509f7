/** Which lines the structural index keeps: openers of deeper blocks, up to a cap on their number. */
module KeptMask {
  import opened Options
  import opened Lines

  predicate Visible(x: SLine) {
    !x.blank && !x.annotation
  }

  // ----- which lines qualify

  /** The indent of the first visible line, if there is one. */
  function NextIndent(xs: seq<SLine>): Option<nat> {
    if xs == [] then None else if Visible(xs[0]) then Some(xs[0].indent) else NextIndent(xs[1..])
  }

  function MinOf(least: Option<nat>, x: SLine): Option<nat> {
    if !Visible(x) then least
    else match least case None => Some(x.indent) case Some(m) => Some(if x.indent < m then x.indent else m)
  }

  function LeastIndent(xs: seq<SLine>): Option<nat> {
    if xs == [] then None else MinOf(LeastIndent(xs[..|xs| - 1]), xs[|xs| - 1])
  }

  function MinIndent(xs: seq<SLine>): nat {
    LeastIndent(xs).GetOr(0)
  }

  /** An annotation, a line at the outermost level, or one that opens a deeper level. */
  predicate Qualifies(x: SLine, min: nat, next: Option<nat>) {
    x.annotation || (!x.blank && (x.indent == min || (next.Some? && next.value > x.indent)))
  }

  function Qualifying(xs: seq<SLine>): (q: seq<bool>)
    ensures |q| == |xs|
  {
    seq(|xs|, i requires 0 <= i < |xs| => Qualifies(xs[i], MinIndent(xs), NextIndent(xs[i + 1..])))
  }

  // ----- the cap

  /** Indents of the kept lines that are not annotations. */
  function Levels(xs: seq<SLine>, kept: seq<bool>): seq<nat>
    requires |kept| == |xs|
  {
    if xs == [] then []
    else
      var n := |xs| - 1;
      Levels(xs[..n], kept[..n]) + if kept[n] && !xs[n].annotation then [xs[n].indent] else []
  }

  function Insert(s: seq<nat>, x: nat): seq<nat> {
    if s == [] || x <= s[0] then [x] + s else [s[0]] + Insert(s[1..], x)
  }

  /** `sort_unstable`: equal numbers cannot be told apart. */
  function Sorted(s: seq<nat>): seq<nat> {
    if s == [] then [] else Insert(Sorted(s[1..]), s[0])
  }

  /** How many of the numbers are at most `c`. */
  function UpTo(s: seq<nat>, c: int): nat {
    if s == [] then 0 else UpTo(s[1..], c) + if s[0] <= c then 1 else 0
  }

  predicate Ordered(s: seq<nat>) {
    forall i, j :: 0 <= i < j < |s| ==> s[i] <= s[j]
  }

  lemma {:induction false} InsertPermutes(s: seq<nat>, x: nat)
    ensures multiset(Insert(s, x)) == multiset(s) + multiset{x}
  {
    if s != [] && x > s[0] {
      InsertPermutes(s[1..], x);
      assert s == [s[0]] + s[1..];
    }
  }

  lemma {:induction false} InsertKeepsOrder(s: seq<nat>, x: nat)
    requires Ordered(s)
    ensures var t := Insert(s, x);
            Ordered(t) && forall i :: 0 <= i < |t| ==> t[i] >= x || (s != [] && t[i] >= s[0])
  {
    if s != [] && x > s[0] {
      InsertKeepsOrder(s[1..], x);
    }
  }

  lemma {:induction false} SortedIsSorted(s: seq<nat>)
    ensures Ordered(Sorted(s)) && multiset(Sorted(s)) == multiset(s) && |Sorted(s)| == |s|
  {
    if s != [] {
      SortedIsSorted(s[1..]);
      InsertPermutes(Sorted(s[1..]), s[0]);
      InsertKeepsOrder(Sorted(s[1..]), s[0]);
      assert s == [s[0]] + s[1..];
      assert |multiset(Sorted(s))| == |multiset(s)|;
    }
  }

  lemma {:induction false} InsertCounts(s: seq<nat>, x: nat, c: int)
    ensures UpTo(Insert(s, x), c) == UpTo(s, c) + if x <= c then 1 else 0
  {
    if s == [] || x <= s[0] {
      assert ([x] + s)[1..] == s;
    } else {
      InsertCounts(s[1..], x, c);
      assert ([s[0]] + Insert(s[1..], x))[1..] == Insert(s[1..], x);
    }
  }

  lemma {:induction false} SortedCounts(s: seq<nat>, c: int)
    ensures UpTo(Sorted(s), c) == UpTo(s, c)
  {
    if s != [] {
      SortedCounts(s[1..], c);
      InsertCounts(Sorted(s[1..]), s[0], c);
    }
  }

  lemma {:induction false} OrderedCounts(s: seq<nat>, k: nat, c: int)
    requires Ordered(s) && k <= |s|
    ensures (forall i :: 0 <= i < k ==> s[i] <= c) ==> UpTo(s, c) >= k
    ensures (forall i :: k <= i < |s| ==> s[i] > c) ==> UpTo(s, c) <= k
  {
    if s != [] {
      OrderedCounts(s[1..], if k == 0 then 0 else k - 1, c);
    }
  }

  /** The `k`-th smallest: at least `k` numbers are no larger and fewer than `k` are smaller. */
  ghost predicate IsKthSmallest(s: seq<nat>, k: nat, c: nat) {
    c in s && UpTo(s, c - 1) < k <= UpTo(s, c)
  }

  lemma SortedAtIsKthSmallest(s: seq<nat>, k: nat)
    requires 1 <= k <= |s|
    ensures |Sorted(s)| == |s| && IsKthSmallest(s, k, Sorted(s)[k - 1])
  {
    SortedIsSorted(s);
    var t := Sorted(s);
    var c: int := t[k - 1];
    SortedCounts(s, c);
    SortedCounts(s, c - 1);
    OrderedAround(t, k);
    assert t[k - 1] in multiset(t);
  }

  lemma OrderedAround(t: seq<nat>, k: nat)
    requires Ordered(t) && 1 <= k <= |t|
    ensures var c: int := t[k - 1]; UpTo(t, c - 1) < k <= UpTo(t, c)
  {
    var c: int := t[k - 1];
    OrderedCounts(t, k, c);
    OrderedCounts(t, k - 1, c - 1);
  }

  /** Only one number is the `k`-th smallest. */
  lemma KthSmallestIsUnique(s: seq<nat>, k: nat, c: nat, d: nat)
    requires IsKthSmallest(s, k, c) && IsKthSmallest(s, k, d)
    ensures c == d
  {
    if c < d {
      UpToGrows(s, c, d - 1);
    } else if d < c {
      UpToGrows(s, d, c - 1);
    }
  }

  lemma {:induction false} UpToGrows(s: seq<nat>, c: int, d: int)
    requires c <= d
    ensures UpTo(s, c) <= UpTo(s, d) <= |s|
  {
    if s != [] {
      UpToGrows(s[1..], c, d);
    }
  }

  /** Under the cap every qualifying line stays; over it, those no deeper than the cap-th smallest indent. */
  function Mask(xs: seq<SLine>, cap: nat): (kept: seq<bool>)
    requires cap >= 1
    ensures |kept| == |xs|
  {
    var q := Qualifying(xs);
    var levels := Levels(xs, q);
    if |levels| > cap then
      SortedIsSorted(levels);
      Pruned(xs, q, Sorted(levels)[cap - 1])
    else q
  }

  function Pruned(xs: seq<SLine>, kept: seq<bool>, cutoff: nat): (r: seq<bool>)
    requires |kept| == |xs|
    ensures |r| == |xs|
  {
    seq(|xs|, i requires 0 <= i < |xs| => kept[i] && (xs[i].annotation || xs[i].indent <= cutoff))
  }

  // ----- the loops

  method FindMin(xs: seq<SLine>) returns (min: nat)
    ensures min == MinIndent(xs)
  {
    var least: Option<nat> := None;
    for i := 0 to |xs|
      invariant least == LeastIndent(xs[..i])
    {
      assert xs[..i + 1][..i] == xs[..i];
      least := MinOf(least, xs[i]);
    }
    assert xs[..|xs|] == xs;
    min := least.GetOr(0);
  }

  method FindNext(xs: seq<SLine>, from: nat) returns (next: Option<nat>)
    requires from <= |xs|
    ensures next == NextIndent(xs[from..])
  {
    var i := from;
    while i < |xs| && !Visible(xs[i])
      invariant from <= i <= |xs| && NextIndent(xs[from..]) == NextIndent(xs[i..])
    {
      i := i + 1;
    }
    next := if i < |xs| then Some(xs[i].indent) else None;
  }

  /** The first pass, line by line, in the order of the tests. */
  method MarkLine(xs: seq<SLine>, i: nat, min: nat) returns (kept: bool)
    requires i < |xs|
    ensures kept == Qualifies(xs[i], min, NextIndent(xs[i + 1..]))
  {
    if xs[i].annotation {
      return true;
    }
    if xs[i].blank {
      return false;
    }
    if xs[i].indent == min {
      return true;
    }
    var next := FindNext(xs, i + 1);
    kept := next.Some? && next.value > xs[i].indent;
  }

  method Mark(xs: seq<SLine>, kept: array<bool>)
    requires kept.Length == |xs|
    modifies kept
    ensures kept[..] == Qualifying(xs)
  {
    var min := FindMin(xs);
    for i := 0 to |xs|
      invariant kept[..i] == Qualifying(xs)[..i]
    {
      kept[i] := MarkLine(xs, i, min);
    }
    assert kept[..] == Qualifying(xs);
  }

  /** How many of the kept lines that are not annotations lie no deeper than `c`. */
  function KeptUpTo(xs: seq<SLine>, kept: seq<bool>, c: int): nat
    requires |kept| == |xs|
  {
    UpTo(Levels(xs, kept), c)
  }

  lemma {:induction false} UpToConcat(a: seq<nat>, b: seq<nat>, c: int)
    ensures UpTo(a + b, c) == UpTo(a, c) + UpTo(b, c)
  {
    if a == [] {
      assert a + b == b;
    } else {
      assert (a + b)[1..] == a[1..] + b;
      UpToConcat(a[1..], b, c);
    }
  }

  /** Taking a line deeper than `c` out leaves one level fewer, and as many up to `c`. */
  lemma {:induction false} DropOne(xs: seq<SLine>, kept: seq<bool>, i: nat, c: int)
    requires |kept| == |xs| && i < |xs| && kept[i] && !xs[i].annotation && xs[i].indent > c
    ensures |Levels(xs, kept[i := false])| == |Levels(xs, kept)| - 1
    ensures KeptUpTo(xs, kept[i := false], c) == KeptUpTo(xs, kept, c) < |Levels(xs, kept)|
  {
    var n := |xs| - 1;
    var less := kept[i := false];
    var last := if less[n] && !xs[n].annotation then [xs[n].indent] else [];
    UpToConcat(Levels(xs[..n], less[..n]), last, c);
    UpToGrows(Levels(xs[..n], kept[..n]), c, c);
    if i == n {
      assert less[..n] == kept[..n];
      UpToConcat(Levels(xs[..n], kept[..n]), [xs[n].indent], c);
      assert UpTo([xs[n].indent], c) == 0;
    } else {
      assert less[..n] == kept[..n][i := false];
      DropOne(xs[..n], kept[..n], i, c);
      UpToConcat(Levels(xs[..n], kept[..n]), last, c);
      UpToGrows(last, c, c);
    }
  }

  /** Pruned before line `i`, as it was from there on. */
  ghost predicate PrunedBefore(xs: seq<SLine>, was: seq<bool>, now: seq<bool>, cutoff: nat, i: nat) {
    |was| == |now| == |xs| &&
    forall k :: 0 <= k < |xs| ==> now[k] == if k < i then Pruned(xs, was, cutoff)[k] else was[k]
  }

  lemma PruneStep(xs: seq<SLine>, was: seq<bool>, now: seq<bool>, cutoff: nat, i: nat)
    requires i < |xs| && PrunedBefore(xs, was, now, cutoff, i)
    ensures if now[i] && !xs[i].annotation && xs[i].indent > cutoff
            then PrunedBefore(xs, was, now[i := false], cutoff, i + 1)
            else PrunedBefore(xs, was, now, cutoff, i + 1)
  {
  }

  /** The second pass. The guard on the count never stops it: at least `cap` lines lie at or above the cutoff. */
  method Prune(xs: seq<SLine>, kept: array<bool>, cutoff: nat, count0: nat, cap: nat)
    requires kept.Length == |xs| && count0 == |Levels(xs, kept[..])| && KeptUpTo(xs, kept[..], cutoff) >= cap
    modifies kept
    ensures kept[..] == Pruned(xs, old(kept[..]), cutoff)
  {
    var count := count0;
    ghost var was := kept[..];
    for i := 0 to |xs|
      invariant PrunedBefore(xs, was, kept[..], cutoff, i)
      invariant count == |Levels(xs, kept[..])| && KeptUpTo(xs, kept[..], cutoff) >= cap
    {
      ghost var now := kept[..];
      PruneStep(xs, was, now, cutoff, i);
      if kept[i] && !xs[i].annotation && xs[i].indent > cutoff {
        DropOne(xs, now, i, cutoff);
        if count > cap {
          kept[i] := false;
          count := count - 1;
          assert kept[..] == now[i := false];
        }
      }
    }
    assert kept[..] == Pruned(xs, was, cutoff);
  }

  method ComputeMask(xs: seq<SLine>, cap: nat) returns (mask: seq<bool>)
    requires cap >= 1
    ensures mask == Mask(xs, cap)
  {
    var kept := new bool[|xs|];
    Mark(xs, kept);
    var levels := Levels(xs, kept[..]);
    var count := |levels|;
    if count > cap {
      SortedAtIsKthSmallest(levels, cap);
      var cutoff := Sorted(levels)[cap - 1];
      Prune(xs, kept, cutoff, count, cap);
    }
    mask := kept[..];
  }

  // ----- what the mask keeps

  lemma {:induction false} MinIsLeast(xs: seq<SLine>, i: nat)
    requires i < |xs| && Visible(xs[i])
    ensures LeastIndent(xs).Some? && LeastIndent(xs).value <= xs[i].indent
  {
    if i < |xs| - 1 {
      MinIsLeast(xs[..|xs| - 1], i);
    }
  }

  lemma {:induction false} LevelComesFrom(xs: seq<SLine>, kept: seq<bool>, c: nat) returns (i: nat)
    requires |kept| == |xs| && c in Levels(xs, kept)
    ensures i < |xs| && kept[i] && !xs[i].annotation && xs[i].indent == c
  {
    var n := |xs| - 1;
    if kept[n] && !xs[n].annotation && xs[n].indent == c {
      i := n;
    } else {
      i := LevelComesFrom(xs[..n], kept[..n], c);
    }
  }

  lemma {:induction false} PrunedLevels(xs: seq<SLine>, kept: seq<bool>, c: nat, d: int)
    requires |kept| == |xs| && d <= c
    ensures UpTo(Levels(xs, Pruned(xs, kept, c)), d) == UpTo(Levels(xs, kept), d)
    ensures |Levels(xs, Pruned(xs, kept, c))| == UpTo(Levels(xs, kept), c)
  {
    if xs != [] {
      var n := |xs| - 1;
      var p := Pruned(xs, kept, c);
      assert p[..n] == Pruned(xs[..n], kept[..n], c);
      PrunedLevels(xs[..n], kept[..n], c, d);
      var a := if kept[n] && !xs[n].annotation then [xs[n].indent] else [];
      var b := if p[n] && !xs[n].annotation then [xs[n].indent] else [];
      UpToConcat(Levels(xs[..n], kept[..n]), a, d);
      UpToConcat(Levels(xs[..n], kept[..n]), a, c);
      UpToConcat(Levels(xs[..n], p[..n]), b, d);
    }
  }

  /** `c` cuts the qualifying lines: those no deeper survive, and no others. */
  ghost predicate CutsAt(xs: seq<SLine>, mask: seq<bool>, c: nat)
    requires |mask| == |xs|
  {
    forall i :: 0 <= i < |xs| ==>
      (mask[i] <==> Qualifying(xs)[i] && (xs[i].annotation || xs[i].indent <= c))
  }

  /** Over the cap, the survivors are exactly the qualifying lines up to the cap-th smallest indent:
      at least `cap` of them, of which fewer than `cap` lie above the cutoff level, so only ties overshoot. */
  lemma CapIsExact(xs: seq<SLine>, cap: nat) returns (c: nat)
    requires cap >= 1 && |Levels(xs, Qualifying(xs))| > cap
    ensures IsKthSmallest(Levels(xs, Qualifying(xs)), cap, c) && CutsAt(xs, Mask(xs, cap), c)
    ensures UpTo(Levels(xs, Mask(xs, cap)), c - 1) < cap <= |Levels(xs, Mask(xs, cap))|
    ensures MinIndent(xs) <= c
  {
    var q := Qualifying(xs);
    SortedAtIsKthSmallest(Levels(xs, q), cap);
    c := Sorted(Levels(xs, q))[cap - 1];
    SurvivorsAtCutoff(xs, q, cap, c);
    LevelIsDeeper(xs, c);
  }

  lemma SurvivorsAtCutoff(xs: seq<SLine>, q: seq<bool>, cap: nat, c: nat)
    requires |q| == |xs| && IsKthSmallest(Levels(xs, q), cap, c)
    ensures UpTo(Levels(xs, Pruned(xs, q, c)), c - 1) < cap <= |Levels(xs, Pruned(xs, q, c))|
  {
    PrunedLevels(xs, q, c, c - 1);
  }

  lemma LevelIsDeeper(xs: seq<SLine>, c: nat)
    requires c in Levels(xs, Qualifying(xs))
    ensures MinIndent(xs) <= c
  {
    var i := LevelComesFrom(xs, Qualifying(xs), c);
    MinIsLeast(xs, i);
  }

  /** A line one can see, no deeper than any other. */
  ghost predicate IsOutermost(xs: seq<SLine>, i: nat)
    requires i < |xs|
  {
    Visible(xs[i]) && forall k :: 0 <= k < |xs| && Visible(xs[k]) ==> xs[i].indent <= xs[k].indent
  }

  lemma OutermostQualifies(xs: seq<SLine>, i: nat)
    requires i < |xs| && IsOutermost(xs, i)
    ensures xs[i].indent == MinIndent(xs) && Qualifying(xs)[i]
  {
    MinIsLeast(xs, i);
    var k := LeastIsSomewhere(xs);
  }

  lemma MaskIsPart(xs: seq<SLine>, cap: nat, i: nat)
    requires cap >= 1 && i < |xs|
    ensures Mask(xs, cap)[i] ==> Qualifying(xs)[i]
    ensures Qualifying(xs)[i] && (xs[i].annotation || xs[i].indent <= MinIndent(xs)) ==> Mask(xs, cap)[i]
  {
    if |Levels(xs, Qualifying(xs))| > cap {
      var c := CapIsExact(xs, cap);
    }
  }

  /** Whatever the cap: notes stay, blank lines go, and so do lines that open nothing; the outermost
      level stays whole. */
  lemma MaskBasics(xs: seq<SLine>, cap: nat, i: nat)
    requires cap >= 1 && i < |xs|
    ensures xs[i].annotation ==> Mask(xs, cap)[i]
    ensures xs[i].blank && !xs[i].annotation ==> !Mask(xs, cap)[i]
    ensures IsOutermost(xs, i) ==> Mask(xs, cap)[i]
    ensures Mask(xs, cap)[i] ==> Qualifying(xs)[i]
    ensures |Levels(xs, Qualifying(xs))| <= cap ==> Mask(xs, cap) == Qualifying(xs)
  {
    MaskIsPart(xs, cap, i);
    if IsOutermost(xs, i) {
      OutermostQualifies(xs, i);
    }
  }

  lemma {:induction false} LeastIsSomewhere(xs: seq<SLine>) returns (k: nat)
    requires LeastIndent(xs).Some?
    ensures k < |xs| && Visible(xs[k]) && xs[k].indent == LeastIndent(xs).value
  {
    var n := |xs| - 1;
    if Visible(xs[n]) && LeastIndent(xs).value == xs[n].indent {
      k := n;
    } else {
      k := LeastIsSomewhere(xs[..n]);
    }
  }

  /** A line that opens a deeper block: the next line one can see is indented further. */
  lemma {:induction false} NextIndentIs(xs: seq<SLine>, i: nat, k: nat)
    requires i < k < |xs| && Visible(xs[k]) && forall m :: i < m < k ==> !Visible(xs[m])
    ensures NextIndent(xs[i + 1..]) == Some(xs[k].indent)
    decreases k - i
  {
    if i + 1 < k {
      assert xs[i + 1..][1..] == xs[i + 2..];
      NextIndentIs(xs, i + 1, k);
    }
  }
}
