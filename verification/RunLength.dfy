/**
  The lossless pre-pass: runs of adjacent lines with the same content become the first line
  and a note that counts them.
*/
module RunLength {
  import opened Options
  import opened Lines

  const MIN_RUN: nat := 3

  // ----- runs

  /** How many lines at the start have the key. */
  function SameKey(xs: seq<SLine>, key: string): (n: nat)
    ensures n <= |xs|
  {
    if xs == [] || xs[0].key != key then 0 else 1 + SameKey(xs[1..], key)
  }

  /** Length of the run that starts the lines; a blank line is always alone. */
  function RunOf(xs: seq<SLine>): (n: nat)
    requires xs != []
    ensures 1 <= n <= |xs|
  {
    if xs[0].blank then 1 else 1 + SameKey(xs[1..], xs[0].key)
  }

  /** The lines cut into runs. */
  function Groups(xs: seq<SLine>): seq<seq<SLine>> {
    if xs == [] then [] else [xs[..RunOf(xs)]] + Groups(xs[RunOf(xs)..])
  }

  lemma {:induction false} SameKeyIs(xs: seq<SLine>, key: string, n: nat)
    requires n <= |xs| && (forall i :: 0 <= i < n ==> xs[i].key == key) && (n < |xs| ==> xs[n].key != key)
    ensures SameKey(xs, key) == n
  {
    if n > 0 {
      SameKeyIs(xs[1..], key, n - 1);
    }
  }

  lemma {:induction false} SameKeyHolds(xs: seq<SLine>, key: string)
    ensures var n := SameKey(xs, key); (forall i :: 0 <= i < n ==> xs[i].key == key) && (n < |xs| ==> xs[n].key != key)
  {
    if xs != [] && xs[0].key == key {
      SameKeyHolds(xs[1..], key);
    }
  }

  /** Lines with one key; a blank line only alone. */
  ghost predicate IsRun(g: seq<SLine>) {
    g != [] && (forall i :: 0 <= i < |g| ==> g[i].key == g[0].key) && (g[0].blank ==> |g| == 1)
  }

  /** The line after `g` does not belong to it. */
  predicate Ends(g: seq<SLine>, next: SLine) {
    g != [] && (g[0].blank || next.key != g[0].key)
  }

  lemma RunHolds(xs: seq<SLine>)
    requires xs != []
    ensures IsRun(xs[..RunOf(xs)]) && (RunOf(xs) < |xs| ==> Ends(xs[..RunOf(xs)], xs[RunOf(xs)]))
  {
    SameKeyHolds(xs[1..], xs[0].key);
    var g := xs[..RunOf(xs)];
    forall i | 0 <= i < |g| ensures g[i].key == g[0].key {
      if i > 0 && !xs[0].blank {
        assert g[i] == xs[1..][i - 1];
      }
    }
  }

  lemma RunIs(xs: seq<SLine>, n: nat)
    requires 1 <= n <= |xs| && IsRun(xs[..n]) && (n < |xs| ==> Ends(xs[..n], xs[n]))
    ensures RunOf(xs) == n
  {
    if !xs[0].blank {
      forall i | 0 <= i < n - 1 ensures xs[1..][i].key == xs[0].key {
        assert xs[1..][i] == xs[..n][i + 1];
      }
      SameKeyIs(xs[1..], xs[0].key, n - 1);
    }
  }

  function Flatten(gs: seq<seq<SLine>>): seq<SLine> {
    if gs == [] then [] else gs[0] + Flatten(gs[1..])
  }

  /** `gs` cuts lines into runs that cannot be made longer. */
  ghost predicate AreMaximalRuns(gs: seq<seq<SLine>>) {
    (forall k :: 0 <= k < |gs| ==> IsRun(gs[k])) &&
    (forall k :: 0 <= k < |gs| - 1 ==> Ends(gs[k], gs[k + 1][0]))
  }

  /** The runs are the lines, in order, and none of them could take in its neighbour. */
  lemma {:induction false} RunsAreMaximal(xs: seq<SLine>)
    ensures Flatten(Groups(xs)) == xs && AreMaximalRuns(Groups(xs))
    ensures xs != [] ==> Groups(xs) != [] && Groups(xs)[0][0] == xs[0]
  {
    if xs != [] {
      RunHolds(xs);
      RunsAreMaximal(xs[RunOf(xs)..]);
      assert xs[..RunOf(xs)] + xs[RunOf(xs)..] == xs;
      RunInFront(xs[..RunOf(xs)], Groups(xs[RunOf(xs)..]));
    }
  }

  lemma RunInFront(g: seq<SLine>, gs: seq<seq<SLine>>)
    requires IsRun(g) && AreMaximalRuns(gs) && (gs != [] ==> Ends(g, gs[0][0]))
    ensures AreMaximalRuns([g] + gs)
  {
  }

  /** Nothing else cuts the lines into maximal runs. */
  lemma {:induction false} RunsAreUnique(gs: seq<seq<SLine>>)
    requires AreMaximalRuns(gs)
    ensures Groups(Flatten(gs)) == gs
  {
    if gs != [] {
      RunsAreUnique(gs[1..]);
      var xs, n := Flatten(gs), |gs[0]|;
      assert xs[..n] == gs[0] && xs[n..] == Flatten(gs[1..]);
      if n < |xs| {
        assert Flatten(gs[1..]) != [] && gs[1..] != [];
        assert xs[n] == gs[1][0] by { assert Flatten(gs[1..])[0] == gs[1..][0][0]; }
        assert Ends(gs[0], gs[0 + 1][0]);
      }
      RunIs(xs, n);
    }
  }

  // ----- the pass

  function Annotation(fileCoords: bool, g: seq<SLine>): SLine
    requires g != []
  {
    var text := NoteText(IDENTICAL, NoteOf(fileCoords, g[0], g[|g| - 1], |g|));
    SLine(text, text, 0, false, None, true)
  }

  function Emit(fileCoords: bool, g: seq<SLine>): seq<SLine> {
    if |g| >= MIN_RUN then [g[0], Annotation(fileCoords, g)] else g
  }

  function EmitAll(fileCoords: bool, gs: seq<seq<SLine>>): seq<SLine> {
    if gs == [] then [] else Emit(fileCoords, gs[0]) + EmitAll(fileCoords, gs[1..])
  }

  /** How many lines a run loses. */
  function Saving(g: seq<SLine>): nat {
    if |g| >= MIN_RUN then |g| - 1 else 0
  }

  function Savings(gs: seq<seq<SLine>>): nat {
    if gs == [] then 0 else Saving(gs[0]) + Savings(gs[1..])
  }

  function Collapsed(fileCoords: bool, xs: seq<SLine>): seq<SLine> {
    EmitAll(fileCoords, Groups(xs))
  }

  method RunEnd(xs: seq<SLine>, i: nat) returns (j: nat)
    requires i < |xs|
    ensures i < j <= |xs| && j - i == RunOf(xs[i..])
  {
    j := i + 1;
    while j < |xs| && !xs[i].blank && xs[j].key == xs[i].key
      invariant i < j <= |xs| && forall k :: i <= k < j ==> xs[k].key == xs[i].key
      invariant xs[i].blank ==> j == i + 1
    {
      j := j + 1;
    }
    assert xs[i..][..j - i] == xs[i..j];
    RunIs(xs[i..], j - i);
  }

  lemma NextRun(xs: seq<SLine>, i: nat, j: nat, fileCoords: bool)
    requires i < j <= |xs| && j - i == RunOf(xs[i..])
    ensures Collapsed(fileCoords, xs[i..]) == Emit(fileCoords, xs[i..j]) + Collapsed(fileCoords, xs[j..])
    ensures Savings(Groups(xs[i..])) == Saving(xs[i..j]) + Savings(Groups(xs[j..]))
  {
    assert xs[i..] == xs[i..j] + xs[j..];
    FirstRun(xs[i..], xs[i..j], xs[j..], fileCoords);
  }

  lemma FirstRun(xs: seq<SLine>, run: seq<SLine>, rest: seq<SLine>, fileCoords: bool)
    requires xs != [] && xs == run + rest && |run| == RunOf(xs)
    ensures Collapsed(fileCoords, xs) == Emit(fileCoords, run) + Collapsed(fileCoords, rest)
    ensures Savings(Groups(xs)) == Saving(run) + Savings(Groups(rest))
  {
    FirstGroup(xs);
    assert xs[..|run|] == run && xs[|run|..] == rest;
    EmitFirst(fileCoords, run, Groups(rest));
  }

  lemma EmitFirst(fileCoords: bool, g: seq<SLine>, gs: seq<seq<SLine>>)
    ensures EmitAll(fileCoords, [g] + gs) == Emit(fileCoords, g) + EmitAll(fileCoords, gs)
    ensures Savings([g] + gs) == Saving(g) + Savings(gs)
  {
    assert ([g] + gs)[1..] == gs;
  }

  lemma FirstGroup(xs: seq<SLine>)
    requires xs != []
    ensures Groups(xs) == [xs[..RunOf(xs)]] + Groups(xs[RunOf(xs)..])
  {
  }

  /** One run put out. */
  method EmitRun(out0: seq<SLine>, collapsed0: nat, run: seq<SLine>, fileCoords: bool)
    returns (out: seq<SLine>, collapsed: nat)
    requires run != []
    ensures out == out0 + Emit(fileCoords, run) && collapsed == collapsed0 + Saving(run)
  {
    if |run| >= MIN_RUN {
      out := out0 + [run[0], Annotation(fileCoords, run)];
      collapsed := collapsed0 + (|run| - 1);
    } else {
      out, collapsed := out0 + run, collapsed0;
    }
  }

  /** One pass over the lines; `collapsed` counts the lines that went. */
  method RleCollapse(xs: seq<SLine>, fileCoords: bool) returns (out: seq<SLine>, collapsed: nat)
    ensures out == Collapsed(fileCoords, xs) && collapsed == Savings(Groups(xs))
  {
    out, collapsed := [], 0;
    var i := 0;
    while i < |xs|
      invariant i <= |xs| && IsDone(xs, i, fileCoords, out, collapsed)
    {
      var j := RunEnd(xs, i);
      OneMoreRun(xs, i, j, fileCoords, out, collapsed);
      out, collapsed := EmitRun(out, collapsed, xs[i..j], fileCoords);
      i := j;
    }
  }

  /** What is put out for the lines before `i` completes to the whole result. */
  ghost predicate IsDone(xs: seq<SLine>, i: nat, fileCoords: bool, out: seq<SLine>, collapsed: nat)
    requires i <= |xs|
  {
    out + Collapsed(fileCoords, xs[i..]) == Collapsed(fileCoords, xs) &&
    collapsed + Savings(Groups(xs[i..])) == Savings(Groups(xs))
  }

  lemma OneMoreRun(xs: seq<SLine>, i: nat, j: nat, fileCoords: bool, out: seq<SLine>, collapsed: nat)
    requires i < j <= |xs| && j - i == RunOf(xs[i..]) && IsDone(xs, i, fileCoords, out, collapsed)
    ensures IsDone(xs, j, fileCoords, out + Emit(fileCoords, xs[i..j]), collapsed + Saving(xs[i..j]))
  {
    NextRun(xs, i, j, fileCoords);
    var e, rest := Emit(fileCoords, xs[i..j]), Collapsed(fileCoords, xs[j..]);
    assert out + e + rest == out + (e + rest);
  }

  // ----- nothing is lost

  /** The count a reader finds in an annotation. */
  function CountIn(x: SLine): nat {
    match ReadNote(IDENTICAL, x.raw) case Some(note) => note.count case None => 1
  }

  lemma CountIsRead(fileCoords: bool, g: seq<SLine>)
    requires g != []
    ensures CountIn(Annotation(fileCoords, g)) == |g|
  {
    WordingsAreClear();
    NoteIsRead(IDENTICAL, NoteOf(fileCoords, g[0], g[|g| - 1], |g|));
  }

  function Keys(xs: seq<SLine>): seq<string> {
    seq(|xs|, i requires 0 <= i < |xs| => xs[i].key)
  }

  function Repeat(key: string, n: nat): seq<string> {
    seq(n, i => key)
  }

  /** Undoing the pass: a line before an annotation is repeated as often as the annotation says. */
  function Expand(out: seq<SLine>): seq<string> {
    ExpandWith(out, CountIn)
  }

  function ExpandWith(out: seq<SLine>, count: SLine -> nat): seq<string> {
    if out == [] then []
    else if |out| > 1 && out[1].annotation then Repeat(out[0].key, count(out[1])) + ExpandWith(out[2..], count)
    else [out[0].key] + ExpandWith(out[1..], count)
  }

  ghost predicate NoAnnotations(xs: seq<SLine>) {
    forall i :: 0 <= i < |xs| ==> !xs[i].annotation
  }

  /** A plain line in front of anything but an annotation comes out as it is. */
  lemma ExpandOne(x: SLine, out: seq<SLine>, count: SLine -> nat)
    requires out != [] ==> !out[0].annotation
    ensures ExpandWith([x] + out, count) == [x.key] + ExpandWith(out, count)
  {
    assert ([x] + out)[1..] == out;
  }

  lemma KeysOne(x: SLine, xs: seq<SLine>)
    ensures Keys([x] + xs) == [x.key] + Keys(xs)
  {
  }

  lemma {:induction false} ExpandPlain(g: seq<SLine>, rest: seq<SLine>, count: SLine -> nat)
    requires NoAnnotations(g) && (rest != [] ==> !rest[0].annotation)
    ensures ExpandWith(g + rest, count) == Keys(g) + ExpandWith(rest, count)
  {
    if g == [] {
      assert g + rest == rest;
    } else {
      var x, more := g[0], g[1..];
      assert g == [x] + more && g + rest == [x] + (more + rest);
      ExpandPlain(more, rest, count);
      ExpandOne(x, more + rest, count);
      KeysOne(x, more);
    }
  }

  lemma ExpandNoted(x: SLine, note: SLine, rest: seq<SLine>, count: SLine -> nat)
    requires note.annotation
    ensures ExpandWith([x, note] + rest, count) == Repeat(x.key, count(note)) + ExpandWith(rest, count)
  {
    assert ([x, note] + rest)[2..] == rest;
  }

  lemma ExpandRun(fileCoords: bool, g: seq<SLine>, rest: seq<SLine>)
    requires IsRun(g) && NoAnnotations(g) && (rest != [] ==> !rest[0].annotation)
    ensures Expand(Emit(fileCoords, g) + rest) == Keys(g) + Expand(rest)
  {
    if |g| >= MIN_RUN {
      CountIsRead(fileCoords, g);
      ExpandNoted(g[0], Annotation(fileCoords, g), rest, CountIn);
      assert Keys(g) == Repeat(g[0].key, |g|);
    } else {
      ExpandPlain(g, rest, CountIn);
    }
  }

  lemma EmitStarts(fileCoords: bool, gs: seq<seq<SLine>>)
    requires gs != [] && gs[0] != []
    ensures EmitAll(fileCoords, gs) != [] && EmitAll(fileCoords, gs)[0] == gs[0][0]
  {
  }

  lemma {:induction false} ExpandGroups(fileCoords: bool, gs: seq<seq<SLine>>)
    requires forall k :: 0 <= k < |gs| ==> IsRun(gs[k]) && NoAnnotations(gs[k])
    ensures Expand(EmitAll(fileCoords, gs)) == Keys(Flatten(gs))
  {
    if gs != [] {
      ExpandGroups(fileCoords, gs[1..]);
      if gs[1..] != [] {
        assert IsRun(gs[1]);
        EmitStarts(fileCoords, gs[1..]);
      }
      ExpandRun(fileCoords, gs[0], EmitAll(fileCoords, gs[1..]));
      KeysConcat(gs[0], Flatten(gs[1..]));
    }
  }

  lemma KeysConcat(a: seq<SLine>, b: seq<SLine>)
    ensures Keys(a + b) == Keys(a) + Keys(b)
  {
  }

  lemma {:induction false} PartsOfPlain(gs: seq<seq<SLine>>, k: nat)
    requires NoAnnotations(Flatten(gs)) && k < |gs|
    ensures NoAnnotations(gs[k])
  {
    var f := Flatten(gs);
    if k == 0 {
      assert forall i :: 0 <= i < |gs[0]| ==> gs[0][i] == f[i];
    } else {
      var rest := Flatten(gs[1..]);
      assert forall i :: 0 <= i < |rest| ==> rest[i] == f[|gs[0]| + i];
      PartsOfPlain(gs[1..], k - 1);
    }
  }

  /** Runs without annotations. */
  ghost predicate ArePlainRuns(gs: seq<seq<SLine>>) {
    forall k :: 0 <= k < |gs| ==> IsRun(gs[k]) && NoAnnotations(gs[k])
  }

  lemma GroupsArePlainRuns(xs: seq<SLine>)
    requires NoAnnotations(xs)
    ensures ArePlainRuns(Groups(xs)) && Flatten(Groups(xs)) == xs
  {
    RunsAreMaximal(xs);
    forall k | 0 <= k < |Groups(xs)| ensures IsRun(Groups(xs)[k]) && NoAnnotations(Groups(xs)[k]) {
      PartsOfPlain(Groups(xs), k);
    }
  }

  /** What holds of the annotation of every run holds of every annotation of the output. */
  lemma {:induction false} EmittedAnnotations(fileCoords: bool, gs: seq<seq<SLine>>, p: SLine -> bool)
    requires ArePlainRuns(gs) && forall k :: 0 <= k < |gs| ==> p(Annotation(fileCoords, gs[k]))
    ensures forall x :: x in EmitAll(fileCoords, gs) && x.annotation ==> p(x)
  {
    if gs != [] {
      EmittedAnnotations(fileCoords, gs[1..], p);
      assert forall x :: x in Emit(fileCoords, gs[0]) && x.annotation ==> x == Annotation(fileCoords, gs[0]);
      assert p(Annotation(fileCoords, gs[0]));
    }
  }

  /** The counts in the notes are enough to rebuild the content of every line, in order. */
  lemma CollapseIsLossless(fileCoords: bool, xs: seq<SLine>)
    requires NoAnnotations(xs)
    ensures Expand(Collapsed(fileCoords, xs)) == Keys(xs)
  {
    GroupsArePlainRuns(xs);
    ExpandGroups(fileCoords, Groups(xs));
  }

  // ----- what the lines stand for

  function Annotations(out: seq<SLine>): nat {
    if out == [] then 0 else Annotations(out[1..]) + if out[0].annotation then 1 else 0
  }

  /** How many lines of the input a line of the output stands for: itself, or the lines an
      annotation counts apart from the head that is shown above it. */
  function Weight(x: SLine): int {
    if x.annotation then CountIn(x) - 1 else 1
  }

  function WeightSum(out: seq<SLine>): int {
    if out == [] then 0 else Weight(out[0]) + WeightSum(out[1..])
  }

  lemma {:induction false} SumsConcat(a: seq<SLine>, b: seq<SLine>)
    ensures WeightSum(a + b) == WeightSum(a) + WeightSum(b)
    ensures Annotations(a + b) == Annotations(a) + Annotations(b)
  {
    if a == [] {
      assert a + b == b;
    } else {
      assert (a + b)[1..] == a[1..] + b;
      SumsConcat(a[1..], b);
    }
  }

  lemma {:induction false} PlainWeight(xs: seq<SLine>)
    requires NoAnnotations(xs)
    ensures WeightSum(xs) == |xs| && Annotations(xs) == 0
  {
    if xs != [] {
      PlainWeight(xs[1..]);
    }
  }

  lemma OneWeight(x: SLine)
    ensures WeightSum([x]) == Weight(x) && Annotations([x]) == if x.annotation then 1 else 0
  {
    assert [x][1..] == [];
  }

  lemma PairWeight(x: SLine, note: SLine)
    requires !x.annotation && note.annotation
    ensures WeightSum([x, note]) == CountIn(note) && Annotations([x, note]) == 1
  {
    OneWeight(x);
    OneWeight(note);
    SumsConcat([x], [note]);
    assert [x, note] == [x] + [note];
  }

  lemma EmitWeight(fileCoords: bool, g: seq<SLine>)
    requires g != [] && NoAnnotations(g)
    ensures WeightSum(Emit(fileCoords, g)) == |g|
    ensures |Emit(fileCoords, g)| == |g| - Saving(g) + Annotations(Emit(fileCoords, g))
  {
    if |g| >= MIN_RUN {
      CountIsRead(fileCoords, g);
      PairWeight(g[0], Annotation(fileCoords, g));
    } else {
      PlainWeight(g);
    }
  }

  lemma {:induction false} GroupsWeight(fileCoords: bool, gs: seq<seq<SLine>>)
    requires forall k :: 0 <= k < |gs| ==> gs[k] != [] && NoAnnotations(gs[k])
    ensures WeightSum(EmitAll(fileCoords, gs)) == |Flatten(gs)|
    ensures |EmitAll(fileCoords, gs)| == |Flatten(gs)| - Savings(gs) + Annotations(EmitAll(fileCoords, gs))
  {
    if gs != [] {
      GroupsWeight(fileCoords, gs[1..]);
      EmitWeight(fileCoords, gs[0]);
      SumsConcat(Emit(fileCoords, gs[0]), EmitAll(fileCoords, gs[1..]));
    }
  }

  /** The notes account for every line: output length is input length less what was collapsed plus
      the annotations, and the lines stand for as many lines as there were. */
  lemma CollapseConserves(fileCoords: bool, xs: seq<SLine>)
    requires NoAnnotations(xs)
    ensures var out := Collapsed(fileCoords, xs);
            |out| == |xs| - Savings(Groups(xs)) + Annotations(out) && WeightSum(out) == |xs|
  {
    GroupsArePlainRuns(xs);
    assert forall k :: 0 <= k < |Groups(xs)| ==> IsRun(Groups(xs)[k]);
    GroupsWeight(fileCoords, Groups(xs));
  }

  /** Where an output line is an annotation, the line before it is a head of at least three lines. */
  ghost predicate NotesFollowHeads(out: seq<SLine>) {
    forall i :: 0 <= i < |out| && out[i].annotation ==>
      i > 0 && !out[i - 1].annotation && !out[i - 1].blank && CountIn(out[i]) >= MIN_RUN
  }

  lemma {:induction false} EmittedNotesFollowHeads(fileCoords: bool, gs: seq<seq<SLine>>)
    requires forall k :: 0 <= k < |gs| ==> IsRun(gs[k]) && NoAnnotations(gs[k])
    ensures NotesFollowHeads(EmitAll(fileCoords, gs))
  {
    if gs != [] {
      var g, rest := Emit(fileCoords, gs[0]), EmitAll(fileCoords, gs[1..]);
      EmittedNotesFollowHeads(fileCoords, gs[1..]);
      EmittedNoteFollowsHead(fileCoords, gs[0]);
      NotesConcat(g, rest);
    }
  }

  lemma EmittedNoteFollowsHead(fileCoords: bool, g: seq<SLine>)
    requires IsRun(g) && NoAnnotations(g)
    ensures NotesFollowHeads(Emit(fileCoords, g))
  {
    CountIsRead(fileCoords, g);
  }

  lemma NotesConcat(a: seq<SLine>, b: seq<SLine>)
    requires NotesFollowHeads(a) && NotesFollowHeads(b)
    ensures NotesFollowHeads(a + b)
  {
  }

  lemma CollapsedNotesFollowHeads(fileCoords: bool, xs: seq<SLine>)
    requires NoAnnotations(xs)
    ensures NotesFollowHeads(Collapsed(fileCoords, xs))
  {
    GroupsArePlainRuns(xs);
    EmittedNotesFollowHeads(fileCoords, Groups(xs));
  }
}
