/** The notes on a listing whose lines are numbered one after the other: count and range say the same. */
module NumberedNotes {
  import opened Options
  import opened Text
  import opened Lines
  import opened RunLength
  import opened Elision
  import Conservation
  import KeptMask
  import Normalize

  /** The lines carry the numbers from `start` on, none left out. */
  ghost predicate NumberedFrom(xs: seq<SLine>, start: nat) {
    forall i :: 0 <= i < |xs| ==> xs[i].coord == Some(start + i)
  }

  /** Two lines of the output that follow each other, neither of them a note. */
  ghost predicate FollowOn(out: seq<SLine>, p: int) {
    0 <= p < |out| - 1 && !out[p].annotation && !out[p + 1].annotation ==>
      out[p].coord.Some? && out[p + 1].coord == Some(out[p].coord.value + 1)
  }

  ghost predicate AllFollowOn(out: seq<SLine>) {
    forall p :: FollowOn(out, p)
  }

  /** A note says as many lines as its range holds. */
  predicate Exact(note: Note) {
    note.range.Some? && note.range.value.first + note.count == note.range.value.last + 1
  }

  // ----- the output of the first pass

  lemma FollowOnConcat(a: seq<SLine>, b: seq<SLine>)
    requires AllFollowOn(a) && AllFollowOn(b) && (a != [] ==> FollowOn(a + b, |a| - 1))
    ensures AllFollowOn(a + b)
  {
    forall p ensures FollowOn(a + b, p) {
      if p < |a| - 1 {
        assert FollowOn(a, p);
      } else if p >= |a| {
        assert FollowOn(b, p - |a|);
      }
    }
  }

  lemma EmitFollowsOn(fileCoords: bool, g: seq<SLine>, start: nat, rest: seq<SLine>)
    requires IsRun(g) && NumberedFrom(g, start) && AllFollowOn(rest)
    requires rest != [] ==> rest[0].coord == Some(start + |g|)
    ensures AllFollowOn(Emit(fileCoords, g) + rest) && Emit(fileCoords, g)[0].coord == Some(start)
  {
    var e := Emit(fileCoords, g);
    assert forall p :: FollowOn(e, p);
    FollowOnConcat(e, rest);
  }

  lemma NumberedParts(a: seq<SLine>, b: seq<SLine>, start: nat)
    requires NumberedFrom(a + b, start)
    ensures NumberedFrom(a, start) && NumberedFrom(b, start + |a|)
  {
    assert forall i :: 0 <= i < |a| ==> (a + b)[i] == a[i];
    assert forall i :: 0 <= i < |b| ==> (a + b)[|a| + i] == b[i];
  }

  lemma {:induction false} EmittedFollowsOn(fileCoords: bool, gs: seq<seq<SLine>>, start: nat)
    requires NumberedFrom(Flatten(gs), start) && forall k :: 0 <= k < |gs| ==> IsRun(gs[k])
    ensures AllFollowOn(EmitAll(fileCoords, gs))
    ensures gs != [] ==> EmitAll(fileCoords, gs) != [] && EmitAll(fileCoords, gs)[0].coord == Some(start)
  {
    if gs != [] {
      NumberedParts(gs[0], Flatten(gs[1..]), start);
      EmittedFollowsOn(fileCoords, gs[1..], start + |gs[0]|);
      EmitFollowsOn(fileCoords, gs[0], start, EmitAll(fileCoords, gs[1..]));
    }
  }

  lemma RunNoteIsExact(g: seq<SLine>, start: nat)
    requires g != [] && NumberedFrom(g, start)
    ensures Exact(NoteOf(true, g[0], g[|g| - 1], |g|))
  {
  }

  /** What a reader finds in a note of the first pass. */
  predicate ReadsExact(x: SLine) {
    match ReadNote(IDENTICAL, x.raw) case Some(note) => Exact(note) case None => false
  }

  lemma AnnotationIsExact(g: seq<SLine>, start: nat)
    requires g != [] && NumberedFrom(g, start)
    ensures ReadsExact(Annotation(true, g))
  {
    var note := NoteOf(true, g[0], g[|g| - 1], |g|);
    RunNoteIsExact(g, start);
    WordingsAreClear();
    NoteIsRead(IDENTICAL, note);
  }

  lemma {:induction false} RunIsNumbered(gs: seq<seq<SLine>>, start: nat, k: nat) returns (first: nat)
    requires NumberedFrom(Flatten(gs), start) && k < |gs|
    ensures NumberedFrom(gs[k], first)
  {
    NumberedParts(gs[0], Flatten(gs[1..]), start);
    first := start;
    if k > 0 {
      first := RunIsNumbered(gs[1..], start + |gs[0]|, k - 1);
    }
  }

  lemma EmittedNotesExact(gs: seq<seq<SLine>>, start: nat)
    requires NumberedFrom(Flatten(gs), start) && ArePlainRuns(gs)
    ensures forall x :: x in EmitAll(true, gs) && x.annotation ==> ReadsExact(x)
  {
    forall k | 0 <= k < |gs| ensures ReadsExact(Annotation(true, gs[k])) {
      var first := RunIsNumbered(gs, start, k);
      assert IsRun(gs[k]);
      AnnotationIsExact(gs[k], first);
    }
    EmittedAnnotations(true, gs, ReadsExact);
  }

  // ----- the gaps of the index

  lemma {:induction false} StretchIsCounted(out: seq<SLine>, from: nat, end: nat)
    requires from < end <= |out| && AllFollowOn(out) && NoAnnotations(out[from..end]) && out[from].coord.Some?
    ensures out[end - 1].coord == Some(out[from].coord.value + (end - 1 - from))
    decreases end
  {
    if from < end - 1 {
      assert out[from..end - 1] == out[from..end][..end - 1 - from];
      StretchIsCounted(out, from, end - 1);
      assert !out[from..end][end - 2 - from].annotation && !out[from..end][end - 1 - from].annotation;
      assert FollowOn(out, end - 2);
    }
  }

  /** Plain lines of the output carry numbers. */
  lemma {:induction false} PlainNumbered(fileCoords: bool, gs: seq<seq<SLine>>, start: nat)
    requires NumberedFrom(Flatten(gs), start) && forall k :: 0 <= k < |gs| ==> gs[k] != []
    ensures forall x :: x in EmitAll(fileCoords, gs) && !x.annotation ==> x.coord.Some?
  {
    if gs != [] {
      NumberedParts(gs[0], Flatten(gs[1..]), start);
      PlainNumbered(fileCoords, gs[1..], start + |gs[0]|);
      assert forall x :: x in Emit(fileCoords, gs[0]) && !x.annotation ==> x in gs[0];
    }
  }

  lemma GapIsExact(out: seq<SLine>, g: Item)
    requires AllFollowOn(out) && Inside(g, |out|) && g.Gap? && NoAnnotations(out[g.from..g.to])
    requires forall x :: x in out && !x.annotation ==> x.coord.Some?
    ensures Exact(NoteFor(out, true, g.from, g.to))
  {
    assert !out[g.from..g.to][0].annotation && out[g.from] in out;
    StretchIsCounted(out, g.from, g.to);
  }

  /** On lines numbered one after the other every note is exact: a gap of the index and a collapsed run
      count as many lines as lie between the two numbers they give. */
  lemma NotesAreExact(xs: seq<SLine>, start: nat, cap: nat)
    requires cap >= 1 && NoAnnotations(xs) && NumberedFrom(xs, start)
    ensures var out := Collapsed(true, xs);
            var items := Items(KeptMask.Mask(out, cap), 0);
            AllInside(items, |out|) &&
            (forall k :: 0 <= k < |items| && items[k].Gap? ==>
              Exact(NoteFor(out, true, items[k].from, items[k].to))) &&
            (forall x :: x in out && x.annotation ==> ReadsExact(x))
  {
    var out := Collapsed(true, xs);
    var items := Items(KeptMask.Mask(out, cap), 0);
    NumberedOutput(xs, start);
    Conservation.GapsHoldNoNotes(out, cap);
    forall k | 0 <= k < |items| && items[k].Gap? ensures Exact(NoteFor(out, true, items[k].from, items[k].to)) {
      GapIsExact(out, items[k]);
    }
  }

  lemma NumberedOutput(xs: seq<SLine>, start: nat)
    requires NoAnnotations(xs) && NumberedFrom(xs, start)
    ensures var out := Collapsed(true, xs);
            AllFollowOn(out) && (forall x :: x in out && !x.annotation ==> x.coord.Some?) &&
            (forall x :: x in out && x.annotation ==> ReadsExact(x))
  {
    GroupsArePlainRuns(xs);
    EmittedFollowsOn(true, Groups(xs), start);
    PlainNumbered(true, Groups(xs), start);
    EmittedNotesExact(Groups(xs), start);
  }

  /** From the text of a numbered listing. */
  lemma ListingNotesAreExact(lines: seq<string>, pads: seq<nat>, start: nat, sep: char, cap: nat)
    requires cap >= 1 && |pads| == |lines| >= 5 && start + |lines| <= Pow10(Normalize.MAX_DIGITS)
    requires Normalize.Trusted(sep) && forall i :: 0 <= i < |lines| ==> Normalize.PlainLine(lines[i])
    ensures var text := Join(Normalize.NumberedListing(lines, pads, start, sep), "\n");
            var norm := Normalize.NormalizedOf(text);
            var out := Collapsed(norm.fileCoords, ToSlines(norm, text));
            var items := Items(KeptMask.Mask(out, cap), 0);
            AllInside(items, |out|) &&
            (forall k :: 0 <= k < |items| && items[k].Gap? ==>
              Exact(NoteFor(out, norm.fileCoords, items[k].from, items[k].to))) &&
            (forall x :: x in out && x.annotation ==> ReadsExact(x))
  {
    var text := Join(Normalize.NumberedListing(lines, pads, start, sep), "\n");
    var norm := Normalize.NormalizedOf(text);
    Normalize.NumberingRoundTrip(lines, pads, start, sep);
    SlinesOfText(text);
    Normalize.LineCountIsKept(text);
    LinesAreNumbered(norm, text, start);
    NotesAreExact(ToSlines(norm, text), start, cap);
  }

  lemma LinesAreNumbered(norm: Normalize.Normalized, text: string, start: nat)
    requires |norm.lines| == |Split(text, '\n')|
    requires forall i :: 0 <= i < |norm.lines| ==> norm.lines[i].number == Some(start + i)
    ensures NumberedFrom(ToSlines(norm, text), start)
  {
  }
}
