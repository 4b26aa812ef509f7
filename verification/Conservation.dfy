/** Every line of the input is shown, counted in a note, or counted as collapsed; and notes are ordered. */
module Conservation {
  import opened Options
  import opened Text
  import opened Lines
  import opened RunLength
  import opened Elision
  import KeptMask
  import Normalize

  // ----- counting lines

  /** Lines shown that are lines of the input. */
  ghost function ShownPlain(out: seq<SLine>, items: seq<Item>): nat
    requires AllInside(items, |out|)
  {
    if items == [] then 0
    else ShownPlain(out, items[1..]) + if items[0].Shown? && !out[items[0].i].annotation then 1 else 0
  }

  /** The counts in the notes, added up. */
  function NotedLines(items: seq<Item>): int {
    if items == [] then 0
    else NotedLines(items[1..]) + (match items[0] case Shown(_) => 0 case Gap(from, to) => to - from)
  }

  ghost predicate NoNoteInGaps(out: seq<SLine>, items: seq<Item>)
    requires AllInside(items, |out|)
  {
    forall k :: 0 <= k < |items| && items[k].Gap? ==> NoAnnotations(out[items[k].from..items[k].to])
  }

  lemma {:induction false} LinesAreCounted(out: seq<SLine>, items: seq<Item>, from: nat, n: nat)
    requires Tiles(items, from, n) && from <= n <= |out| && AllInside(items, |out|) && NoNoteInGaps(out, items)
    ensures n - from == ShownPlain(out, items) + NotedLines(items) + Annotations(out[from..n])
    decreases |items|
  {
    if items != [] {
      var mid := End(items[0]);
      TilesGrow(items[1..], mid, n);
      assert forall k :: 0 <= k < |items[1..]| ==> items[1..][k] == items[k + 1];
      LinesAreCounted(out, items[1..], mid, n);
      SumsConcat(out[from..mid], out[mid..n]);
      assert out[from..n] == out[from..mid] + out[mid..n];
      FirstIsCounted(out, items[0]);
    }
  }

  lemma FirstIsCounted(out: seq<SLine>, item: Item)
    requires Inside(item, |out|) && (item.Gap? ==> NoAnnotations(out[item.from..item.to]))
    ensures Annotations(out[Start(item)..End(item)]) == if item.Shown? && out[item.i].annotation then 1 else 0
  {
    match item
    case Shown(i) => assert out[i..i + 1] == [out[i]] && [out[i]][1..] == [];
    case Gap(from, to) => PlainWeight(out[from..to]);
  }

  /** Gaps of the structural index hold no note of the earlier pass. */
  lemma GapsHoldNoNotes(out: seq<SLine>, cap: nat)
    requires cap >= 1
    ensures var items := Items(KeptMask.Mask(out, cap), 0); AllInside(items, |out|) && NoNoteInGaps(out, items)
  {
    var kept := KeptMask.Mask(out, cap);
    var items := Items(kept, 0);
    ItemsAreInside(kept);
    ItemsAreRight(kept, 0);
    forall k | 0 <= k < |items| && items[k].Gap? ensures NoAnnotations(out[items[k].from..items[k].to]) {
      assert ItemIsRight(kept, items[k]);
      NotKeptHasNoNotes(out, cap, items[k].from, items[k].to);
    }
  }

  lemma NotKeptHasNoNotes(out: seq<SLine>, cap: nat, from: nat, end: nat)
    requires cap >= 1 && from <= end <= |out| && forall i :: from <= i < end ==> !KeptMask.Mask(out, cap)[i]
    ensures NoAnnotations(out[from..end])
  {
    forall i | from <= i < end ensures !out[i].annotation {
      KeptMask.MaskBasics(out, cap, i);
    }
  }

  /** Collapsing, then the structural index: every line of the input is shown, or counted in exactly
      one note of the index, or counted as collapsed. */
  lemma StructuralConserves(xs: seq<SLine>, fileCoords: bool, cap: nat)
    requires NoAnnotations(xs) && cap >= 1
    ensures var out := Collapsed(fileCoords, xs);
            var items := Items(KeptMask.Mask(out, cap), 0);
            Tiles(items, 0, |out|) && AllInside(items, |out|) &&
            |xs| == ShownPlain(out, items) + NotedLines(items) + Savings(Groups(xs))
  {
    var out := Collapsed(fileCoords, xs);
    var kept := KeptMask.Mask(out, cap);
    GapsHoldNoNotes(out, cap);
    ItemsAreRight(kept, 0);
    LinesAreCounted(out, Items(kept, 0), 0, |out|);
    assert out[0..|out|] == out;
    CollapseConserves(fileCoords, xs);
  }

  // ----- what a note leaves out

  /** A stretch of output lines stands for at least as many lines of the input, and for more if and
      only if one of them is a note of the earlier pass. */
  lemma {:induction false} StretchStandsFor(out: seq<SLine>)
    requires forall i :: 0 <= i < |out| && out[i].annotation ==> CountIn(out[i]) >= MIN_RUN
    ensures WeightSum(out) >= |out| && (WeightSum(out) == |out| <==> NoAnnotations(out))
  {
    if out != [] {
      StretchStandsFor(out[1..]);
      if NoAnnotations(out[1..]) && !out[0].annotation {
        assert forall i :: 0 < i < |out| ==> out[i] == out[1..][i - 1];
      }
    }
  }

  /** Head and tail: the three parts stand for all lines of the input, and the note between them counts
      the lines left out exactly if and only if no run was collapsed there; otherwise it counts too few. */
  lemma HeadTailConserves(xs: seq<SLine>, fileCoords: bool)
    requires NoAnnotations(xs) && |Collapsed(fileCoords, xs)| > HEAD_LINES + TAIL_LINES
    ensures var out := Collapsed(fileCoords, xs);
            var end := |out| - TAIL_LINES;
            var hidden := WeightSum(out[HEAD_LINES..end]);
            var note := NoteFor(out, fileCoords, HEAD_LINES, end);
            |xs| == WeightSum(out[..HEAD_LINES]) + hidden + WeightSum(out[end..]) &&
            note.count <= hidden && (note.count == hidden <==> NoAnnotations(out[HEAD_LINES..end]))
  {
    var out := Collapsed(fileCoords, xs);
    var end := |out| - TAIL_LINES;
    CollapseConserves(fileCoords, xs);
    CollapsedNotesFollowHeads(fileCoords, xs);
    ThreeParts(out, HEAD_LINES, end);
    StretchStandsFor(out[HEAD_LINES..end]);
  }

  lemma ThreeParts(out: seq<SLine>, a: nat, b: nat)
    requires a <= b <= |out|
    ensures WeightSum(out) == WeightSum(out[..a]) + WeightSum(out[a..b]) + WeightSum(out[b..])
  {
    assert out == out[..a] + out[a..b] + out[b..];
    ThreeSums(out[..a], out[a..b], out[b..]);
  }

  lemma ThreeSums(a: seq<SLine>, b: seq<SLine>, c: seq<SLine>)
    ensures WeightSum(a + b + c) == WeightSum(a) + WeightSum(b) + WeightSum(c)
  {
    SumsConcat(a, b);
    SumsConcat(a + b, c);
  }

  // ----- coordinates

  ghost predicate Below(a: seq<SLine>, b: seq<SLine>) {
    forall x, y :: x in a && y in b && x.coord.Some? && y.coord.Some? ==> x.coord.value < y.coord.value
  }

  lemma IncreaseConcat(a: seq<SLine>, b: seq<SLine>)
    ensures CoordsIncrease(a + b) <==> CoordsIncrease(a) && CoordsIncrease(b) && Below(a, b)
  {
    var s := a + b;
    if CoordsIncrease(s) {
      forall i, j | 0 <= i < j < |b| && b[i].coord.Some? && b[j].coord.Some?
        ensures b[i].coord.value < b[j].coord.value
      {
        assert s[|a| + i] == b[i] && s[|a| + j] == b[j];
      }
      forall i, j | 0 <= i < j < |a| && a[i].coord.Some? && a[j].coord.Some?
        ensures a[i].coord.value < a[j].coord.value
      {
        assert s[i] == a[i] && s[j] == a[j];
      }
      forall x, y | x in a && y in b && x.coord.Some? && y.coord.Some? ensures x.coord.value < y.coord.value {
        var i :| 0 <= i < |a| && a[i] == x;
        var j :| 0 <= j < |b| && b[j] == y;
        assert s[i] == x && s[|a| + j] == y;
      }
    }
    if CoordsIncrease(a) && CoordsIncrease(b) && Below(a, b) {
      forall i, j | 0 <= i < j < |s| && s[i].coord.Some? && s[j].coord.Some?
        ensures s[i].coord.value < s[j].coord.value
      {
        if i < |a| <= j {
          assert a[i] in a && b[j - |a|] in b;
        }
      }
    }
  }

  /** Lines with a number come from the run; a collapsed run keeps its head. */
  lemma EmitIsPart(fileCoords: bool, g: seq<SLine>)
    requires g != [] && CoordsIncrease(g)
    ensures CoordsIncrease(Emit(fileCoords, g))
    ensures forall x :: x in Emit(fileCoords, g) && x.coord.Some? ==> x in g
  {
  }

  lemma {:induction false} EmittedCoords(fileCoords: bool, gs: seq<seq<SLine>>)
    requires CoordsIncrease(Flatten(gs)) && forall k :: 0 <= k < |gs| ==> gs[k] != []
    ensures CoordsIncrease(EmitAll(fileCoords, gs))
    ensures forall x :: x in EmitAll(fileCoords, gs) && x.coord.Some? ==> x in Flatten(gs)
  {
    if gs != [] {
      IncreaseConcat(gs[0], Flatten(gs[1..]));
      EmitIsPart(fileCoords, gs[0]);
      EmittedCoords(fileCoords, gs[1..]);
      IncreaseConcat(Emit(fileCoords, gs[0]), EmitAll(fileCoords, gs[1..]));
    }
  }

  /** Collapsing keeps the numbers in order. */
  lemma CollapsedCoordsIncrease(fileCoords: bool, xs: seq<SLine>)
    requires CoordsIncrease(xs)
    ensures CoordsIncrease(Collapsed(fileCoords, xs))
  {
    RunsAreMaximal(xs);
    assert forall k :: 0 <= k < |Groups(xs)| ==> IsRun(Groups(xs)[k]);
    EmittedCoords(fileCoords, Groups(xs));
  }

  /** The range a reader finds in an annotation. */
  function RangeIn(x: SLine): Option<Range> {
    match ReadNote(IDENTICAL, x.raw) case Some(note) => note.range case None => None
  }

  /** An annotation's range starts at the head above it and ends before every later line. */
  ghost predicate SpanIsRight(out: seq<SLine>, p: nat, range: Option<Range>)
    requires p < |out|
  {
    out[p].annotation && range.Some? ==>
      p > 0 && out[p - 1].coord == Some(range.value.first) && range.value.first <= range.value.last &&
      forall q :: p < q < |out| && out[q].coord.Some? ==> range.value.last < out[q].coord.value
  }

  ghost predicate SpansAreRight(out: seq<SLine>) {
    forall p :: 0 <= p < |out| ==> SpanIsRight(out, p, RangeIn(out[p]))
  }

  lemma RangeIsRead(fileCoords: bool, g: seq<SLine>)
    requires g != []
    ensures RangeIn(Annotation(fileCoords, g)) == RangeOf(fileCoords, g[0], g[|g| - 1])
  {
    WordingsAreClear();
    NoteIsRead(IDENTICAL, NoteOf(fileCoords, g[0], g[|g| - 1], |g|));
  }

  /** A run and what is put out behind it. */
  lemma SpanOfRun(fileCoords: bool, g: seq<SLine>, rest: seq<SLine>)
    requires IsRun(g) && NoAnnotations(g) && CoordsIncrease(g) && Below(g, rest)
    ensures var out := Emit(fileCoords, g) + rest;
            forall p :: 0 <= p < |Emit(fileCoords, g)| ==> SpanIsRight(out, p, RangeIn(out[p]))
  {
    RangeIsRead(fileCoords, g);
    if |g| >= MIN_RUN {
      SpanOfNote(g, Annotation(fileCoords, g), RangeOf(fileCoords, g[0], g[|g| - 1]), rest);
    }
  }

  lemma SpanOfNote(g: seq<SLine>, note: SLine, range: Option<Range>, rest: seq<SLine>)
    requires g != [] && CoordsIncrease(g) && Below(g, rest)
    requires range.Some? ==> g[0].coord == Some(range.value.first) && g[|g| - 1].coord == Some(range.value.last)
    ensures SpanIsRight([g[0], note] + rest, 1, range)
  {
    var out := [g[0], note] + rest;
    assert g[|g| - 1] in g;
    forall q | 1 < q < |out| && out[q].coord.Some? && range.Some? ensures range.value.last < out[q].coord.value {
      assert out[q] == rest[q - 2];
    }
  }

  lemma SpanBehind(e: seq<SLine>, rest: seq<SLine>, p: nat, range: Option<Range>)
    requires p < |rest| && SpanIsRight(rest, p, range)
    ensures SpanIsRight(e + rest, |e| + p, range)
  {
    var out := e + rest;
    assert p > 0 ==> out[|e| + p - 1] == rest[p - 1];
    forall q | |e| + p < q < |out| ensures out[q] == rest[q - |e|] {
    }
  }

  lemma SpansBehind(e: seq<SLine>, rest: seq<SLine>)
    requires SpansAreRight(rest)
    ensures forall p :: |e| <= p < |e + rest| ==> SpanIsRight(e + rest, p, RangeIn((e + rest)[p]))
  {
    forall p | |e| <= p < |e + rest| ensures SpanIsRight(e + rest, p, RangeIn((e + rest)[p])) {
      OneSpanBehind(e, rest, p, RangeIn);
    }
  }

  lemma OneSpanBehind(e: seq<SLine>, rest: seq<SLine>, p: nat, range: SLine -> Option<Range>)
    requires |e| <= p < |e + rest| && SpanIsRight(rest, p - |e|, range(rest[p - |e|]))
    ensures SpanIsRight(e + rest, p, range((e + rest)[p]))
  {
    SpanBehind(e, rest, p - |e|, range(rest[p - |e|]));
  }

  lemma {:induction false} EmittedSpans(fileCoords: bool, gs: seq<seq<SLine>>)
    requires CoordsIncrease(Flatten(gs)) && forall k :: 0 <= k < |gs| ==> IsRun(gs[k]) && NoAnnotations(gs[k])
    ensures SpansAreRight(EmitAll(fileCoords, gs))
  {
    if gs != [] {
      var e, rest := Emit(fileCoords, gs[0]), EmitAll(fileCoords, gs[1..]);
      IncreaseConcat(gs[0], Flatten(gs[1..]));
      EmittedSpans(fileCoords, gs[1..]);
      EmittedCoords(fileCoords, gs[1..]);
      assert Below(gs[0], rest);
      SpanOfRun(fileCoords, gs[0], rest);
      SpansBehind(e, rest);
    }
  }

  lemma CollapsedSpans(fileCoords: bool, xs: seq<SLine>)
    requires NoAnnotations(xs) && CoordsIncrease(xs)
    ensures SpansAreRight(Collapsed(fileCoords, xs))
  {
    GroupsArePlainRuns(xs);
    EmittedSpans(fileCoords, Groups(xs));
  }

  /** Ranges of two elision notes never meet: the later one lies behind. */
  ghost predicate GapsInOrder(out: seq<SLine>, fileCoords: bool, g: Item, h: Item)
    requires Inside(g, |out|) && Inside(h, |out|) && g.Gap? && h.Gap?
  {
    var r, s := NoteFor(out, fileCoords, g.from, g.to).range, NoteFor(out, fileCoords, h.from, h.to).range;
    r.Some? && s.Some? ==> r.value.first <= r.value.last < s.value.first <= s.value.last
  }

  lemma {:induction false} RangesAreOrdered(out: seq<SLine>, fileCoords: bool, items: seq<Item>, j: nat, k: nat)
    requires CoordsIncrease(out) && Tiles(items, 0, |out|) && AllInside(items, |out|)
    requires j < k < |items| && items[j].Gap? && items[k].Gap?
    ensures GapsInOrder(out, fileCoords, items[j], items[k])
  {
    TilesAreOrdered(items, 0, |out|, j, k);
  }

  /** Range of an elision note and range of a run's note: disjoint and in order, except that a gap that
      ends with the head of a collapsed run shares that line with the run's own note. */
  ghost predicate MeetAtHeadOnly(out: seq<SLine>, fileCoords: bool, g: Item, p: nat, run: Option<Range>)
    requires Inside(g, |out|) && g.Gap? && p < |out|
  {
    var gap := NoteFor(out, fileCoords, g.from, g.to).range;
    out[p].annotation && gap.Some? && run.Some? ==>
      (p < g.from ==> run.value.last < gap.value.first) &&
      (p >= g.to ==> gap.value.last <= run.value.first && (gap.value.last == run.value.first <==> p == g.to))
  }

  lemma GapMeetsRun(out: seq<SLine>, fileCoords: bool, g: Item, p: nat, run: Option<Range>)
    requires CoordsIncrease(out) && Inside(g, |out|) && g.Gap? && p < |out| && SpanIsRight(out, p, run)
    ensures MeetAtHeadOnly(out, fileCoords, g, p, run)
  {
  }

  /** From the text: the notes of its structural index and of its collapsed runs, in order. */
  lemma NoteRangesOfText(text: string, cap: nat)
    requires cap >= 1
    ensures var norm := Normalize.NormalizedOf(text);
            var out := Collapsed(norm.fileCoords, ToSlines(norm, text));
            var items := Items(KeptMask.Mask(out, cap), 0);
            AllInside(items, |out|) &&
            (forall j, k :: 0 <= j < k < |items| && items[j].Gap? && items[k].Gap? ==>
              GapsInOrder(out, norm.fileCoords, items[j], items[k])) &&
            (forall j, p :: 0 <= j < |items| && items[j].Gap? && 0 <= p < |out| ==>
              MeetAtHeadOnly(out, norm.fileCoords, items[j], p, RangeIn(out[p])))
  {
    SlinesOfText(text);
    NoteRangesOfLines(ToSlines(Normalize.NormalizedOf(text), text), Normalize.NormalizedOf(text).fileCoords, cap);
  }

  lemma NoteRangesOfLines(xs: seq<SLine>, fileCoords: bool, cap: nat)
    requires FromText(xs) && CoordsIncrease(xs) && cap >= 1
    ensures var out := Collapsed(fileCoords, xs);
            var items := Items(KeptMask.Mask(out, cap), 0);
            AllInside(items, |out|) &&
            (forall j, k :: 0 <= j < k < |items| && items[j].Gap? && items[k].Gap? ==>
              GapsInOrder(out, fileCoords, items[j], items[k])) &&
            (forall j, p :: 0 <= j < |items| && items[j].Gap? && 0 <= p < |out| ==>
              MeetAtHeadOnly(out, fileCoords, items[j], p, RangeIn(out[p])))
  {
    var out := Collapsed(fileCoords, xs);
    var kept := KeptMask.Mask(out, cap);
    var items := Items(kept, 0);
    assert NoAnnotations(xs);
    CollapsedCoordsIncrease(fileCoords, xs);
    CollapsedSpans(fileCoords, xs);
    ItemsAreInside(kept);
    ItemsAreRight(kept, 0);
    forall j, k | 0 <= j < k < |items| && items[j].Gap? && items[k].Gap?
      ensures GapsInOrder(out, fileCoords, items[j], items[k])
    {
      RangesAreOrdered(out, fileCoords, items, j, k);
    }
    forall j, p | 0 <= j < |items| && items[j].Gap? && 0 <= p < |out|
      ensures MeetAtHeadOnly(out, fileCoords, items[j], p, RangeIn(out[p]))
    {
      GapMeetsRun(out, fileCoords, items[j], p, RangeIn(out[p]));
    }
  }

  /** A note on a stretch whose lines all have numbers counts no more lines than its range holds. */
  lemma NumberedNoteFits(g: seq<SLine>)
    requires g != [] && CoordsIncrease(g) && forall i :: 0 <= i < |g| ==> g[i].coord.Some?
    ensures var note := NoteOf(true, g[0], g[|g| - 1], |g|);
            note.range.Some? && note.count <= note.range.value.last - note.range.value.first + 1
  {
    NumberedSpan(g);
  }

  lemma {:induction false} NumberedSpan(g: seq<SLine>)
    requires g != [] && CoordsIncrease(g) && forall i :: 0 <= i < |g| ==> g[i].coord.Some?
    ensures |g| <= g[|g| - 1].coord.value - g[0].coord.value + 1
  {
    if |g| > 1 {
      NumberedSpan(g[..|g| - 1]);
    }
  }

  lemma GapNoteFits(out: seq<SLine>, from: nat, end: nat)
    requires CoordsIncrease(out) && from < end <= |out| && forall i :: from <= i < end ==> out[i].coord.Some?
    ensures var note := NoteFor(out, true, from, end);
            note.range.Some? && note.count <= note.range.value.last - note.range.value.first + 1
  {
    NumberedNoteFits(out[from..end]);
  }

  // ----- back to text

  ghost predicate OneLineEach(texts: seq<string>) {
    forall i :: 0 <= i < |texts| ==> '\n' !in texts[i]
  }

  lemma {:induction false} EmittedOneLine(fileCoords: bool, gs: seq<seq<SLine>>)
    requires forall x :: x in Flatten(gs) ==> '\n' !in x.raw
    requires forall k :: 0 <= k < |gs| ==> gs[k] != []
    ensures forall x :: x in EmitAll(fileCoords, gs) ==> '\n' !in x.raw
  {
    if gs != [] {
      EmittedOneLine(fileCoords, gs[1..]);
      WordingsAreOneLine();
      NoteIsOneLine(IDENTICAL, NoteOf(fileCoords, gs[0][0], gs[0][|gs[0]| - 1], |gs[0]|));
    }
  }

  lemma CollapsedOneLine(fileCoords: bool, xs: seq<SLine>)
    requires FromText(xs)
    ensures OneLineEach(Raws(Collapsed(fileCoords, xs)))
  {
    RunsAreMaximal(xs);
    assert forall k :: 0 <= k < |Groups(xs)| ==> IsRun(Groups(xs)[k]);
    EmittedOneLine(fileCoords, Groups(xs));
  }

  lemma TextsOneLine(out: seq<SLine>, fileCoords: bool, items: seq<Item>)
    requires AllInside(items, |out|) && OneLineEach(Raws(out))
    ensures OneLineEach(Texts(out, fileCoords, items))
  {
    WordingsAreOneLine();
    forall k | 0 <= k < |items| ensures '\n' !in ItemText(out, fileCoords, items[k]) {
      match items[k]
      case Shown(i) => assert Raws(out)[i] == out[i].raw;
      case Gap(from, to) => NoteIsOneLine(ELIDED, NoteFor(out, fileCoords, from, to));
    }
  }

  /** Notes of the index are read back as what they stand for: the length of the gap, and its ends. */
  lemma GapIsRead(out: seq<SLine>, fileCoords: bool, item: Item)
    requires Inside(item, |out|) && item.Gap?
    ensures ReadNote(ELIDED, ItemText(out, fileCoords, item)) ==
              Some(Note(item.to - item.from, RangeOf(fileCoords, out[item.from], out[item.to - 1])))
  {
    WordingsAreClear();
    NoteIsRead(ELIDED, NoteFor(out, fileCoords, item.from, item.to));
  }

  lemma {:induction false} GapsShorten(items: seq<Item>, from: nat, n: nat)
    requires Tiles(items, from, n)
    requires forall k :: 0 <= k < |items| && items[k].Gap? ==> items[k].from + MIN_GAP <= items[k].to
    ensures |items| <= n - from && (HasGap(items) ==> |items| + 2 <= n - from)
    decreases |items|
  {
    if items != [] {
      assert forall k :: 0 <= k < |items[1..]| ==> items[1..][k] == items[k + 1];
      GapsShorten(items[1..], End(items[0]), n);
      if HasGap(items) && items[0].Shown? {
        var k :| 0 <= k < |items| && items[k].Gap?;
        assert items[1..][k - 1].Gap?;
      }
    }
  }

  /** From text to text: the lines of the structural body are exactly the lines shown and the notes,
      each note reads back as its gap, they account for every line of the text, and there are at least
      two lines fewer. */
  lemma StructuralAccountsForText(text: string, cap: nat)
    requires cap >= 1
    ensures var norm := Normalize.NormalizedOf(text);
            var xs := ToSlines(norm, text);
            var out := Collapsed(norm.fileCoords, xs);
            var items := Items(KeptMask.Mask(out, cap), 0);
            AllInside(items, |out|) &&
            (Structural(out, norm.fileCoords, cap).Some? ==>
              Split(Structural(out, norm.fileCoords, cap).value.body, '\n') == Texts(out, norm.fileCoords, items) &&
              |Split(text, '\n')| == ShownPlain(out, items) + NotedLines(items) + Savings(Groups(xs)) &&
              |items| + 2 <= |Split(text, '\n')|)
  {
    var norm := Normalize.NormalizedOf(text);
    var xs := ToSlines(norm, text);
    SlinesOfText(text);
    AccountsForLines(xs, norm.fileCoords, cap);
  }

  lemma AccountsForLines(xs: seq<SLine>, fileCoords: bool, cap: nat)
    requires cap >= 1 && FromText(xs)
    ensures var out := Collapsed(fileCoords, xs);
            var items := Items(KeptMask.Mask(out, cap), 0);
            AllInside(items, |out|) &&
            (Structural(out, fileCoords, cap).Some? ==>
              Split(Structural(out, fileCoords, cap).value.body, '\n') == Texts(out, fileCoords, items) &&
              |xs| == ShownPlain(out, items) + NotedLines(items) + Savings(Groups(xs)) && |items| + 2 <= |xs|)
  {
    var out := Collapsed(fileCoords, xs);
    var kept := KeptMask.Mask(out, cap);
    var items := Items(kept, 0);
    assert NoAnnotations(xs);
    StructuralConserves(xs, fileCoords, cap);
    CollapseShortens(xs, fileCoords);
    ItemsAreRight(kept, 0);
    if Structural(out, fileCoords, cap).Some? {
      CollapsedOneLine(fileCoords, xs);
      TextsOneLine(out, fileCoords, items);
      assert forall k :: 0 <= k < |items| ==> ItemIsRight(kept, items[k]);
      GapsShorten(items, 0, |out|);
      SplitJoin(Texts(out, fileCoords, items), '\n');
    }
  }

  lemma {:induction false} EmittedShorter(fileCoords: bool, gs: seq<seq<SLine>>)
    ensures |EmitAll(fileCoords, gs)| <= |Flatten(gs)|
    ensures Savings(gs) > 0 ==> |EmitAll(fileCoords, gs)| < |Flatten(gs)|
  {
    if gs != [] {
      EmittedShorter(fileCoords, gs[1..]);
    }
  }

  lemma CollapseShortens(xs: seq<SLine>, fileCoords: bool)
    ensures |Collapsed(fileCoords, xs)| <= |xs|
    ensures Savings(Groups(xs)) > 0 ==> |Collapsed(fileCoords, xs)| < |xs|
  {
    RunsAreMaximal(xs);
    EmittedShorter(fileCoords, Groups(xs));
  }
}
