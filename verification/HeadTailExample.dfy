/** A text whose head-and-tail note counts fewer lines than are missing. */
module HeadTailExample {
  import opened Text
  import opened Lines
  import opened RunLength
  import opened Elision
  import opened Options
  import opened PlainText
  import Conservation
  import Deviation
  import Features
  import Normalize
  import Pipeline

  // ----- collapsing them

  function Singles(ts: seq<string>): seq<seq<SLine>> {
    seq(|ts|, i requires 0 <= i < |ts| => [BareLine(ts[i])])
  }

  lemma {:induction false} SinglesAre(ts: seq<string>)
    ensures Flatten(Singles(ts)) == BareLines(ts) && EmitAll(false, Singles(ts)) == BareLines(ts)
  {
    if ts != [] {
      assert Singles(ts)[1..] == Singles(ts[1..]);
      SinglesAre(ts[1..]);
      assert BareLines(ts) == [BareLine(ts[0])] + BareLines(ts[1..]);
    }
  }

  lemma {:induction false} GroupsConcat(a: seq<seq<SLine>>, b: seq<seq<SLine>>)
    ensures Flatten(a + b) == Flatten(a) + Flatten(b)
    ensures EmitAll(false, a + b) == EmitAll(false, a) + EmitAll(false, b)
  {
    if a == [] {
      assert a + b == b;
    } else {
      assert (a + b)[1..] == a[1..] + b;
      GroupsConcat(a[1..], b);
    }
  }

  /** Different words, one word three times, different words again. */
  function Around(before: seq<string>, word: string, after: seq<string>): seq<string> {
    before + [word, word, word] + after
  }

  ghost predicate AllDiffer(ts: seq<string>) {
    forall i :: 0 <= i < |ts| - 1 ==> ts[i] != ts[i + 1]
  }

  function Runs(before: seq<string>, word: string, after: seq<string>): seq<seq<SLine>> {
    Singles(before) + ([Triple(word)] + Singles(after))
  }

  lemma RunsAreRuns(before: seq<string>, word: string, after: seq<string>)
    requires AllDiffer(before + [word] + after)
    ensures AreMaximalRuns(Runs(before, word, after))
  {
    var gs, heads := Runs(before, word, after), before + [word] + after;
    assert |gs| == |heads|;
    forall k | 0 <= k < |gs| ensures IsRun(gs[k]) && gs[k][0] == BareLine(heads[k]) {
    }
    forall k | 0 <= k < |gs| - 1 ensures Ends(gs[k], gs[k + 1][0]) {
      assert heads[k] != heads[k + 1];
    }
  }

  lemma RunsFlatten(before: seq<string>, word: string, after: seq<string>)
    ensures Flatten(Runs(before, word, after)) == BareLines(before) + (Triple(word) + BareLines(after))
    ensures EmitAll(false, Runs(before, word, after))
         == BareLines(before) + ([BareLine(word), Annotation(false, Triple(word))] + BareLines(after))
  {
    var mid := [Triple(word)];
    GroupsConcat(Singles(before), mid + Singles(after));
    GroupsConcat(mid, Singles(after));
    SinglesAre(before);
    SinglesAre(after);
    OneGroup(Triple(word));
  }

  lemma OneGroup(g: seq<SLine>)
    ensures Flatten([g]) == g && EmitAll(false, [g]) == Emit(false, g)
  {
    assert [g][1..] == [];
  }

  lemma AroundAsLines(before: seq<string>, word: string, after: seq<string>)
    ensures BareLines(Around(before, word, after)) == BareLines(before) + (Triple(word) + BareLines(after))
  {
  }

  lemma CollapsedWords(before: seq<string>, word: string, after: seq<string>)
    requires AllDiffer(before + [word] + after)
    ensures Collapsed(false, BareLines(Around(before, word, after)))
         == BareLines(before) + ([BareLine(word), Annotation(false, Triple(word))] + BareLines(after))
  {
    RunsAreRuns(before, word, after);
    RunsAreUnique(Runs(before, word, after));
    RunsFlatten(before, word, after);
    AroundAsLines(before, word, after);
  }

  // ----- the example

  /** Words of one letter, longer and longer. */
  function Growing(c: char, n: nat): seq<string> {
    seq(n, i requires 0 <= i => seq(i + 1, k => c))
  }

  function ExampleLines(): seq<string> {
    Around(Growing('a', 21), "b", Growing('c', 8))
  }

  lemma ExampleIsBare()
    ensures AreBare(ExampleLines()) && |ExampleLines()| == 32
    ensures AllDiffer(Growing('a', 21) + ["b"] + Growing('c', 8))
  {
    var heads := Growing('a', 21) + ["b"] + Growing('c', 8);
    forall i | 0 <= i < |heads| - 1 ensures heads[i] != heads[i + 1] {
      if i < 20 {
        assert |heads[i]| == i + 1 && |heads[i + 1]| == i + 2;
      } else if i == 20 {
        assert |heads[i]| == 21 && |heads[i + 1]| == 1;
      } else if i == 21 {
        assert heads[i][0] == 'b' && heads[i + 1][0] == 'c';
      } else {
        assert |heads[i]| == i - 21 && |heads[i + 1]| == i - 20;
      }
    }
    forall i | 0 <= i < |ExampleLines()| ensures IsBare(ExampleLines()[i]) {
      var t := ExampleLines()[i];
      assert i < 21 ==> t == Growing('a', 21)[i];
      assert 21 <= i < 24 ==> t == "b";
      assert i >= 24 ==> t == Growing('c', 8)[i - 24];
    }
  }

  lemma WeightOfThree(x: SLine, head: SLine, note: SLine)
    requires !x.annotation && !head.annotation && note.annotation && CountIn(note) == 3
    ensures WeightSum([x, head, note]) == 4
  {
    assert [x, head, note][1..] == [head, note] && [head, note][1..] == [note] && [note][1..] == [];
    assert WeightSum([note]) == 2;
    assert WeightSum([head, note]) == 3;
  }

  lemma MiddleThree(a: seq<SLine>, x: SLine, y: SLine, b: seq<SLine>)
    requires |a| == 21
    ensures (a + ([x, y] + b))[20..23] == [a[20], x, y]
  {
  }

  lemma HiddenPart(before: seq<string>, word: string, after: seq<string>)
    requires |before| == 21 && |after| == 8
    ensures var out := BareLines(before) + ([BareLine(word), Annotation(false, Triple(word))] + BareLines(after));
            |out| == 31 && WeightSum(out[HEAD_LINES..|out| - TAIL_LINES]) == 4
  {
    var note := Annotation(false, Triple(word));
    var out := BareLines(before) + ([BareLine(word), note] + BareLines(after));
    CountIsRead(false, Triple(word));
    MiddleThree(BareLines(before), BareLine(word), note, BareLines(after));
    WeightOfThree(BareLine(before[20]), BareLine(word), note);
  }

  /** What head and tail leave out of a text, and what their note says. */
  ghost predicate Counts(text: string, lines: nat, hidden: nat, noted: nat) {
    var norm := Normalize.NormalizedOf(text);
    var out := Collapsed(norm.fileCoords, ToSlines(norm, text));
    |Split(text, '\n')| == lines && |out| > HEAD_LINES + TAIL_LINES &&
    WeightSum(out[HEAD_LINES..|out| - TAIL_LINES]) == hidden &&
    NoteFor(out, norm.fileCoords, HEAD_LINES, |out| - TAIL_LINES).count == noted
  }

  lemma WordsAreCounted(before: seq<string>, word: string, after: seq<string>)
    requires |before| == 21 && |after| == 8
    requires AreBare(Around(before, word, after)) && AllDiffer(before + [word] + after)
    ensures Counts(Join(Around(before, word, after), "\n"), 32, 4, 3)
  {
    LinesOfBare(Around(before, word, after));
    CollapsedWords(before, word, after);
    HiddenPart(before, word, after);
  }

  /** For example, 32 lines: 21 different ones, one three times over, eight different ones. Head and tail
      leave out four of them, and their note says three. */
  lemma NoteCountsTooFew()
    ensures Counts(Join(ExampleLines(), "\n"), 32, 4, 3)
  {
    ExampleIsBare();
    WordsAreCounted(Growing('a', 21), "b", Growing('c', 8));
  }

  // ----- the renderer picks head and tail

  lemma {:induction false} AllSeen(ts: seq<string>)
    requires AreBare(ts)
    ensures Features.Seen(NLines(ts)) == ts
  {
    if ts != [] {
      var n := |ts| - 1;
      AllSeen(ts[..n]);
      assert IsBare(ts[n]);
      BareIsClean(ts[n]);
      assert NLines(ts)[..n] == NLines(ts[..n]);
    }
  }

  lemma {:induction false} NoSpread(vs: seq<nat>)
    requires forall i :: 0 <= i < |vs| ==> vs[i] == 0
    ensures Deviation.Sum(vs) == 0 && Deviation.SumSq(vs) == 0 && Deviation.Spread(vs) == 0
  {
    if vs != [] {
      NoSpread(vs[..|vs| - 1]);
    }
  }

  lemma NoIndents(ts: seq<string>)
    requires AreBare(ts)
    ensures forall i :: 0 <= i < |ts| ==> Features.Indents(ts)[i] == 0
  {
    forall i | 0 <= i < |ts| ensures Features.IndentOf(ts[i]) == 0 {
      assert IsBare(ts[i]);
      LineOfBare(ts[i]);
      assert BareLine(ts[i]).indent == 0;
    }
  }

  /** More than three bare lines are neither one long line nor nested. */
  lemma BareIsFlat(ts: seq<string>, text: string, f: Features.Features, parses: string -> bool)
    requires AreBare(ts) && 3 < |ts| <= 1000 && Features.Measures(f, ts, |ts|, |text|)
    ensures Pipeline.StrategyFor(Features.Classify(text, f, parses)) == Pipeline.HeadAndTail
  {
    NoIndents(ts);
    NoSpread(Features.Indents(ts));
    Features.NestingIsExact(f, ts, |ts|, |text|);
    Deviation.SquareGrows(1, |ts|);
  }

  /** Where the floor does not stop it, head and tail of the output is the answer. */
  lemma HeadTailIsChosen(shape: Features.Shape, out: seq<SLine>, collapsed: nat, setup: Pipeline.Setup)
    requires setup.cap >= 1 && Pipeline.StrategyFor(shape) == Pipeline.HeadAndTail
    requires |out| > HEAD_LINES + TAIL_LINES && setup.count(Body(out)) >= setup.floor
    ensures var a := HeadTail(out, false).value;
            Pipeline.Outcome(shape, out, collapsed, false, setup) ==
              Some(Pipeline.Choice(a.body, Pipeline.HeadAndTail, a.ranges))
  {
  }

  /** The answer is head and tail; behind twenty lines it shows a note with this count. */
  ghost predicate ShowsNote(r: Option<Pipeline.Rendered>, count: nat) {
    r.Some? && r.value.meta.strategy == Pipeline.HeadAndTail && |Split(r.value.body, '\n')| == 29 &&
    ReadNote(ELIDED, Split(r.value.body, '\n')[20]) == Some(Note(count, None))
  }

  lemma HeadTailSplits(out: seq<SLine>)
    requires |out| > HEAD_LINES + TAIL_LINES && Conservation.OneLineEach(Raws(out))
    ensures Split(HeadTail(out, false).value.body, '\n') == HeadTailLines(out, false)
  {
    HeadTailTiles(|out|);
    HeadTailIsIndex(out, false);
    Conservation.TextsOneLine(out, false, HeadTailItems(|out|));
    SplitJoin(HeadTailLines(out, false), '\n');
  }

  lemma NoteBetween(out: seq<SLine>)
    requires |out| > HEAD_LINES + TAIL_LINES && out[HEAD_LINES].coord.None?
    ensures var lines := HeadTailLines(out, false);
            |lines| == 29 && ReadNote(ELIDED, lines[20]) == Some(Note(|out| - HEAD_LINES - TAIL_LINES, None))
  {
    WordingsAreClear();
    NoteIsRead(ELIDED, NoteFor(out, false, HEAD_LINES, |out| - TAIL_LINES));
  }

  /** The answer for a text with these lines. */
  lemma RenderedIs(text: string, f: Features.Features, setup: Pipeline.Setup, out: seq<SLine>)
    requires setup.cap >= 1 && Pipeline.OutOf(text) == out && !Normalize.NormalizedOf(text).fileCoords
    requires Pipeline.StrategyFor(Features.Classify(text, f, setup.Parses)) == Pipeline.HeadAndTail
    requires |out| > HEAD_LINES + TAIL_LINES && setup.count(Body(out)) >= setup.floor
    ensures var r := Pipeline.RenderedAs(text, f, setup);
            r.Some? && r.value.meta.strategy == Pipeline.HeadAndTail && r.value.body == HeadTail(out, false).value.body
  {
    HeadTailIsChosen(Features.Classify(text, f, setup.Parses), out, Pipeline.CollapsedOf(text), setup);
  }

  /** Many bare lines are answered by their head and tail. */
  lemma BareIsRendered(ts: seq<string>, text: string, out: seq<SLine>, f: Features.Features, setup: Pipeline.Setup)
    requires AreBare(ts) && 3 < |ts| <= 1000 && setup.cap >= 1 && text == Join(ts, "\n")
    requires Pipeline.OutOf(text) == out && |out| > HEAD_LINES + TAIL_LINES
    requires Pipeline.MeasuresText(f, text) && setup.count(Body(out)) >= setup.floor
    ensures var r := Pipeline.RenderedAs(text, f, setup);
            r.Some? && r.value.meta.strategy == Pipeline.HeadAndTail && r.value.body == HeadTail(out, false).value.body
  {
    LinesOfBare(ts);
    AllSeen(ts);
    BareIsFlat(ts, text, f, setup.Parses);
    RenderedIs(text, f, setup, out);
  }

  lemma ExampleOutput() returns (out: seq<SLine>)
    ensures Pipeline.OutOf(Join(ExampleLines(), "\n")) == out && |out| == 31 && out[HEAD_LINES].coord.None?
    ensures Conservation.OneLineEach(Raws(out))
  {
    ExampleIsBare();
    LinesOfBare(ExampleLines());
    CollapsedWords(Growing('a', 21), "b", Growing('c', 8));
    out := Collapsed(false, BareLines(ExampleLines()));
    SlinesOfText(Join(ExampleLines(), "\n"));
    Conservation.CollapsedOneLine(false, BareLines(ExampleLines()));
  }

  /** The renderer shows that note of three, whenever the collapsed text is not below the floor already. */
  lemma RenderedNoteCountsTooFew(f: Features.Features, setup: Pipeline.Setup)
    requires setup.cap >= 1
    requires var text := Join(ExampleLines(), "\n");
             Pipeline.MeasuresText(f, text) && setup.count(Body(Pipeline.OutOf(text))) >= setup.floor
    ensures Counts(Join(ExampleLines(), "\n"), 32, 4, 3)
    ensures ShowsNote(Pipeline.RenderedAs(Join(ExampleLines(), "\n"), f, setup), 3)
  {
    var out := ExampleOutput();
    NoteCountsTooFew();
    ExampleIsBare();
    BareIsRendered(ExampleLines(), Join(ExampleLines(), "\n"), out, f, setup);
    HeadTailSplits(out);
    NoteBetween(out);
  }
}
