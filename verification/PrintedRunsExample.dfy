/** Two texts of different length whose collapsed bodies are the same. */
module PrintedRunsExample {
  import opened Text
  import opened Lines
  import opened RunLength
  import opened PlainText
  import opened Options
  import Ansi
  import Normalize
  import Pipeline

  /** The note of a run of three lines, as a line of the input may look as well. */
  function NoteLine(): string {
    NoteText(IDENTICAL, Note(3, None))
  }

  /** One line three times, then another one three times. */
  function TwoRuns(x: string, y: string): seq<string> {
    [x, x, x, y, y, y]
  }

  /** One line, a line that looks like a note, and another line three times. */
  function NoteThenRun(x: string, note: string, y: string): seq<string> {
    [x, note, y, y, y]
  }

  lemma NumberIsBare(before: string, n: nat, after: string)
    requires IsBare(before) && after != "" && !IsSpace(after[|after| - 1]) && '\n' !in after && Ansi.ESC !in after
    ensures IsBare(before + (Dec(n) + after))
  {
    var t, digits := before + (Dec(n) + after), Dec(n);
    assert forall i :: 0 <= i < |digits| ==> digits[i] != '\n' && digits[i] != Ansi.ESC;
    assert t[|t| - 1] == after[|after| - 1] && t[0] == before[0];
  }

  lemma NoteIsBare()
    ensures IsBare(NoteLine()) && NoteLine()[0] == '['
  {
    NumberIsBare("[… ×", 3, " identical lines" + " …]");
  }

  /** Collapsing lines whose runs are known. */
  lemma CollapsedRuns(xs: seq<SLine>, gs: seq<seq<SLine>>)
    requires AreMaximalRuns(gs) && Flatten(gs) == xs
    ensures Groups(xs) == gs && Collapsed(false, xs) == EmitAll(false, gs)
  {
    RunsAreUnique(gs);
  }

  lemma TripleNoted(t: string)
    ensures Raws(Emit(false, Triple(t))) == [t, NoteLine()] && Saving(Triple(t)) == 2
  {
    assert Emit(false, Triple(t)) == [BareLine(t), Annotation(false, Triple(t))];
  }

  lemma FlattenFront(a: seq<SLine>, gs: seq<seq<SLine>>)
    ensures Flatten([a] + gs) == a + Flatten(gs)
    ensures EmitAll(false, [a] + gs) == Emit(false, a) + EmitAll(false, gs)
    ensures Savings([a] + gs) == Saving(a) + Savings(gs)
  {
    EmitFirst(false, a, gs);
    assert ([a] + gs)[1..] == gs;
  }

  lemma FlattenTwo(a: seq<SLine>, b: seq<SLine>)
    ensures Flatten([a, b]) == a + b && EmitAll(false, [a, b]) == Emit(false, a) + Emit(false, b)
    ensures Savings([a, b]) == Saving(a) + Saving(b)
  {
    assert [a, b] == [a] + ([b] + []);
    FlattenFront(b, []);
    FlattenFront(a, [b] + []);
  }

  lemma FlattenThree(a: seq<SLine>, b: seq<SLine>, c: seq<SLine>)
    ensures Flatten([a, b, c]) == a + (b + c)
    ensures EmitAll(false, [a, b, c]) == Emit(false, a) + (Emit(false, b) + Emit(false, c))
    ensures Savings([a, b, c]) == Saving(a) + (Saving(b) + Saving(c))
  {
    assert [a, b, c] == [a] + [b, c];
    FlattenFront(a, [b, c]);
    FlattenTwo(b, c);
  }

  lemma RawsConcat(a: seq<SLine>, b: seq<SLine>)
    ensures Raws(a + b) == Raws(a) + Raws(b)
  {
  }

  lemma TwoRunsCollapse(x: string, y: string)
    requires IsBare(x) && IsBare(y) && x != y
    ensures Savings(Groups(BareLines(TwoRuns(x, y)))) > 0
    ensures Raws(Collapsed(false, BareLines(TwoRuns(x, y)))) == [x, NoteLine(), y, NoteLine()]
  {
    FlattenTwo(Triple(x), Triple(y));
    TripleNoted(x);
    TripleNoted(y);
    assert BareLines(TwoRuns(x, y)) == Triple(x) + Triple(y);
    CollapsedRuns(BareLines(TwoRuns(x, y)), [Triple(x), Triple(y)]);
    RawsConcat(Emit(false, Triple(x)), Emit(false, Triple(y)));
  }

  lemma NoteThenRunCollapses(x: string, note: string, y: string)
    requires IsBare(x) && IsBare(note) && IsBare(y) && x != note && note != y
    ensures Savings(Groups(BareLines(NoteThenRun(x, note, y)))) > 0
    ensures Raws(Collapsed(false, BareLines(NoteThenRun(x, note, y)))) == [x, note, y, NoteLine()]
  {
    var first, second := [BareLine(x)], [BareLine(note)];
    FlattenThree(first, second, Triple(y));
    TripleNoted(y);
    NoteThenRunLines(x, note, y);
    CollapsedRuns(BareLines(NoteThenRun(x, note, y)), [first, second, Triple(y)]);
    RawsConcat(second, Emit(false, Triple(y)));
    RawsConcat(first, second + Emit(false, Triple(y)));
  }

  lemma NoteThenRunLines(x: string, note: string, y: string)
    requires x != note && note != y
    ensures BareLines(NoteThenRun(x, note, y)) == [BareLine(x)] + ([BareLine(note)] + Triple(y))
    ensures AreMaximalRuns([[BareLine(x)], [BareLine(note)], Triple(y)])
  {
  }

  /** The lossless pass shows a text of `n` lines as the body with these lines. */
  ghost predicate ShownAs(text: string, raws: seq<string>, n: nat) {
    Pipeline.LosslessBody(text) == Some(Join(raws, "\n")) && |Split(text, '\n')| == n
  }

  lemma BodyOf(ts: seq<string>, raws: seq<string>)
    requires ts != [] && AreBare(ts)
    requires Savings(Groups(BareLines(ts))) > 0 && Raws(Collapsed(false, BareLines(ts))) == raws
    ensures ShownAs(Join(ts, "\n"), raws, |ts|)
  {
    LinesOfBare(ts);
  }

  lemma TwoRunsShown(x: string, y: string)
    requires IsBare(x) && IsBare(y) && x != y
    ensures ShownAs(Join(TwoRuns(x, y), "\n"), [x, NoteLine(), y, NoteLine()], 6)
  {
    TwoRunsCollapse(x, y);
    BodyOf(TwoRuns(x, y), [x, NoteLine(), y, NoteLine()]);
  }

  lemma NoteThenRunShown(x: string, note: string, y: string)
    requires IsBare(x) && IsBare(note) && IsBare(y) && x != note && note != y
    ensures ShownAs(Join(NoteThenRun(x, note, y), "\n"), [x, note, y, NoteLine()], 5)
  {
    NoteThenRunCollapses(x, note, y);
    BodyOf(NoteThenRun(x, note, y), [x, note, y, NoteLine()]);
  }

  /** For example: a text that already holds a collapsed run, and one that does not, are shown as the same
      body, though one has six lines and the other five. No reader of the body can tell them apart. */
  lemma SameBodyTwice()
    ensures ShownAs(Join(TwoRuns("x", "y"), "\n"), ["x", NoteLine(), "y", NoteLine()], 6)
    ensures ShownAs(Join(NoteThenRun("x", NoteLine(), "y"), "\n"), ["x", NoteLine(), "y", NoteLine()], 5)
  {
    NoteIsBare();
    assert "x"[0] == 'x' && "y"[0] == 'y';
    TwoRunsShown("x", "y");
    NoteThenRunShown("x", NoteLine(), "y");
  }
}
