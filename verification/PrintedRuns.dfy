/**
  Undoing the lossless pass from its printed lines alone, which do not say which of them are notes: a
  line behind another one is a note if it reads as one.
*/
module PrintedRuns {
  import opened Options
  import opened Text
  import opened Lines
  import opened RunLength
  import Normalize
  import Pipeline

  /** A run as it is printed: its first line, and how many lines it stands for. */
  datatype Run = Run(head: string, count: nat)

  /** What a reader makes of a line that may be a note of the pass. */
  function CountOf(line: string): Option<nat> {
    match ReadNote(IDENTICAL, line) case Some(note) => Some(note.count) case None => None
  }

  /** Reading printed lines: a line and a note behind it are a run, any other line is alone. */
  function ReadRuns(lines: seq<string>, note: string -> Option<nat>): seq<Run> {
    if lines == [] then []
    else if |lines| > 1 && note(lines[1]).Some? then [Run(lines[0], note(lines[1]).value)] + ReadRuns(lines[2..], note)
    else [Run(lines[0], 1)] + ReadRuns(lines[1..], note)
  }

  // ----- the runs there are

  function Alone(xs: seq<SLine>): seq<Run> {
    seq(|xs|, i requires 0 <= i < |xs| => Run(xs[i].raw, 1))
  }

  /** A run the pass collapses is one run; the lines of a shorter one stand alone. */
  function RunsIn(g: seq<SLine>): seq<Run> {
    if |g| >= MIN_RUN then [Run(g[0].raw, |g|)] else Alone(g)
  }

  function RunsOf(gs: seq<seq<SLine>>): seq<Run> {
    if gs == [] then [] else RunsIn(gs[0]) + RunsOf(gs[1..])
  }

  function Total(runs: seq<Run>): nat {
    if runs == [] then 0 else runs[0].count + Total(runs[1..])
  }

  lemma {:induction false} TotalConcat(a: seq<Run>, b: seq<Run>)
    ensures Total(a + b) == Total(a) + Total(b)
  {
    if a == [] {
      assert a + b == b;
    } else {
      assert (a + b)[1..] == a[1..] + b;
      TotalConcat(a[1..], b);
    }
  }

  lemma {:induction false} AloneTotal(xs: seq<SLine>)
    ensures Total(Alone(xs)) == |xs|
  {
    if xs != [] {
      AloneTotal(xs[1..]);
      assert Alone(xs)[1..] == Alone(xs[1..]);
    }
  }

  /** The runs stand for all the lines. */
  lemma {:induction false} RunsTotal(gs: seq<seq<SLine>>)
    ensures Total(RunsOf(gs)) == |Flatten(gs)|
  {
    if gs != [] {
      RunsTotal(gs[1..]);
      TotalConcat(RunsIn(gs[0]), RunsOf(gs[1..]));
      AloneTotal(gs[0]);
      assert |gs[0]| >= MIN_RUN ==> RunsIn(gs[0])[1..] == [];
    }
  }

  // ----- reading with the flags

  /** The runs of the output, told by the flags the printed lines do not have. */
  function FlaggedRuns(out: seq<SLine>, count: SLine -> nat): seq<Run> {
    if out == [] then []
    else if |out| > 1 && out[1].annotation then [Run(out[0].raw, count(out[1]))] + FlaggedRuns(out[2..], count)
    else [Run(out[0].raw, 1)] + FlaggedRuns(out[1..], count)
  }

  lemma {:induction false} FlaggedNoted(x: SLine, note: SLine, rest: seq<SLine>, count: SLine -> nat)
    requires note.annotation
    ensures FlaggedRuns([x, note] + rest, count) == [Run(x.raw, count(note))] + FlaggedRuns(rest, count)
  {
    assert ([x, note] + rest)[2..] == rest;
  }

  lemma {:induction false} FlaggedOne(x: SLine, rest: seq<SLine>, count: SLine -> nat)
    requires rest == [] || !rest[0].annotation
    ensures FlaggedRuns([x] + rest, count) == [Run(x.raw, 1)] + FlaggedRuns(rest, count)
  {
    assert ([x] + rest)[1..] == rest;
  }

  /** A line in front of lines already read. */
  lemma {:induction false} FlaggedFront(x: SLine, a: seq<SLine>, b: seq<SLine>, count: SLine -> nat)
    requires (a == [] || !a[0].annotation) && (b == [] || !b[0].annotation)
    requires FlaggedRuns(a + b, count) == FlaggedRuns(a, count) + FlaggedRuns(b, count)
    ensures FlaggedRuns([x] + (a + b), count) == FlaggedRuns([x] + a, count) + FlaggedRuns(b, count)
  {
    FlaggedOne(x, a, count);
    FlaggedOne(x, a + b, count);
  }

  lemma {:induction false} FlaggedFrontNoted(x: SLine, note: SLine, a: seq<SLine>, b: seq<SLine>, count: SLine -> nat)
    requires note.annotation
    requires FlaggedRuns(a + b, count) == FlaggedRuns(a, count) + FlaggedRuns(b, count)
    ensures FlaggedRuns([x, note] + (a + b), count) == FlaggedRuns([x, note] + a, count) + FlaggedRuns(b, count)
  {
    FlaggedNoted(x, note, a, count);
    FlaggedNoted(x, note, a + b, count);
  }

  lemma TakeOne(a: seq<SLine>, b: seq<SLine>)
    requires a != []
    ensures a == [a[0]] + a[1..] && a + b == [a[0]] + (a[1..] + b)
  {
  }

  lemma TakeTwo(a: seq<SLine>, b: seq<SLine>)
    requires |a| > 1
    ensures a == [a[0], a[1]] + a[2..] && a + b == [a[0], a[1]] + (a[2..] + b)
  {
  }

  lemma {:induction false} FlaggedConcat(a: seq<SLine>, b: seq<SLine>, count: SLine -> nat)
    requires b == [] || !b[0].annotation
    ensures FlaggedRuns(a + b, count) == FlaggedRuns(a, count) + FlaggedRuns(b, count)
    decreases |a|
  {
    if a == [] {
      assert a + b == b;
    } else if |a| > 1 && a[1].annotation {
      FlaggedConcat(a[2..], b, count);
      FlaggedFrontNoted(a[0], a[1], a[2..], b, count);
      TakeTwo(a, b);
    } else {
      FlaggedConcat(a[1..], b, count);
      FlaggedFront(a[0], a[1..], b, count);
      TakeOne(a, b);
    }
  }

  lemma {:induction false} FlaggedPlain(xs: seq<SLine>, count: SLine -> nat)
    requires NoAnnotations(xs)
    ensures FlaggedRuns(xs, count) == Alone(xs)
  {
    if xs != [] {
      FlaggedPlain(xs[1..], count);
      assert Alone(xs) == [Run(xs[0].raw, 1)] + Alone(xs[1..]);
    }
  }

  lemma FlaggedEmit(fileCoords: bool, g: seq<SLine>)
    requires g != [] && NoAnnotations(g)
    ensures FlaggedRuns(Emit(fileCoords, g), CountIn) == RunsIn(g)
  {
    if |g| >= MIN_RUN {
      CountIsRead(fileCoords, g);
      assert Emit(fileCoords, g)[2..] == [];
    } else {
      FlaggedPlain(g, CountIn);
    }
  }

  lemma {:induction false} FlaggedGroups(fileCoords: bool, gs: seq<seq<SLine>>)
    requires forall k :: 0 <= k < |gs| ==> gs[k] != [] && NoAnnotations(gs[k])
    ensures FlaggedRuns(EmitAll(fileCoords, gs), CountIn) == RunsOf(gs)
  {
    if gs != [] {
      FlaggedGroups(fileCoords, gs[1..]);
      if gs[1..] != [] {
        assert gs[1] != [];
        EmitStarts(fileCoords, gs[1..]);
      }
      FlaggedConcat(Emit(fileCoords, gs[0]), EmitAll(fileCoords, gs[1..]), CountIn);
      FlaggedEmit(fileCoords, gs[0]);
    }
  }

  // ----- reading without them

  /** Every note follows a line that is none, and reads as a count of three or more. */
  ghost predicate NotesRead(out: seq<SLine>, note: string -> Option<nat>, count: SLine -> nat) {
    forall i :: 0 <= i < |out| && out[i].annotation ==>
      i > 0 && !out[i - 1].annotation && count(out[i]) >= MIN_RUN && note(out[i].raw) == Some(count(out[i]))
  }

  /** A line of the input behind another one that reads as a note. */
  ghost predicate Mistaken(out: seq<SLine>, note: string -> Option<nat>, q: int) {
    0 < q < |out| && !out[q - 1].annotation && !out[q].annotation && note(out[q].raw).Some?
  }

  ghost predicate NoneMistaken(out: seq<SLine>, note: string -> Option<nat>) {
    forall q :: !Mistaken(out, note, q)
  }

  lemma RawsTail(out: seq<SLine>, n: nat)
    requires n <= |out|
    ensures Raws(out)[n..] == Raws(out[n..])
  {
  }

  lemma {:induction false} NotesReadTail(out: seq<SLine>, note: string -> Option<nat>, count: SLine -> nat, n: nat)
    requires NotesRead(out, note, count) && n <= |out| && (n < |out| ==> !out[n].annotation)
    ensures NotesRead(out[n..], note, count)
  {
    var rest := out[n..];
    forall i | 0 <= i < |rest| && rest[i].annotation ensures i > 0 && !rest[i - 1].annotation {
      assert rest[i] == out[n + i];
    }
  }

  /** Lines that reading some runs takes at least: two for a run of three or more, one for any other. */
  function Cost(runs: seq<Run>): nat {
    if runs == [] then 0 else Cost(runs[1..]) + if runs[0].count >= MIN_RUN then 2 else 1
  }

  lemma {:induction false} ReadingCosts(lines: seq<string>, note: string -> Option<nat>)
    ensures Cost(ReadRuns(lines, note)) <= |lines|
    decreases |lines|
  {
    if lines == [] {
    } else if |lines| > 1 && note(lines[1]).Some? {
      ReadingCosts(lines[2..], note);
    } else {
      ReadingCosts(lines[1..], note);
    }
  }

  lemma {:induction false} FlaggedCost(out: seq<SLine>, note: string -> Option<nat>, count: SLine -> nat)
    requires NotesRead(out, note, count)
    ensures Cost(FlaggedRuns(out, count)) == |out|
    decreases |out|
  {
    if out == [] {
    } else if |out| > 1 && out[1].annotation {
      NotesReadTail(out, note, count, 2);
      FlaggedCost(out[2..], note, count);
    } else {
      NotesReadTail(out, note, count, 1);
      FlaggedCost(out[1..], note, count);
    }
  }

  lemma MistakenTail(out: seq<SLine>, note: string -> Option<nat>, n: nat)
    requires n <= |out| && forall q :: 0 < q <= n ==> !Mistaken(out, note, q)
    ensures NoneMistaken(out, note) <==> NoneMistaken(out[n..], note)
  {
    if NoneMistaken(out[n..], note) {
      forall q ensures !Mistaken(out, note, q) {
        assert !Mistaken(out[n..], note, q - n);
      }
    }
    if NoneMistaken(out, note) {
      forall q ensures !Mistaken(out[n..], note, q) {
        assert !Mistaken(out, note, q + n);
      }
    }
  }

  /** A line taken for a note: what is read behind it has too few lines to be what is there. */
  lemma {:induction false} MisreadDiffers(out: seq<SLine>, note: string -> Option<nat>, count: SLine -> nat)
    requires NotesRead(out, note, count) && Mistaken(out, note, 1)
    ensures ReadRuns(Raws(out), note) != FlaggedRuns(out, count)
  {
    var lines := Raws(out);
    var rest := out[1..];
    NotesReadTail(out, note, count, 1);
    FlaggedCost(rest, note, count);
    ReadingCosts(lines[2..], note);
    assert ReadRuns(lines, note)[1..] == ReadRuns(lines[2..], note);
    assert FlaggedRuns(out, count)[1..] == FlaggedRuns(rest, count);
  }

  lemma SameFront(r: Run, a: seq<Run>, b: seq<Run>)
    ensures [r] + a == [r] + b <==> a == b
  {
    assert ([r] + a)[1..] == a && ([r] + b)[1..] == b;
  }

  lemma NotedRead(out: seq<SLine>, note: string -> Option<nat>, count: SLine -> nat)
    requires NotesRead(out, note, count) && |out| > 1 && out[1].annotation
    ensures ReadRuns(Raws(out), note) == FlaggedRuns(out, count) <==>
              ReadRuns(Raws(out[2..]), note) == FlaggedRuns(out[2..], count)
  {
    RawsTail(out, 2);
    SameFront(Run(out[0].raw, count(out[1])), ReadRuns(Raws(out[2..]), note), FlaggedRuns(out[2..], count));
  }

  lemma OneRead(out: seq<SLine>, note: string -> Option<nat>, count: SLine -> nat)
    requires out != [] && (|out| > 1 ==> !out[1].annotation && note(out[1].raw).None?)
    ensures ReadRuns(Raws(out), note) == FlaggedRuns(out, count) <==>
              ReadRuns(Raws(out[1..]), note) == FlaggedRuns(out[1..], count)
  {
    RawsTail(out, 1);
    SameFront(Run(out[0].raw, 1), ReadRuns(Raws(out[1..]), note), FlaggedRuns(out[1..], count));
  }

  /** The printed lines are read as the flags tell exactly if no line of the input is taken for a note. */
  lemma {:induction false} ReadingIsExact(out: seq<SLine>, note: string -> Option<nat>, count: SLine -> nat)
    requires NotesRead(out, note, count)
    ensures ReadRuns(Raws(out), note) == FlaggedRuns(out, count) <==> NoneMistaken(out, note)
    decreases |out|
  {
    if out == [] {
      assert forall q :: !Mistaken(out, note, q);
    } else if |out| > 1 && out[1].annotation {
      NotesReadTail(out, note, count, 2);
      MistakenTail(out, note, 2);
      ReadingIsExact(out[2..], note, count);
      NotedRead(out, note, count);
    } else if Mistaken(out, note, 1) {
      MisreadDiffers(out, note, count);
    } else {
      NotesReadTail(out, note, count, 1);
      MistakenTail(out, note, 1);
      ReadingIsExact(out[1..], note, count);
      OneRead(out, note, count);
    }
  }

  // ----- from text

  predicate CountReads(x: SLine) {
    CountOf(x.raw) == Some(CountIn(x))
  }

  lemma AnnotationCounts(fileCoords: bool, g: seq<SLine>)
    requires g != []
    ensures CountReads(Annotation(fileCoords, g))
  {
    WordingsAreClear();
    NoteIsRead(IDENTICAL, NoteOf(fileCoords, g[0], g[|g| - 1], |g|));
  }

  lemma EmittedNotesRead(fileCoords: bool, gs: seq<seq<SLine>>)
    requires ArePlainRuns(gs)
    ensures NotesRead(EmitAll(fileCoords, gs), CountOf, CountIn)
  {
    forall k | 0 <= k < |gs| ensures CountReads(Annotation(fileCoords, gs[k])) {
      assert IsRun(gs[k]);
      AnnotationCounts(fileCoords, gs[k]);
    }
    EmittedNotesFollowHeads(fileCoords, gs);
    EmittedAnnotations(fileCoords, gs, CountReads);
  }

  lemma PrintedGroups(fileCoords: bool, gs: seq<seq<SLine>>)
    requires ArePlainRuns(gs)
    ensures ReadRuns(Raws(EmitAll(fileCoords, gs)), CountOf) == RunsOf(gs) <==>
              NoneMistaken(EmitAll(fileCoords, gs), CountOf)
  {
    EmittedNotesRead(fileCoords, gs);
    ReadingIsExact(EmitAll(fileCoords, gs), CountOf, CountIn);
    assert forall k :: 0 <= k < |gs| ==> IsRun(gs[k]);
    FlaggedGroups(fileCoords, gs);
  }

  /** The printed lines of a collapsed block give back the first line and the length of every run, and so
      the number of lines, exactly if no line of the input that is shown behind another one reads as a
      note of the pass. */
  lemma PrintedRunsAreExact(fileCoords: bool, xs: seq<SLine>)
    requires NoAnnotations(xs)
    ensures var out := Collapsed(fileCoords, xs);
            ReadRuns(Raws(out), CountOf) == RunsOf(Groups(xs)) <==> NoneMistaken(out, CountOf)
    ensures Total(RunsOf(Groups(xs))) == |xs|
  {
    GroupsArePlainRuns(xs);
    PrintedGroups(fileCoords, Groups(xs));
    RunsTotal(Groups(xs));
  }

  /** The body of the lossless pass, read line by line. */
  lemma BodyIsReadBack(text: string)
    requires Pipeline.LosslessBody(text).Some?
    ensures var runs := RunsOf(Groups(ToSlines(Normalize.NormalizedOf(text), text)));
            (ReadRuns(Split(Pipeline.LosslessBody(text).value, '\n'), CountOf) == runs <==>
              NoneMistaken(Pipeline.OutOf(text), CountOf)) &&
            Total(runs) == |Split(text, '\n')|
  {
    SlinesOfText(text);
    Pipeline.LosslessIsLossless(text);
    PrintedRunsAreExact(Normalize.NormalizedOf(text).fileCoords, ToSlines(Normalize.NormalizedOf(text), text));
  }
}
