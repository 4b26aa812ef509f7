/** The blank-line squeezer: runs of blank lines become one, trailing white space goes. */
module SqueezeBlank {
  import opened Text

  /** `str::lines`: pieces ended by a newline, the last one optionally; a carriage return in
      front of a newline belongs to the line end. */
  function Lines(text: string): seq<string> {
    var parts := Split(text, '\n');
    var last := parts[|parts| - 1];
    seq(|parts| - 1, i requires 0 <= i < |parts| - 1 => StripCr(parts[i]))
    + (if last == "" then [] else [last])
  }

  /** Every line ended by a newline. */
  function Unlines(lines: seq<string>): string {
    if lines == [] then "" else lines[0] + "\n" + Unlines(lines[1..])
  }

  /** What one right-trimmed line adds: nothing if blank, else itself behind the blank line owed. */
  function Emitted(trimmed: string, pending: bool): seq<string> {
    if trimmed == "" then [] else if pending then ["", trimmed] else [trimmed]
  }

  /** Lines after squeezing; `pending` says whether a blank line is owed. */
  function Squeezed(lines: seq<string>, pending: bool): seq<string> {
    if lines == [] then []
    else
      var t := TrimEnd(lines[0]);
      Emitted(t, pending) + Squeezed(lines[1..], t == "")
  }

  function Squeeze(text: string): string {
    Unlines(Squeezed(Lines(text), false))
  }

  lemma {:induction false} UnlinesAppend(a: seq<string>, b: seq<string>)
    ensures Unlines(a + b) == Unlines(a) + Unlines(b)
  {
    if a == [] {
      assert a + b == b;
    } else {
      assert (a + b)[1..] == a[1..] + b;
      UnlinesAppend(a[1..], b);
    }
  }

  lemma UnlinesOfEmitted(t: string, pending: bool)
    ensures Unlines(Emitted(t, pending)) == if t == "" then "" else (if pending then "\n" else "") + t + "\n"
  {
    assert [t][1..] == [] && ["", t][1..] == [t];
    assert Unlines([t]) == t + "\n";
    assert Unlines(["", t]) == "\n" + (t + "\n");
  }

  /** One iteration of the filter's loop. */
  lemma SqueezeOneLine(lines: seq<string>, i: nat, pending: bool)
    requires i < |lines|
    ensures var t := TrimEnd(lines[i]);
            Unlines(Squeezed(lines[i..], pending)) ==
            Unlines(Emitted(t, pending)) + Unlines(Squeezed(lines[i + 1..], t == ""))
  {
    var t := TrimEnd(lines[i]);
    assert lines[i..][1..] == lines[i + 1..];
    UnlinesAppend(Emitted(t, pending), Squeezed(lines[i + 1..], t == ""));
  }

  lemma AppendInFront(out: string, more: string, rest: string, rest': string, whole: string)
    requires out + rest == whole && rest == more + rest'
    ensures out + more + rest' == whole
  {
    assert out + more + rest' == out + (more + rest');
  }

  /** One pass through the loop body. */
  method Step(out0: string, pendingBlanks0: nat, trimmed: string) returns (out: string, pendingBlanks: nat)
    ensures out == out0 + Unlines(Emitted(trimmed, pendingBlanks0 > 0))
    ensures pendingBlanks > 0 <==> trimmed == ""
  {
    out, pendingBlanks := out0, pendingBlanks0;
    UnlinesOfEmitted(trimmed, pendingBlanks > 0);
    if trimmed == "" {
      pendingBlanks := pendingBlanks + 1;
      return;
    }
    if pendingBlanks > 0 {
      out := out + "\n";
      pendingBlanks := 0;
    }
    out := out + trimmed;
    out := out + "\n";
  }

  /** The filter itself. */
  method Apply(text: string) returns (out: string)
    ensures out == Squeeze(text)
  {
    var lines := Lines(text);
    out := "";
    var pendingBlanks := 0;
    ghost var whole := Unlines(Squeezed(lines, false));
    assert lines[0..] == lines;
    for i := 0 to |lines|
      invariant out + Unlines(Squeezed(lines[i..], pendingBlanks > 0)) == whole
    {
      var trimmed := TrimEnd(lines[i]);
      SqueezeOneLine(lines, i, pendingBlanks > 0);
      AppendInFront(out, Unlines(Emitted(trimmed, pendingBlanks > 0)), Unlines(Squeezed(lines[i..], pendingBlanks > 0)),
        Unlines(Squeezed(lines[i + 1..], trimmed == "")), whole);
      out, pendingBlanks := Step(out, pendingBlanks, trimmed);
    }
    assert lines[|lines|..] == [];
  }

  // ----- what squeezing promises

  /** A line as the squeezer leaves it. */
  predicate CleanLine(line: string) {
    '\n' !in line && (line == "" || !IsSpace(line[|line| - 1]))
  }

  predicate NoDoubleBlank(lines: seq<string>) {
    forall i :: 0 <= i < |lines| - 1 ==> lines[i] != "" || lines[i + 1] != ""
  }

  predicate Tidy(lines: seq<string>) {
    (forall i :: 0 <= i < |lines| ==> CleanLine(lines[i])) &&
    NoDoubleBlank(lines) && (lines != [] ==> lines[|lines| - 1] != "")
  }

  /** The right-trimmed non-blank lines, in order. */
  function Content(lines: seq<string>): seq<string> {
    if lines == [] then []
    else (if TrimEnd(lines[0]) == "" then [] else [TrimEnd(lines[0])]) + Content(lines[1..])
  }

  lemma {:induction false} ContentAppend(a: seq<string>, b: seq<string>)
    ensures Content(a + b) == Content(a) + Content(b)
  {
    if a == [] {
      assert a + b == b;
    } else {
      assert (a + b)[1..] == a[1..] + b;
      ContentAppend(a[1..], b);
    }
  }

  lemma {:induction false} SqueezedIsTidy(lines: seq<string>, pending: bool)
    requires forall i :: 0 <= i < |lines| ==> '\n' !in lines[i]
    ensures Tidy(Squeezed(lines, pending))
  {
    if lines != [] {
      var t := TrimEnd(lines[0]);
      TrimEndIs(lines[0]);
      SqueezedIsTidy(lines[1..], t == "");
      EmittedInFront(t, pending, Squeezed(lines[1..], t == ""));
    }
  }

  /** A blank line put out has its line behind it, so it never meets another. */
  lemma EmittedInFront(t: string, pending: bool, rest: seq<string>)
    requires CleanLine(t) && Tidy(rest)
    ensures Tidy(Emitted(t, pending) + rest)
  {
  }

  lemma {:induction false} SqueezedKeepsContent(lines: seq<string>, pending: bool)
    ensures Content(Squeezed(lines, pending)) == Content(lines)
  {
    if lines != [] {
      var t := TrimEnd(lines[0]);
      TrimEndIs(lines[0]);
      SqueezedKeepsContent(lines[1..], t == "");
      ContentAppend(Emitted(t, pending), Squeezed(lines[1..], t == ""));
      assert [t][1..] == [] && ["", t][1..] == [t];
    }
  }

  /** Tidy lines have nothing left to squeeze; a blank one waits for the line behind it. */
  lemma {:induction false} SqueezedOfTidy(lines: seq<string>)
    requires Tidy(lines)
    ensures Squeezed(lines, false) == lines
    ensures lines != [] && lines[0] != "" ==> Squeezed(lines, true) == [""] + lines
  {
    if lines != [] {
      assert Tidy(lines[1..]) by {
        assert forall i :: 0 <= i < |lines[1..]| ==> lines[1..][i] == lines[i + 1];
      }
      SqueezedOfTidy(lines[1..]);
      if lines[0] == "" {
        assert lines[1] != "";
        assert lines == [""] + lines[1..];
      }
    }
  }

  lemma {:induction false} LinesOfUnlines(lines: seq<string>)
    requires forall i :: 0 <= i < |lines| ==> CleanLine(lines[i])
    ensures Lines(Unlines(lines)) == lines
  {
    SplitOfUnlines(lines);
    var parts := Split(Unlines(lines), '\n');
    assert forall i :: 0 <= i < |lines| ==> StripCr(parts[i]) == lines[i];
  }

  lemma {:induction false} SplitOfUnlines(lines: seq<string>)
    requires forall i :: 0 <= i < |lines| ==> CleanLine(lines[i])
    ensures Split(Unlines(lines), '\n') == lines + [""]
  {
    if lines != [] {
      SplitAtSeparator(lines[0], '\n', Unlines(lines[1..]));
      SplitOfUnlines(lines[1..]);
    }
  }

  lemma LinesHaveNoNewline(text: string)
    ensures forall i :: 0 <= i < |Lines(text)| ==> '\n' !in Lines(text)[i]
  {
  }

  /** The lines of the result: tidy, with the same content as the lines of the input. */
  lemma SqueezeResult(text: string)
    ensures Tidy(Lines(Squeeze(text)))
    ensures Content(Lines(Squeeze(text))) == Content(Lines(text))
  {
    var lines := Lines(text);
    LinesHaveNoNewline(text);
    SqueezedIsTidy(lines, false);
    SqueezedKeepsContent(lines, false);
    LinesOfUnlines(Squeezed(lines, false));
  }

  lemma SqueezeIsIdempotent(text: string)
    ensures Squeeze(Squeeze(text)) == Squeeze(text)
  {
    var lines := Lines(text);
    LinesHaveNoNewline(text);
    SqueezedIsTidy(lines, false);
    LinesOfUnlines(Squeezed(lines, false));
    SqueezedOfTidy(Squeezed(lines, false));
  }
}
