/** Lines that normalising leaves alone, for texts given as examples. */
module PlainText {
  import opened Options
  import opened Text
  import opened Lines
  import Ansi
  import Normalize

  /** One line with something to see, white space at neither end, no escape and no digit in front. */
  predicate IsBare(t: string) {
    t != "" && !IsSpace(t[0]) && !IsDigit(t[0]) && !IsSpace(t[|t| - 1]) && '\n' !in t && Ansi.ESC !in t
  }

  ghost predicate AreBare(ts: seq<string>) {
    forall i :: 0 <= i < |ts| ==> IsBare(ts[i])
  }

  function BareLine(t: string): SLine {
    SLine(t, t, 0, false, None, false)
  }

  function BareLines(ts: seq<string>): seq<SLine> {
    seq(|ts|, i requires 0 <= i < |ts| => BareLine(ts[i]))
  }

  /** As they come out of the normaliser. */
  function NLines(ts: seq<string>): seq<Normalize.NLine> {
    seq(|ts|, i requires 0 <= i < |ts| => Normalize.NLine(ts[i], None))
  }

  function Triple(t: string): seq<SLine> {
    [BareLine(t), BareLine(t), BareLine(t)]
  }

  lemma BareIsClean(t: string)
    requires IsBare(t)
    ensures Normalize.Cleaned(t) == t && Trim(t) == t && '\n' !in t && StripCr(t) == t && TrimStart(t) == t
  {
    Ansi.StripWithoutEscapes(t);
    TrimOfTight(t);
  }

  lemma BareIsNotNumbered(t: string)
    requires IsBare(t)
    ensures Normalize.ParsedLine(t).None?
  {
    BareIsClean(t);
    Normalize.SpanUpTo(t, Normalize.IsPad, 0);
    assert t[0..] == t;
    Normalize.SpanUpTo(t, IsDigit, 0);
  }

  lemma {:induction false} NothingFound(parsed: seq<Option<Normalize.Numbering>>)
    requires forall i :: 0 <= i < |parsed| ==> parsed[i].None?
    ensures Normalize.Found(parsed) == []
  {
    if parsed != [] {
      NothingFound(parsed[..|parsed| - 1]);
    }
  }

  lemma BareHaveNoScheme(ts: seq<string>)
    requires AreBare(ts)
    ensures Normalize.SchemeOf(ts).None?
  {
    forall i | 0 <= i < |ts| ensures Normalize.ParsedLines(ts)[i].None? {
      BareIsNotNumbered(ts[i]);
    }
    NothingFound(Normalize.ParsedLines(ts));
  }

  lemma LineOfBare(t: string)
    requires IsBare(t)
    ensures LineOf(Normalize.NLine(t, None), t) == BareLine(t)
  {
    BareIsClean(t);
    assert t[..0] == "";
  }

  /** A text of bare lines is the lines it looks like. */
  lemma LinesOfBare(ts: seq<string>)
    requires ts != [] && AreBare(ts)
    ensures var text := Join(ts, "\n");
            var norm := Normalize.NormalizedOf(text);
            Split(text, '\n') == ts && !norm.fileCoords && ToSlines(norm, text) == BareLines(ts) &&
            norm.lines == NLines(ts)
  {
    var text := Join(ts, "\n");
    forall i | 0 <= i < |ts| ensures '\n' !in ts[i] && Normalize.Cleaned(ts[i]) == ts[i] {
      assert IsBare(ts[i]);
      BareIsClean(ts[i]);
    }
    SplitJoin(ts, '\n');
    assert Normalize.CleanedLines(ts) == ts;
    BareHaveNoScheme(ts);
    ZippedBare(ts);
  }

  lemma ZippedBare(ts: seq<string>)
    requires AreBare(ts) && Normalize.SchemeOf(ts).None?
    ensures Normalize.NumberedLines(ts) == NLines(ts)
    ensures Zipped(Normalize.NumberedLines(ts), ts) == BareLines(ts)
  {
    forall i | 0 <= i < |ts| ensures LineOf(Normalize.NumberedLines(ts)[i], ts[i]) == BareLine(ts[i]) {
      assert IsBare(ts[i]);
      LineOfBare(ts[i]);
    }
  }
}
