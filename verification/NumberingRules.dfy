/** When a line counts as numbered, and when a whole block does, told from the lines. */
module NumberingRules {
  import opened Options
  import opened Text
  import opened Normalize
  import opened Lines
  import Features
  import Pipeline
  import Utf8

  // ----- one line

  /** `a` spaces, then `d` digits, one to eight of them, then a tab, an arrow, a bar or a colon. */
  ghost predicate HasNumber(line: string, a: nat, d: nat) {
    1 <= d <= 8 && a + d < |line| && (forall k :: 0 <= k < a ==> line[k] == ' ') &&
    (forall k :: a <= k < a + d ==> '0' <= line[k] <= '9') && Separates(line[a + d])
  }

  predicate Separates(c: char) {
    c == '\t' || c == '→' || c == '|' || c == ':'
  }

  /** The number that stands there, its separator, and where the rest of the line begins. */
  function NumberAt(line: string, a: nat, d: nat): Numbering
    requires a + d < |line| && AllDigits(line[a..a + d])
  {
    Numbering(DecValue(line[a..a + d]), line[a + d], a + d + 1)
  }

  lemma {:induction false} NumberIsFound(line: string, a: nat, d: nat)
    requires HasNumber(line, a, d)
    ensures AllDigits(line[a..a + d]) && NumberedPrefix(line) == Some(NumberAt(line, a, d))
  {
    DigitsFound(line, a, d);
  }

  lemma {:induction false} DigitsFound(line: string, a: nat, d: nat)
    requires HasNumber(line, a, d)
    ensures Span(line, IsPad) == a && Span(line[a..], IsDigit) == d
  {
    SpanUpTo(line, IsPad, a);
    assert forall k :: 0 <= k < d ==> line[a..][k] == line[a + k];
    assert line[a..][d] == line[a + d];
    SpanUpTo(line[a..], IsDigit, d);
  }

  /** A line is numbered exactly if it begins like that; there is only one way to read it. */
  lemma {:induction false} PrefixIsExact(line: string)
    ensures NumberedPrefix(line).Some? <==> exists a: nat, d: nat :: HasNumber(line, a, d)
    ensures forall a: nat, d: nat :: HasNumber(line, a, d) ==>
              AllDigits(line[a..a + d]) && NumberedPrefix(line) == Some(NumberAt(line, a, d))
  {
    if NumberedPrefix(line).Some? {
      var a := Span(line, IsPad);
      var d := Span(line[a..], IsDigit);
      SpanHolds(line, IsPad);
      SpanHolds(line[a..], IsDigit);
      assert forall k :: a <= k < a + d ==> line[k] == line[a..][k - a];
      assert HasNumber(line, a, d);
    }
    forall a: nat, d: nat | HasNumber(line, a, d)
      ensures AllDigits(line[a..a + d]) && NumberedPrefix(line) == Some(NumberAt(line, a, d))
    {
      NumberIsFound(line, a, d);
    }
  }

  // ----- the block

  ghost predicate SeenAt(lines: seq<string>, i: int) {
    0 <= i < |lines| && Trim(lines[i]) != ""
  }

  ghost predicate NumberedAt(lines: seq<string>, i: int) {
    SeenAt(lines, i) && NumberedPrefix(lines[i]).Some?
  }

  ghost function SeenLines(lines: seq<string>): set<int> {
    set i | 0 <= i < |lines| && SeenAt(lines, i)
  }

  ghost function NumberedOnes(lines: seq<string>): set<int> {
    set i | 0 <= i < |lines| && NumberedAt(lines, i)
  }

  /** Five lines or more can be seen, at least 80 percent of them are numbered, all with this separator,
      and their numbers grow. */
  ghost predicate CountsAsNumbered(lines: seq<string>, sep: char) {
    |SeenLines(lines)| >= 5 && 10 * |NumberedOnes(lines)| >= 8 * |SeenLines(lines)| &&
    (forall i :: NumberedAt(lines, i) ==> NumberedPrefix(lines[i]).value.sep == sep) &&
    forall i, j :: NumberedAt(lines, i) && NumberedAt(lines, j) && i < j ==>
      NumberedPrefix(lines[i]).value.number < NumberedPrefix(lines[j]).value.number
  }

  /** Where the numberings found come from. */
  function FoundAt(parsed: seq<Option<Numbering>>): seq<nat> {
    if parsed == [] then []
    else
      var n := |parsed| - 1;
      FoundAt(parsed[..n]) + if parsed[n].Some? then [n] else []
  }

  lemma {:induction false} FoundComesFrom(parsed: seq<Option<Numbering>>)
    ensures |FoundAt(parsed)| == |Found(parsed)|
    ensures forall m :: 0 <= m < |FoundAt(parsed)| ==>
              FoundAt(parsed)[m] < |parsed| && parsed[FoundAt(parsed)[m]] == Some(Found(parsed)[m])
  {
    if parsed != [] {
      FoundComesFrom(parsed[..|parsed| - 1]);
    }
  }

  lemma {:induction false} FoundAtGrows(parsed: seq<Option<Numbering>>)
    ensures forall m :: 0 <= m < |FoundAt(parsed)| ==> FoundAt(parsed)[m] < |parsed|
    ensures forall l, m :: 0 <= l < m < |FoundAt(parsed)| ==> FoundAt(parsed)[l] < FoundAt(parsed)[m]
  {
    if parsed != [] {
      FoundAtGrows(parsed[..|parsed| - 1]);
    }
  }

  lemma {:induction false} FoundHasAll(parsed: seq<Option<Numbering>>, i: nat)
    requires i < |parsed| && parsed[i].Some?
    ensures i in FoundAt(parsed)
  {
    var n := |parsed| - 1;
    if i < n {
      FoundHasAll(parsed[..n], i);
    }
  }

  lemma {:induction false} DistinctCount(at: seq<nat>, s: set<int>)
    requires forall l, m :: 0 <= l < m < |at| ==> at[l] < at[m]
    requires forall i :: i in s <==> exists m :: 0 <= m < |at| && at[m] == i
    ensures |at| == |s|
    decreases |at|
  {
    if at == [] {
      forall i ensures i !in s {
      }
      assert s == {};
    } else {
      var n := |at| - 1;
      var less := s - {at[n] as int};
      forall i ensures i in less <==> exists m :: 0 <= m < n && at[..n][m] == i {
        if i in less {
          var m :| 0 <= m < |at| && at[m] == i;
          assert at[..n][m] == i;
        }
        if m :| 0 <= m < n && at[..n][m] == i {
          assert at[m] == i;
        }
      }
      DistinctCount(at[..n], less);
      assert at[n] == at[n];
    }
  }

  lemma {:induction false} ParsedMeans(lines: seq<string>, i: nat)
    requires i < |lines|
    ensures ParsedLines(lines)[i].Some? <==> NumberedAt(lines, i)
    ensures NumberedAt(lines, i) ==> ParsedLines(lines)[i] == NumberedPrefix(lines[i])
  {
  }

  lemma {:induction false} NumberedCount(lines: seq<string>)
    ensures |Found(ParsedLines(lines))| == |NumberedOnes(lines)|
  {
    var parsed := ParsedLines(lines);
    FoundComesFrom(parsed);
    FoundAtGrows(parsed);
    forall i ensures i in NumberedOnes(lines) <==> exists m :: 0 <= m < |FoundAt(parsed)| && FoundAt(parsed)[m] == i {
      if i in NumberedOnes(lines) {
        ParsedMeans(lines, i);
        FoundHasAll(parsed, i);
      }
      if m :| 0 <= m < |FoundAt(parsed)| && FoundAt(parsed)[m] == i {
        ParsedMeans(lines, i);
      }
    }
    DistinctCount(FoundAt(parsed), NumberedOnes(lines));
  }

  lemma {:induction false} SeenCount(lines: seq<string>)
    ensures CountNonblank(lines) == |SeenLines(lines)|
  {
    if lines == [] {
      assert SeenLines(lines) == {};
    } else {
      var n := |lines| - 1;
      SeenCount(lines[..n]);
      SeenStep(lines);
    }
  }

  lemma {:induction false} SeenStep(lines: seq<string>)
    requires lines != []
    ensures var n := |lines| - 1;
            |SeenLines(lines)| == |SeenLines(lines[..n])| + if Trim(lines[n]) != "" then 1 else 0
  {
    var n := |lines| - 1;
    var before := SeenLines(lines[..n]);
    forall i ensures i in SeenLines(lines) <==> i in before || (i == n && Trim(lines[n]) != "") {
      if 0 <= i < n {
        assert lines[..n][i] == lines[i];
      }
    }
    if Trim(lines[n]) != "" {
      assert SeenLines(lines) == before + {n};
    } else {
      assert SeenLines(lines) == before;
    }
  }

  lemma {:induction false} SeparatorsMean(lines: seq<string>, sep: char)
    ensures SameSeparator(Found(ParsedLines(lines)), sep) <==>
              forall i :: NumberedAt(lines, i) ==> NumberedPrefix(lines[i]).value.sep == sep
  {
    var parsed := ParsedLines(lines);
    var found, at := Found(parsed), FoundAt(parsed);
    FoundComesFrom(parsed);
    if SameSeparator(found, sep) {
      forall i | NumberedAt(lines, i) ensures NumberedPrefix(lines[i]).value.sep == sep {
        ParsedMeans(lines, i);
        FoundHasAll(parsed, i);
        var m :| 0 <= m < |at| && at[m] == i;
        assert found[m].sep == sep;
      }
    }
    if forall i :: NumberedAt(lines, i) ==> NumberedPrefix(lines[i]).value.sep == sep {
      forall m | 0 <= m < |found| ensures found[m].sep == sep {
        ParsedMeans(lines, at[m]);
        assert NumberedAt(lines, at[m]);
      }
    }
  }

  lemma {:induction false} GrowthMeans(lines: seq<string>)
    ensures Increasing(Found(ParsedLines(lines))) <==>
              forall i, j :: NumberedAt(lines, i) && NumberedAt(lines, j) && i < j ==>
                NumberedPrefix(lines[i]).value.number < NumberedPrefix(lines[j]).value.number
  {
    var parsed := ParsedLines(lines);
    var found, at := Found(parsed), FoundAt(parsed);
    FoundComesFrom(parsed);
    FoundAtGrows(parsed);
    if Increasing(found) {
      forall i, j | NumberedAt(lines, i) && NumberedAt(lines, j) && i < j
        ensures NumberedPrefix(lines[i]).value.number < NumberedPrefix(lines[j]).value.number
      {
        ParsedMeans(lines, i);
        ParsedMeans(lines, j);
        FoundKeepsOrder(parsed, i, j);
      }
    }
    if forall i, j :: NumberedAt(lines, i) && NumberedAt(lines, j) && i < j ==>
         NumberedPrefix(lines[i]).value.number < NumberedPrefix(lines[j]).value.number {
      forall m | 0 <= m < |found| - 1 ensures found[m].number < found[m + 1].number {
        ParsedMeans(lines, at[m]);
        ParsedMeans(lines, at[m + 1]);
        assert NumberedAt(lines, at[m]) && NumberedAt(lines, at[m + 1]) && at[m] < at[m + 1];
      }
    }
  }

  /** A block counts as numbered with a separator exactly by these rules. */
  lemma {:induction false} SchemeIsExact(lines: seq<string>, sep: char)
    ensures SchemeOf(lines) == Some(sep) <==> CountsAsNumbered(lines, sep)
  {
    var found := Found(ParsedLines(lines));
    NumberedCount(lines);
    SeenCount(lines);
    GrowthMeans(lines);
    if found != [] {
      SeparatorsMean(lines, found[0].sep);
    }
    SeparatorsMean(lines, sep);
  }

  /** The numbers are line numbers of a file unless a colon stands behind them. */
  lemma {:induction false} FileCoordsMean(text: string)
    ensures var cleaned := CleanedLines(Split(text, '\n'));
            (NormalizedOf(text).hadNumbering <==> IsNumbered(cleaned)) &&
            (NormalizedOf(text).fileCoords <==> IsFileNumbered(cleaned))
  {
    var cleaned := CleanedLines(Split(text, '\n'));
    SchemesMean(cleaned);
    CoordsOf(text, cleaned);
  }

  lemma {:induction false} CoordsOf(text: string, cleaned: seq<string>)
    requires cleaned == CleanedLines(Split(text, '\n'))
    ensures NormalizedOf(text).hadNumbering == SchemeOf(cleaned).Some?
    ensures NormalizedOf(text).fileCoords == (SchemeOf(cleaned).Some? && Trusted(SchemeOf(cleaned).value))
  {
  }

  ghost predicate IsNumbered(lines: seq<string>) {
    exists sep :: CountsAsNumbered(lines, sep)
  }

  ghost predicate IsFileNumbered(lines: seq<string>) {
    exists sep :: CountsAsNumbered(lines, sep) && sep != ':'
  }

  lemma {:induction false} SchemesMean(lines: seq<string>)
    ensures SchemeOf(lines).Some? <==> IsNumbered(lines)
    ensures SchemeOf(lines).Some? && Trusted(SchemeOf(lines).value) <==> IsFileNumbered(lines)
  {
    if SchemeOf(lines).Some? {
      var sep := SchemeOf(lines).value;
      SchemeIsExact(lines, sep);
      assert CountsAsNumbered(lines, sep);
      SchemeSeparates(lines, sep);
    }
    if sep :| CountsAsNumbered(lines, sep) {
      SchemeIsExact(lines, sep);
    }
    if sep :| CountsAsNumbered(lines, sep) && sep != ':' {
      SchemeIsExact(lines, sep);
    }
  }

  lemma {:induction false} SchemeSeparates(lines: seq<string>, sep: char)
    requires SchemeOf(lines) == Some(sep)
    ensures Separates(sep)
  {
    var parsed := ParsedLines(lines);
    FoundComesFrom(parsed);
    ParsedMeans(lines, FoundAt(parsed)[0]);
  }

  // ----- carriage returns and indents

  function WithReturns(lines: seq<string>): seq<string> {
    seq(|lines|, i requires 0 <= i < |lines| => lines[i] + "\r")
  }

  /** A carriage return at the end of every line makes no difference to the lines and their numbers. */
  lemma {:induction false} ReturnsAreDropped(lines: seq<string>)
    requires lines != []
    requires forall i :: 0 <= i < |lines| ==> '\n' !in lines[i] && (lines[i] == "" || lines[i][|lines[i]| - 1] != '\r')
    ensures var a, b := NormalizedOf(Join(WithReturns(lines), "\n")), NormalizedOf(Join(lines, "\n"));
            a.lines == b.lines && a.fileCoords == b.fileCoords && a.hadNumbering == b.hadNumbering
  {
    forall i | 0 <= i < |lines|
      ensures Cleaned(WithReturns(lines)[i]) == Cleaned(lines[i]) && '\n' !in WithReturns(lines)[i]
    {
      assert (lines[i] + "\r")[..|lines[i]|] == lines[i];
    }
    SplitJoin(lines, '\n');
    SplitJoin(WithReturns(lines), '\n');
    assert CleanedLines(WithReturns(lines)) == CleanedLines(lines);
  }

  lemma {:induction false} TrimStartDrops(w: string, t: string)
    requires (forall i :: 0 <= i < |w| ==> IsSpace(w[i])) && (t == "" || !IsSpace(t[0]))
    ensures TrimStart(w + t) == t
  {
    if w == "" {
      assert w + t == t;
    } else {
      assert (w + t)[1..] == w[1..] + t;
      TrimStartDrops(w[1..], t);
    }
  }

  /** The indent of a line is the number of bytes of the white space in front of it, up to 400. */
  lemma {:induction false} IndentIs(w: string, t: string)
    requires (forall i :: 0 <= i < |w| ==> IsSpace(w[i])) && (t == "" || !IsSpace(t[0]))
    ensures Features.IndentOf(w + t) == if Utf8.Size(w) <= 400 then Utf8.Size(w) else 400
  {
    TrimStartDrops(w, t);
    assert (w + t)[..|w|] == w;
  }

  // ----- numbered listings as lines

  /** The normal form has these lines, numbered from `start` on. */
  ghost predicate NormalIs(norm: Normalized, lines: seq<string>, start: nat) {
    |norm.lines| == |lines| && forall i :: 0 <= i < |lines| ==> norm.lines[i] == NLine(lines[i], Some(start + i))
  }

  lemma {:induction false} ListingNormal(lines: seq<string>, pads: seq<nat>, start: nat, sep: char, text: string)
    requires |pads| == |lines| >= 5 && start + |lines| <= Pow10(MAX_DIGITS) && Trusted(sep)
    requires forall k :: 0 <= k < |lines| ==> PlainLine(lines[k])
    requires text == Join(NumberedListing(lines, pads, start, sep), "\n")
    ensures NormalIs(NormalizedOf(text), lines, start)
  {
    NumberingRoundTrip(lines, pads, start, sep);
  }

  /** A line as it is compared and measured: by its content, beside its number. */
  ghost predicate IsListed(x: SLine, line: string, number: nat) {
    x.key == Trim(line) && x.indent == Features.IndentOf(line) && (x.blank <==> Trim(line) == "") &&
    x.coord == Some(number) && !x.annotation
  }

  /** These are the lines, numbered from `start` on. */
  ghost predicate Lists(xs: seq<SLine>, lines: seq<string>, start: nat) {
    |xs| == |lines| && forall i :: 0 <= i < |lines| ==> IsListed(xs[i], lines[i], start + i)
  }

  lemma {:induction false} ZippedLists(ns: seq<NLine>, raws: seq<string>, lines: seq<string>, start: nat)
    requires |ns| == |lines| == |raws|
    requires forall i :: 0 <= i < |lines| ==> ns[i] == NLine(lines[i], Some(start + i))
    ensures Lists(Zipped(ns, raws), lines, start)
  {
  }

  /** The lines of a numbered listing are compared and measured without their numbers. */
  lemma {:induction false} ListingLists(lines: seq<string>, pads: seq<nat>, start: nat, sep: char, text: string)
    requires |pads| == |lines| >= 5 && start + |lines| <= Pow10(MAX_DIGITS) && Trusted(sep)
    requires forall k :: 0 <= k < |lines| ==> PlainLine(lines[k])
    requires text == Join(NumberedListing(lines, pads, start, sep), "\n")
    ensures Lists(ToSlines(NormalizedOf(text), text), lines, start)
  {
    ListingNormal(lines, pads, start, sep, text);
    LineCountIsKept(text);
    ZippedLists(NormalizedOf(text).lines, Split(text, '\n'), lines, start);
  }

  /** Lines of a listing that differ in their numbers only still collapse. */
  lemma {:induction false} NumberedRepeatsCollapse(lines: seq<string>, start: nat, text: string, i: nat)
    requires Lists(ToSlines(NormalizedOf(text), text), lines, start) && i + 2 < |lines|
    requires Trim(lines[i]) == Trim(lines[i + 1]) == Trim(lines[i + 2]) != ""
    ensures Pipeline.LosslessBody(text).Some?
  {
    ListedTriple(ToSlines(NormalizedOf(text), text), lines, start, i);
    Pipeline.LosslessDeclines(text);
  }

  lemma {:induction false} ListedTriple(xs: seq<SLine>, lines: seq<string>, start: nat, i: nat)
    requires Lists(xs, lines, start) && i + 2 < |lines|
    requires Trim(lines[i]) == Trim(lines[i + 1]) == Trim(lines[i + 2]) != ""
    ensures i + 2 < |xs| && Pipeline.IsTriple(xs, i)
  {
    assert IsListed(xs[i], lines[i], start + i);
    assert IsListed(xs[i + 1], lines[i + 1], start + (i + 1));
    assert IsListed(xs[i + 2], lines[i + 2], start + (i + 2));
  }
}
