/** Lines as the compression strategies see them, and the notes that stand for lines left out. */
module Lines {
  import opened Numbers
  import opened Options
  import opened Text
  import Normalize
  import Features

  /** `key` is the trimmed normalised content; `coord` the stripped line number, if any. */
  datatype SLine = SLine(raw: string, key: string, indent: nat, blank: bool, coord: Option<nat>, annotation: bool)

  datatype Range = Range(first: nat, last: nat)

  /** What a note says: how many lines, and where they were. */
  datatype Note = Note(count: nat, range: Option<Range>)

  /** The wording around the numbers of a note. */
  datatype Wording = Wording(before: string, what: string, lines: string, dash: string, close: string, end: string)

  const ELIDED: Wording := Wording("[… ", " lines elided", " (lines ", "–", ") …]", " …]")
  const IDENTICAL: Wording := Wording("[… ×", " identical lines", " (lines ", "–", ") …]", " …]")

  /** The range of a note: only with file coordinates, and only when both ends carry one. */
  function RangeOf(fileCoords: bool, first: SLine, last: SLine): Option<Range> {
    match (fileCoords, first.coord, last.coord)
    case (true, Some(a), Some(b)) => Some(Range(a, b))
    case _ => None
  }

  function NoteOf(fileCoords: bool, first: SLine, last: SLine, n: nat): Note {
    Note(n, RangeOf(fileCoords, first, last))
  }

  function RangeText(w: Wording, range: Option<Range>): string {
    match range
    case Some(r) => w.lines + (Dec(r.first) + (w.dash + (Dec(r.last) + w.close)))
    case None => w.end
  }

  function NoteText(w: Wording, note: Note): string {
    w.before + (Dec(note.count) + (w.what + RangeText(w, note.range)))
  }

  /** The compact form for the decision log. */
  function RangeKey(note: Note): string {
    match note.range
    case Some(r) => Dec(r.first) + "-" + Dec(r.last)
    case None => "×" + Dec(note.count)
  }

  // ----- reading a note back

  function StripPrefix(t: string, p: string): Option<string> {
    if p <= t then Some(t[|p|..]) else None
  }

  /** A decimal number and what follows it. */
  function ReadNumber(t: string): Option<(nat, string)> {
    var n := Span(t, IsDigit);
    SpanHolds(t, IsDigit);
    if n == 0 then None else Some((DecValue(t[..n]), t[n..]))
  }

  function ReadLast(w: Wording, a: nat, t: string): Option<Range> {
    match ReadNumber(t)
    case Some((b, rest)) => if rest == w.close then Some(Range(a, b)) else None
    case None => None
  }

  function ReadSpan(w: Wording, t: string): Option<Range> {
    match ReadNumber(t)
    case None => None
    case Some((a, t2)) => match StripPrefix(t2, w.dash)
      case Some(t3) => ReadLast(w, a, t3)
      case None => None
  }

  function ReadRange(w: Wording, t: string): Option<Option<Range>> {
    if t == w.end then Some(None)
    else match StripPrefix(t, w.lines)
      case None => None
      case Some(t1) => match ReadSpan(w, t1)
        case Some(range) => Some(Some(range))
        case None => None
  }

  function ReadNote(w: Wording, t: string): Option<Note> {
    match StripPrefix(t, w.before)
    case None => None
    case Some(t1) => match ReadNumber(t1)
      case None => None
      case Some((n, t2)) => match StripPrefix(t2, w.what)
        case None => None
        case Some(t3) => match ReadRange(w, t3)
          case None => None
          case Some(range) => Some(Note(n, range))
  }

  /** The wording keeps numbers apart from what follows them. */
  predicate Clear(w: Wording) {
    w.what != "" && !IsDigit(w.what[0]) && w.dash != "" && !IsDigit(w.dash[0]) &&
    w.close != "" && !IsDigit(w.close[0]) && w.lines != "" && w.end != "" && |w.lines| > 1 && |w.end| > 1 &&
    w.lines[1] != w.end[1]
  }

  lemma WordingsAreClear()
    ensures Clear(ELIDED) && Clear(IDENTICAL)
  {
  }

  lemma NumberIsRead(n: nat, rest: string)
    requires rest == "" || !IsDigit(rest[0])
    ensures ReadNumber(Dec(n) + rest) == Some((n, rest))
  {
    SpanIs(Dec(n), rest, IsDigit);
    var t := Dec(n) + rest;
    assert t[..|Dec(n)|] == Dec(n) && t[|Dec(n)|..] == rest;
  }

  lemma PrefixIsStripped(p: string, rest: string)
    ensures StripPrefix(p + rest, p) == Some(rest)
  {
  }

  lemma RangeIsRead(w: Wording, range: Option<Range>)
    requires Clear(w)
    ensures ReadRange(w, RangeText(w, range)) == Some(range)
  {
    if range.Some? {
      var r := range.value;
      var t1 := Dec(r.first) + (w.dash + (Dec(r.last) + w.close));
      SpanIsRead(w, r.first, r.last);
      PrefixIsStripped(w.lines, t1);
      assert (w.lines + t1)[1] == w.lines[1];
    }
  }

  lemma LastIsRead(w: Wording, a: nat, b: nat)
    requires Clear(w)
    ensures ReadLast(w, a, Dec(b) + w.close) == Some(Range(a, b))
  {
    NumberIsRead(b, w.close);
  }

  lemma SpanIsRead(w: Wording, a: nat, b: nat)
    requires Clear(w)
    ensures ReadSpan(w, Dec(a) + (w.dash + (Dec(b) + w.close))) == Some(Range(a, b))
  {
    var t3 := Dec(b) + w.close;
    LastIsRead(w, a, b);
    PrefixIsStripped(w.dash, t3);
    NumberIsRead(a, w.dash + t3);
  }

  /** The reader of a note gets exactly what the writer counted. */
  lemma NoteIsRead(w: Wording, note: Note)
    requires Clear(w)
    ensures ReadNote(w, NoteText(w, note)) == Some(note)
  {
    var t3 := RangeText(w, note.range);
    var t2 := w.what + t3;
    var t1 := Dec(note.count) + t2;
    RangeIsRead(w, note.range);
    PrefixIsStripped(w.what, t3);
    NumberIsRead(note.count, t2);
    PrefixIsStripped(w.before, t1);
  }

  predicate OneLine(w: Wording) {
    '\n' !in w.before && '\n' !in w.what && '\n' !in w.lines && '\n' !in w.dash && '\n' !in w.close && '\n' !in w.end
  }

  lemma WordingsAreOneLine()
    ensures OneLine(ELIDED) && OneLine(IDENTICAL)
  {
  }

  lemma NoteIsOneLine(w: Wording, note: Note)
    requires OneLine(w)
    ensures '\n' !in NoteText(w, note)
  {
  }

  // ----- from text to lines

  function LineOf(n: Normalize.NLine, raw: string): SLine {
    SLine(StripCr(raw), Trim(n.content), Features.IndentOf(n.content), Normalize.Blank(n.content), n.number, false)
  }

  /** `zip`: as many lines as the shorter side has. */
  function Zipped(ns: seq<Normalize.NLine>, raws: seq<string>): seq<SLine> {
    seq(Min(|ns|, |raws|), i requires 0 <= i < Min(|ns|, |raws|) => LineOf(ns[i], raws[i]))
  }

  function ToSlines(norm: Normalize.Normalized, original: string): seq<SLine> {
    Zipped(norm.lines, Split(original, '\n'))
  }

  /** Lines as they come from a text: no annotations, blank ones without a key, no newline inside. */
  ghost predicate FromText(xs: seq<SLine>) {
    forall i :: 0 <= i < |xs| ==> Plain(xs[i])
  }

  predicate Plain(x: SLine) {
    !x.annotation && (x.blank <==> x.key == "") && '\n' !in x.raw
  }

  /** Numbers grow from line to line. */
  ghost predicate CoordsIncrease(xs: seq<SLine>) {
    forall i, j :: 0 <= i < j < |xs| && xs[i].coord.Some? && xs[j].coord.Some? ==> xs[i].coord.value < xs[j].coord.value
  }

  lemma ZippedIsFromText(ns: seq<Normalize.NLine>, raws: seq<string>)
    requires |ns| == |raws| && forall i :: 0 <= i < |raws| ==> '\n' !in raws[i]
    ensures FromText(Zipped(ns, raws))
  {
  }

  lemma ZippedIncreases(ns: seq<Normalize.NLine>, raws: seq<string>)
    requires Normalize.CoordsIncrease(ns)
    ensures CoordsIncrease(Zipped(ns, raws))
  {
  }

  /** Zipping drops nothing: one line for every line of the text, numbers in order. */
  lemma SlinesOfText(text: string)
    ensures var xs := ToSlines(Normalize.NormalizedOf(text), text);
            |xs| == |Split(text, '\n')| && FromText(xs) && CoordsIncrease(xs)
  {
    Normalize.LineCountIsKept(text);
    Normalize.NormalizedCoordsIncrease(text);
    ZippedIsFromText(Normalize.NormalizedOf(text).lines, Split(text, '\n'));
    ZippedIncreases(Normalize.NormalizedOf(text).lines, Split(text, '\n'));
  }

  function Raws(xs: seq<SLine>): seq<string> {
    seq(|xs|, i requires 0 <= i < |xs| => xs[i].raw)
  }

  function Body(xs: seq<SLine>): string {
    Join(Raws(xs), "\n")
  }
}
