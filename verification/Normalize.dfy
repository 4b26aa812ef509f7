/**
  Normalising a block for measurement: escape sequences, carriage returns and line-number
  prefixes are removed; numbers that look like file coordinates are kept beside the lines.
*/
module Normalize {
  import opened Options
  import opened Text
  import Ansi

  const ARROW: char := '→'
  const MAX_DIGITS: nat := 8

  /** What a numbering looks like on one line: the number, its separator, and the length of the prefix. */
  datatype Numbering = Numbering(number: nat, sep: char, len: nat)

  /** A line with its prefix removed. */
  datatype NLine = NLine(content: string, number: Option<nat>)

  datatype Normalized = Normalized(
    lines: seq<NLine>, fileCoords: bool, hadNumbering: bool, hadAnsi: bool, hadCrlf: bool)

  predicate Trusted(sep: char) {
    sep == '\t' || sep == ARROW || sep == '|'
  }

  predicate IsSeparator(sep: char) {
    Trusted(sep) || sep == ':'
  }

  // ----- one line

  function Cleaned(line: string): string {
    Ansi.Strip(StripCr(line))
  }

  predicate Blank(line: string) {
    Trim(line) == ""
  }

  predicate IsPad(c: char) {
    c == ' '
  }

  /** Spaces, one to eight digits, a separator. */
  function NumberedPrefix(line: string): Option<Numbering> {
    var a := Span(line, IsPad);
    var d := Span(line[a..], IsDigit);
    SpanHolds(line[a..], IsDigit);
    if d == 0 || d > MAX_DIGITS || a + d == |line| || !IsSeparator(line[a + d]) then None
    else Some(Numbering(DecValue(line[a..a + d]), line[a + d], a + d + 1))
  }

  method ParseNumbered(line: string) returns (r: Option<Numbering>)
    ensures r == NumberedPrefix(line)
  {
    var idx := 0;
    while idx < |line| && line[idx] == ' '
      invariant idx <= |line| && forall i :: 0 <= i < idx ==> line[i] == ' '
    {
      idx := idx + 1;
    }
    SpanUpTo(line, IsPad, idx);
    var start := idx;
    while idx < |line| && IsDigit(line[idx])
      invariant start <= idx <= |line| && forall i :: start <= i < idx ==> IsDigit(line[i])
    {
      idx := idx + 1;
    }
    SpanUpTo(line[start..], IsDigit, idx - start);
    if idx == start || idx - start > MAX_DIGITS {
      return None;
    }
    if idx == |line| || !IsSeparator(line[idx]) {
      return None;
    }
    return Some(Numbering(DecValue(line[start..idx]), line[idx], idx + 1));
  }

  lemma SpanUpTo(t: string, p: char -> bool, n: nat)
    requires n <= |t| && (forall i :: 0 <= i < n ==> p(t[i])) && (n < |t| ==> !p(t[n]))
    ensures Span(t, p) == n
  {
    SpanIs(t[..n], t[n..], p);
    assert t == t[..n] + t[n..];
  }

  /** Writing a number in front of a line, padded with spaces. */
  function WithNumber(pad: nat, n: nat, sep: char, line: string): string {
    seq(pad, i => ' ') + Dec(n) + [sep] + line
  }

  lemma PrefixSpans(pad: nat, n: nat, sep: char, line: string)
    requires IsSeparator(sep)
    ensures var w := WithNumber(pad, n, sep, line);
            Span(w, IsPad) == pad && Span(w[pad..], IsDigit) == |Dec(n)| &&
            w[pad..pad + |Dec(n)|] == Dec(n) && w[pad + |Dec(n)|] == sep && w[pad + |Dec(n)| + 1..] == line
  {
    var spaces := seq(pad, i => ' ');
    var rest := Dec(n) + ([sep] + line);
    var w := WithNumber(pad, n, sep, line);
    assert w == spaces + rest;
    SpanIs(spaces, rest, IsPad);
    assert w[pad..] == rest;
    SpanIs(Dec(n), [sep] + line, IsDigit);
  }

  lemma WrittenNumberIsParsed(pad: nat, n: nat, sep: char, line: string)
    requires IsSeparator(sep) && n < Pow10(MAX_DIGITS)
    ensures var w := WithNumber(pad, n, sep, line);
            NumberedPrefix(w) == Some(Numbering(n, sep, |w| - |line|)) && w[|w| - |line|..] == line
  {
    PrefixSpans(pad, n, sep, line);
    DecLength(n, MAX_DIGITS);
  }

  lemma WrittenNumberIsSeen(pad: nat, n: nat, sep: char, line: string)
    ensures !Blank(WithNumber(pad, n, sep, line))
  {
    var w := WithNumber(pad, n, sep, line);
    TrimIsEmpty(w);
    assert w[pad] == Dec(n)[0] && !IsSpace(w[pad]);
  }

  // ----- the whole block

  function CleanedLines(raw: seq<string>): seq<string> {
    seq(|raw|, i requires 0 <= i < |raw| => Cleaned(raw[i]))
  }

  function ParsedLine(line: string): Option<Numbering> {
    if Blank(line) then None else NumberedPrefix(line)
  }

  function ParsedLines(lines: seq<string>): seq<Option<Numbering>> {
    seq(|lines|, i requires 0 <= i < |lines| => ParsedLine(lines[i]))
  }

  function CountNonblank(lines: seq<string>): nat {
    if lines == [] then 0 else CountNonblank(lines[..|lines| - 1]) + (if Blank(lines[|lines| - 1]) then 0 else 1)
  }

  /** The numberings found, in order. */
  function Found(parsed: seq<Option<Numbering>>): seq<Numbering> {
    if parsed == [] then []
    else Found(parsed[..|parsed| - 1]) + (match parsed[|parsed| - 1] case Some(n) => [n] case None => [])
  }

  predicate SameSeparator(found: seq<Numbering>, sep: char) {
    forall i :: 0 <= i < |found| ==> found[i].sep == sep
  }

  /** `windows(2)`: every number exceeds the one before it. */
  predicate Increasing(found: seq<Numbering>) {
    forall i :: 0 <= i < |found| - 1 ==> found[i].number < found[i + 1].number
  }

  /** The separator of a numbering scheme: on most lines, always the same, numbers growing. */
  function Scheme(found: seq<Numbering>, nonblank: nat): Option<char> {
    if nonblank >= 5 && |found| * 10 >= nonblank * 8 then
      assert |found| > 0;
      var sep := found[0].sep;
      if SameSeparator(found, sep) && Increasing(found) then Some(sep) else None
    else None
  }

  function NumberedLine(line: string, parsed: Option<Numbering>, scheme: Option<char>): NLine
    requires parsed.Some? ==> parsed.value.len <= |line|
  {
    if scheme.Some? && parsed.Some? then NLine(line[parsed.value.len..], Some(parsed.value.number))
    else NLine(line, None)
  }

  function SchemeOf(cleaned: seq<string>): Option<char> {
    Scheme(Found(ParsedLines(cleaned)), CountNonblank(cleaned))
  }

  function NumberedLines(cleaned: seq<string>): seq<NLine> {
    seq(|cleaned|, i requires 0 <= i < |cleaned| => NumberedLine(cleaned[i], ParsedLine(cleaned[i]), SchemeOf(cleaned)))
  }

  function NormalizedOf(text: string): Normalized {
    var cleaned := CleanedLines(Split(text, '\n'));
    var scheme := SchemeOf(cleaned);
    Normalized(NumberedLines(cleaned), scheme.Some? && Trusted(scheme.value), scheme.Some?,
      AnyEscape(Split(text, '\n')), '\r' in text)
  }

  predicate AnyEscape(raw: seq<string>) {
    exists i :: 0 <= i < |raw| && Ansi.ESC in StripCr(raw[i])
  }

  method CleanAll(raw: seq<string>) returns (cleaned: seq<string>, hadAnsi: bool)
    ensures cleaned == CleanedLines(raw) && hadAnsi == AnyEscape(raw)
  {
    cleaned, hadAnsi := [], false;
    for i := 0 to |raw|
      invariant cleaned == CleanedLines(raw)[..i]
      invariant hadAnsi <==> exists k :: 0 <= k < i && Ansi.ESC in StripCr(raw[k])
    {
      var c, a := Ansi.StripAnsi(StripCr(raw[i]));
      hadAnsi := hadAnsi || a;
      cleaned := cleaned + [c];
    }
    assert cleaned == CleanedLines(raw);
  }

  method ParseOne(line: string, nonblank0: nat) returns (p: Option<Numbering>, nonblank: nat)
    ensures p == ParsedLine(line) && nonblank == nonblank0 + if Blank(line) then 0 else 1
  {
    if Trim(line) == "" {
      return None, nonblank0;
    }
    p := ParseNumbered(line);
    nonblank := nonblank0 + 1;
  }

  method ParseAll(cleaned: seq<string>) returns (parsed: seq<Option<Numbering>>, nonblank: nat)
    ensures parsed == ParsedLines(cleaned) && nonblank == CountNonblank(cleaned)
  {
    parsed, nonblank := [], 0;
    for i := 0 to |cleaned|
      invariant parsed == ParsedLines(cleaned)[..i]
      invariant nonblank == CountNonblank(cleaned[..i])
    {
      assert cleaned[..i + 1][..i] == cleaned[..i];
      var p, n := ParseOne(cleaned[i], nonblank);
      parsed, nonblank := parsed + [p], n;
    }
    assert cleaned[..|cleaned|] == cleaned && parsed == ParsedLines(cleaned);
  }

  /** The normaliser: one pass to clean, one to parse, one to strip. */
  method Run(text: string) returns (n: Normalized)
    ensures n == NormalizedOf(text)
  {
    var raw := Split(text, '\n');
    var cleaned, hadAnsi := CleanAll(raw);
    var parsed, nonblank := ParseAll(cleaned);
    var scheme := Scheme(Found(parsed), nonblank);
    var lines := StripAll(cleaned, parsed, scheme);
    n := Normalized(lines, scheme.Some? && Trusted(scheme.value), scheme.Some?, hadAnsi, '\r' in text);
  }

  /** The third pass takes the prefixes off the lines that were parsed. */
  method StripAll(cleaned: seq<string>, parsed: seq<Option<Numbering>>, scheme: Option<char>)
    returns (lines: seq<NLine>)
    requires parsed == ParsedLines(cleaned) && scheme == SchemeOf(cleaned)
    ensures lines == NumberedLines(cleaned)
  {
    lines := [];
    for i := 0 to |cleaned|
      invariant lines == NumberedLines(cleaned)[..i]
    {
      lines := lines + [NumberedLine(cleaned[i], parsed[i], scheme)];
    }
    assert lines == NumberedLines(cleaned);
  }

  /** What was taken off, for the decision log. */
  function Tags(n: Normalized): string {
    Join((if n.hadNumbering then ["linenum"] else []) + (if n.hadAnsi then ["ansi"] else []) +
      (if n.hadCrlf then ["crlf"] else []), "|")
  }

  // ----- what normalising promises

  /** No line is lost or added. */
  lemma LineCountIsKept(text: string)
    ensures |NormalizedOf(text).lines| == |Split(text, '\n')|
  {
  }

  /** Numbers grow from line to line. */
  ghost predicate CoordsIncrease(lines: seq<NLine>) {
    forall i, j :: 0 <= i < j < |lines| && lines[i].number.Some? && lines[j].number.Some? ==>
      lines[i].number.value < lines[j].number.value
  }

  lemma {:induction false} IncreasingPairs(found: seq<Numbering>, i: nat, j: nat)
    requires Increasing(found) && i < j < |found|
    ensures found[i].number < found[j].number
  {
    if i + 1 < j {
      IncreasingPairs(found, i, j - 1);
    }
  }

  lemma {:induction false} FoundContains(parsed: seq<Option<Numbering>>, i: nat)
    requires i < |parsed| && parsed[i].Some?
    ensures parsed[i].value in Found(parsed)
  {
    var n := |parsed| - 1;
    if i < n {
      FoundContains(parsed[..n], i);
    }
  }

  lemma {:induction false} FoundKeepsOrder(parsed: seq<Option<Numbering>>, i: nat, j: nat)
    requires Increasing(Found(parsed)) && i < j < |parsed| && parsed[i].Some? && parsed[j].Some?
    ensures parsed[i].value.number < parsed[j].value.number
  {
    var n := |parsed| - 1;
    var found, before := Found(parsed), Found(parsed[..n]);
    if j < n {
      assert forall k :: 0 <= k < |before| ==> before[k] == found[k];
      FoundKeepsOrder(parsed[..n], i, j);
    } else {
      FoundContains(parsed[..n], i);
      var k :| 0 <= k < |before| && before[k] == parsed[i].value;
      assert found[k] == before[k] && found[|before|] == parsed[j].value;
      IncreasingPairs(found, k, |before|);
    }
  }

  lemma NumberedLinesIncrease(cleaned: seq<string>)
    ensures CoordsIncrease(NumberedLines(cleaned))
    ensures SchemeOf(cleaned).None? ==> forall i :: 0 <= i < |cleaned| ==> NumberedLines(cleaned)[i].number.None?
  {
    var parsed := ParsedLines(cleaned);
    var lines := NumberedLines(cleaned);
    forall i, j | 0 <= i < j < |lines| && lines[i].number.Some? && lines[j].number.Some?
      ensures lines[i].number.value < lines[j].number.value
    {
      assert Increasing(Found(parsed));
      FoundKeepsOrder(parsed, i, j);
    }
  }

  lemma NormalizedCoordsIncrease(text: string)
    ensures CoordsIncrease(NormalizedOf(text).lines)
    ensures NormalizedOf(text).fileCoords ==> NormalizedOf(text).hadNumbering
    ensures !NormalizedOf(text).hadNumbering ==>
              forall i :: 0 <= i < |NormalizedOf(text).lines| ==> NormalizedOf(text).lines[i].number.None?
  {
    NumberedLinesIncrease(CleanedLines(Split(text, '\n')));
  }

  // ----- numbering a listing, then normalising it

  /** A line that carries nothing the normaliser would remove. */
  predicate PlainLine(line: string) {
    '\n' !in line && Ansi.ESC !in line && (line == "" || line[|line| - 1] != '\r')
  }

  /** `lines` numbered from `start` on, each number padded as `pads` says. */
  function NumberedListing(lines: seq<string>, pads: seq<nat>, start: nat, sep: char): seq<string>
    requires |pads| == |lines|
  {
    seq(|lines|, i requires 0 <= i < |lines| => WithNumber(pads[i], start + i, sep, lines[i]))
  }

  lemma NumberedLineIsPlain(pad: nat, n: nat, sep: char, line: string)
    requires IsSeparator(sep) && PlainLine(line)
    ensures var w := WithNumber(pad, n, sep, line); '\n' !in w && Cleaned(w) == w
  {
    var w := WithNumber(pad, n, sep, line);
    var digits := Dec(n);
    forall i | 0 <= i < |w| ensures w[i] != '\n' && w[i] != Ansi.ESC {
      if pad <= i < pad + |digits| {
        assert w[i] == digits[i - pad];
      } else if i > pad + |digits| {
        assert w[i] == line[i - pad - |digits| - 1];
      }
    }
    if line == "" {
      assert w[|w| - 1] == sep;
    } else {
      assert w[|w| - 1] == line[|line| - 1];
    }
    Ansi.StripWithoutEscapes(w);
  }

  lemma {:induction false} AllFound(parsed: seq<Option<Numbering>>)
    requires forall i :: 0 <= i < |parsed| ==> parsed[i].Some?
    ensures |Found(parsed)| == |parsed|
    ensures forall i :: 0 <= i < |parsed| ==> Found(parsed)[i] == parsed[i].value
  {
    if parsed != [] {
      AllFound(parsed[..|parsed| - 1]);
    }
  }

  lemma {:induction false} AllNonblank(lines: seq<string>)
    requires forall i :: 0 <= i < |lines| ==> !Blank(lines[i])
    ensures CountNonblank(lines) == |lines|
  {
    if lines != [] {
      AllNonblank(lines[..|lines| - 1]);
    }
  }

  /** `w` is `line` behind the number `n`. */
  predicate NumbersLine(w: string, line: string, n: nat, sep: char) {
    !Blank(w) && |line| <= |w| && NumberedPrefix(w) == Some(Numbering(n, sep, |w| - |line|)) &&
    w[|w| - |line|..] == line
  }

  predicate NumbersLines(listing: seq<string>, lines: seq<string>, start: nat, sep: char) {
    |listing| == |lines| &&
    forall i :: 0 <= i < |lines| ==> NumbersLine(listing[i], lines[i], start + i, sep)
  }

  lemma ListingHasScheme(listing: seq<string>, lines: seq<string>, start: nat, sep: char)
    requires NumbersLines(listing, lines, start, sep) && |lines| >= 5
    ensures SchemeOf(listing) == Some(sep)
  {
    var parsed := ParsedLines(listing);
    forall i | 0 <= i < |parsed|
      ensures parsed[i].Some? && parsed[i].value.sep == sep && parsed[i].value.number == start + i
    {
      assert NumbersLine(listing[i], lines[i], start + i, sep);
    }
    forall i | 0 <= i < |listing| ensures !Blank(listing[i]) {
      assert NumbersLine(listing[i], lines[i], start + i, sep);
    }
    AllFound(parsed);
    AllNonblank(listing);
  }

  lemma ListingComesBack(listing: seq<string>, lines: seq<string>, start: nat, sep: char)
    requires NumbersLines(listing, lines, start, sep) && SchemeOf(listing) == Some(sep)
    ensures forall i :: 0 <= i < |lines| ==> NumberedLines(listing)[i] == NLine(lines[i], Some(start + i))
  {
    forall i | 0 <= i < |lines| ensures NumberedLines(listing)[i] == NLine(lines[i], Some(start + i)) {
      assert NumbersLine(listing[i], lines[i], start + i, sep);
    }
  }

  lemma ListingNumbers(lines: seq<string>, pads: seq<nat>, start: nat, sep: char)
    requires |pads| == |lines| && start + |lines| <= Pow10(MAX_DIGITS) && IsSeparator(sep)
    ensures NumbersLines(NumberedListing(lines, pads, start, sep), lines, start, sep)
  {
    var listing := NumberedListing(lines, pads, start, sep);
    forall i | 0 <= i < |lines| ensures NumbersLine(listing[i], lines[i], start + i, sep) {
      NumbersAt(lines, pads, start, sep, i);
    }
  }

  lemma NumbersAt(lines: seq<string>, pads: seq<nat>, start: nat, sep: char, i: nat)
    requires i < |pads| == |lines| && start + |lines| <= Pow10(MAX_DIGITS) && IsSeparator(sep)
    ensures NumbersLine(NumberedListing(lines, pads, start, sep)[i], lines[i], start + i, sep)
  {
    NumbersOne(pads[i], start + i, sep, lines[i]);
  }

  lemma NumbersOne(pad: nat, n: nat, sep: char, line: string)
    requires n < Pow10(MAX_DIGITS) && IsSeparator(sep)
    ensures NumbersLine(WithNumber(pad, n, sep, line), line, n, sep)
  {
    WrittenNumberIsParsed(pad, n, sep, line);
    WrittenNumberIsSeen(pad, n, sep, line);
  }

  /** A listing of at least five lines, numbered with a trusted separator, is recognised, and the
      original lines come back with their numbers beside them. */
  lemma NumberingRoundTrip(lines: seq<string>, pads: seq<nat>, start: nat, sep: char)
    requires |pads| == |lines| >= 5 && start + |lines| <= Pow10(MAX_DIGITS) && Trusted(sep)
    requires forall i :: 0 <= i < |lines| ==> PlainLine(lines[i])
    ensures var n := NormalizedOf(Join(NumberedListing(lines, pads, start, sep), "\n"));
            n.fileCoords && |n.lines| == |lines| &&
            forall i :: 0 <= i < |lines| ==> n.lines[i] == NLine(lines[i], Some(start + i))
  {
    var listing := NumberedListing(lines, pads, start, sep);
    forall i | 0 <= i < |lines| ensures '\n' !in listing[i] && Cleaned(listing[i]) == listing[i] {
      NumberedLineIsPlain(pads[i], start + i, sep, lines[i]);
    }
    SplitJoin(listing, '\n');
    assert CleanedLines(listing) == listing;
    ListingNumbers(lines, pads, start, sep);
    ListingHasScheme(listing, lines, start, sep);
    ListingComesBack(listing, lines, start, sep);
  }
}
