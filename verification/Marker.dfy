/**
  The stamp a compression method leaves in a text, and the scanner that finds stamps again.

  The scanner follows the stamp grammar
    \[ptk:([a-z0-9][a-z0-9-]*) (\d+)→(\d+) tokens(?: · ([^\]]+))?\]
  leftmost first and without overlaps. Every character class in it excludes the character that
  follows, so a match at a position is unique and no back-tracking is possible. `\d` matches
  any Unicode decimal digit; which characters those are is the parameter `nd`.
*/
module Marker {
  import opened Options
  import opened Text

  const HEAD := "[ptk:"
  const ARROW := "→"
  const TOKENS := " tokens"
  const DOT := " · "
  const USIZE_LIMIT: nat := 0x1_0000_0000_0000_0000
  const HOOK_SIGNATURES: seq<string> := ["lines elided]", "full output in recall file]", "[full output: "]

  datatype Stamp = Stamp(method_: string, before: nat, after: nat, hint: Option<string>)

  function Render(s: Stamp): string {
    HEAD + s.method_ + " " + Dec(s.before) + ARROW + Dec(s.after) + TOKENS
    + RenderTail(s.hint)
  }

  function RenderTail(hint: Option<string>): string {
    if hint.Some? then DOT + hint.value + "]" else "]"
  }

  // ----- the grammar

  predicate MethodStart(c: char) {
    'a' <= c <= 'z' || IsDigit(c)
  }

  predicate MethodChar(c: char) {
    MethodStart(c) || c == '-'
  }

  predicate MethodName(m: string) {
    m != [] && MethodStart(m[0]) && forall i :: 0 <= i < |m| ==> MethodChar(m[i])
  }

  predicate HintText(h: string) {
    h != [] && ']' !in h
  }

  /** The stamps the grammar can carry. */
  predicate Writable(s: Stamp) {
    MethodName(s.method_) && s.before < USIZE_LIMIT && s.after < USIZE_LIMIT &&
    (s.hint.Some? ==> HintText(s.hint.value))
  }

  /** A digit class: it has the ASCII digits and neither of the two characters that end a number. */
  ghost predicate DigitClass(nd: char -> bool) {
    (forall c :: IsDigit(c) ==> nd(c)) && !nd('→') && !nd(' ')
  }

  // ----- one match

  /** What one match captures, and the text after it. */
  datatype Match = Match(method_: string, before: string, after: string, hint: Option<string>, rest: string)

  /** One or more characters of a class, then a fixed text: the characters and what follows. */
  function Field(t: string, p: char -> bool, stop: string): (r: Option<(string, string)>)
    ensures r.Some? ==> r.value.0 != [] && r.value.0 <= t && |r.value.1| < |t|
    ensures r.Some? ==> forall i :: 0 <= i < |r.value.0| ==> p(r.value.0[i])
  {
    var n := Span(t, p);
    SpanHolds(t, p);
    if n > 0 && stop <= t[n..] then Some((t[..n], t[n + |stop|..])) else None
  }

  lemma FieldIs(a: string, p: char -> bool, stop: string, rest: string)
    requires a != [] && forall i :: 0 <= i < |a| ==> p(a[i])
    requires stop != [] && !p(stop[0])
    ensures Field(a + stop + rest, p, stop) == Some((a, rest))
  {
    SpanIs(a, stop + rest, p);
    assert a + stop + rest == a + (stop + rest);
  }

  function MatchHead(t: string): (r: Option<(string, string)>)
    ensures r.Some? ==> MethodName(r.value.0) && |r.value.1| < |t|
  {
    if !(HEAD <= t) then None
    else match Field(t[|HEAD|..], MethodChar, " ")
      case Some((m, rest)) => if MethodStart(m[0]) then Some((m, rest)) else None
      case None => None
  }

  function MatchTail(t: string): (r: Option<(Option<string>, string)>)
    ensures r.Some? ==> |r.value.1| < |t|
    ensures r.Some? && r.value.0.Some? ==> HintText(r.value.0.value)
  {
    if "]" <= t then Some((None, t[1..]))
    else if DOT <= t then
      match Field(t[|DOT|..], c => c != ']', "]")
      case Some((h, rest)) => Some((Some(h), rest))
      case None => None
    else None
  }

  function MatchAt(t: string, nd: char -> bool): (r: Option<Match>)
    ensures r.Some? ==> |r.value.rest| < |t| && MethodName(r.value.method_)
    ensures r.Some? && r.value.hint.Some? ==> HintText(r.value.hint.value)
  {
    match MatchHead(t)
    case None => None
    case Some((method_, t2)) =>
      match Field(t2, nd, ARROW)
      case None => None
      case Some((before, t3)) =>
        match Field(t3, nd, TOKENS)
        case None => None
        case Some((after, t4)) =>
          match MatchTail(t4)
          case None => None
          case Some((hint, rest)) => Some(Match(method_, before, after, hint, rest))
  }

  /** `str::parse::<usize>` on text that is not empty: other digits and overflow are errors. */
  function ParseUsize(s: string): Option<nat> {
    if AllDigits(s) && s != [] && DecValue(s) < USIZE_LIMIT then Some(DecValue(s)) else None
  }

  function StampOf(m: Match): Option<Stamp> {
    match (ParseUsize(m.before), ParseUsize(m.after))
    case (Some(b), Some(a)) => Some(Stamp(m.method_, b, a, m.hint))
    case _ => None
  }

  /** All stamps in a text, from left to right. */
  function Parse(t: string, nd: char -> bool): (r: seq<Stamp>)
    ensures forall i :: 0 <= i < |r| ==> Writable(r[i])
    decreases |t|
  {
    if t == [] then []
    else match MatchAt(t, nd)
      case None => Parse(t[1..], nd)
      case Some(m) =>
        (match StampOf(m) case Some(s) => [s] case None => []) + Parse(m.rest, nd)
  }

  function Methods(ss: seq<Stamp>): seq<string> {
    seq(|ss|, i requires 0 <= i < |ss| => ss[i].method_)
  }

  function ProvenanceOf(t: string, nd: char -> bool): seq<string> {
    Methods(Parse(t, nd))
  }

  predicate Contains(t: string, sub: string) {
    exists i :: 0 <= i <= |t| && sub <= t[i..]
  }

  predicate CarriesHookStamp(t: string, nd: char -> bool) {
    (exists i :: 0 <= i < |HOOK_SIGNATURES| && Contains(t, HOOK_SIGNATURES[i])) || Parse(t, nd) != []
  }

  // ----- printing then scanning

  lemma TailOfRender(hint: Option<string>, rest: string)
    requires hint.Some? ==> HintText(hint.value)
    ensures MatchTail(RenderTail(hint) + rest) == Some((hint, rest))
  {
    if hint.Some? {
      var h := hint.value;
      var t := RenderTail(hint) + rest;
      assert t == DOT + (h + "]" + rest);
      assert t[|DOT|..] == h + "]" + rest;
      FieldIs(h, c => c != ']', "]", rest);
    }
  }

  lemma HeadOfRender(m: string, rest: string)
    requires MethodName(m)
    ensures MatchHead(HEAD + m + " " + rest) == Some((m, rest))
  {
    var t := HEAD + m + " " + rest;
    assert t == HEAD + (m + " " + rest);
    assert t[|HEAD|..] == m + " " + rest;
    FieldIs(m, MethodChar, " ", rest);
  }

  /** A rendered stamp in front of anything matches as a whole. */
  lemma MatchOfRender(s: Stamp, rest: string, nd: char -> bool)
    requires Writable(s) && DigitClass(nd)
    ensures MatchAt(Render(s) + rest, nd)
         == Some(Match(s.method_, Dec(s.before), Dec(s.after), s.hint, rest))
  {
    var t4 := RenderTail(s.hint) + rest;
    var t3 := Dec(s.after) + TOKENS + t4;
    var t2 := Dec(s.before) + ARROW + t3;
    assert Render(s) + rest == HEAD + s.method_ + " " + t2;
    HeadOfRender(s.method_, t2);
    FieldIs(Dec(s.before), nd, ARROW, t3);
    FieldIs(Dec(s.after), nd, TOKENS, t4);
    TailOfRender(s.hint, rest);
  }

  lemma ParseOfRender(s: Stamp, rest: string, nd: char -> bool)
    requires Writable(s) && DigitClass(nd)
    ensures Parse(Render(s) + rest, nd) == [s] + Parse(rest, nd)
  {
    MatchOfRender(s, rest, nd);
  }

  lemma {:induction false} ParseOfPlain(plain: string, rest: string, nd: char -> bool)
    requires '[' !in plain
    ensures Parse(plain + rest, nd) == Parse(rest, nd)
  {
    if plain == [] {
      assert plain + rest == rest;
    } else {
      assert (plain + rest)[0] == plain[0] && plain[0] in plain;
      assert (plain + rest)[1..] == plain[1..] + rest;
      ParseOfPlain(plain[1..], rest, nd);
    }
  }

  lemma ParseFindsOnlyWritable(t: string, s: Stamp, nd: char -> bool)
    requires Parse(t, nd) == [s]
    ensures Writable(s)
  {
    assert Parse(t, nd)[0] == s;
  }

  lemma RenderThenParse(s: Stamp, nd: char -> bool)
    requires DigitClass(nd) && Writable(s)
    ensures Parse(Render(s), nd) == [s]
  {
    ParseOfRender(s, [], nd);
    assert Render(s) + [] == Render(s);
  }

  /** Printing and scanning are inverse on exactly the writable stamps. */
  lemma RoundTrip(s: Stamp, nd: char -> bool)
    requires DigitClass(nd)
    ensures Parse(Render(s), nd) == [s] <==> Writable(s)
  {
    var text := Render(s);
    if Writable(s) {
      RenderThenParse(s, nd);
    } else if Parse(text, nd) == [s] {
      ParseFindsOnlyWritable(text, s, nd);
    }
  }

  /** Stamps with text around them: `plains[i]` stands before `stamps[i]`, the last one at the end. */
  function Interleave(plains: seq<string>, stamps: seq<Stamp>): string
    requires |plains| == |stamps| + 1
  {
    if stamps == [] then plains[0]
    else plains[0] + Render(stamps[0]) + Interleave(plains[1..], stamps[1..])
  }

  lemma NextStamp(plain: string, s: Stamp, rest: string, nd: char -> bool)
    requires '[' !in plain && DigitClass(nd) && Writable(s)
    ensures Parse(plain + Render(s) + rest, nd) == [s] + Parse(rest, nd)
  {
    ParseOfRender(s, rest, nd);
    PlainInFront(plain, Render(s), rest, nd);
  }

  lemma PlainInFront(plain: string, a: string, b: string, nd: char -> bool)
    requires '[' !in plain
    ensures Parse(plain + a + b, nd) == Parse(a + b, nd)
  {
    assert plain + a + b == plain + (a + b);
    ParseOfPlain(plain, a + b, nd);
  }

  lemma {:induction false} StampsAreParsed(plains: seq<string>, stamps: seq<Stamp>, nd: char -> bool)
    requires |plains| == |stamps| + 1 && DigitClass(nd)
    requires forall i :: 0 <= i < |plains| ==> '[' !in plains[i]
    requires forall i :: 0 <= i < |stamps| ==> Writable(stamps[i])
    ensures Parse(Interleave(plains, stamps), nd) == stamps
  {
    if stamps == [] {
      ParseOfPlain(plains[0], [], nd);
      assert plains[0] + [] == plains[0];
    } else {
      StampsAreParsed(plains[1..], stamps[1..], nd);
      NextStamp(plains[0], stamps[0], Interleave(plains[1..], stamps[1..]), nd);
    }
  }

  /** A text with stamps in it gives back those stamps, in order, whatever their hints say. */
  lemma StampsAreFoundInOrder(plains: seq<string>, stamps: seq<Stamp>, nd: char -> bool)
    requires |plains| == |stamps| + 1 && DigitClass(nd)
    requires forall i :: 0 <= i < |plains| ==> '[' !in plains[i]
    requires forall i :: 0 <= i < |stamps| ==> Writable(stamps[i])
    ensures Parse(Interleave(plains, stamps), nd) == stamps
    ensures ProvenanceOf(Interleave(plains, stamps), nd) == Methods(stamps)
    ensures stamps != [] ==> CarriesHookStamp(Interleave(plains, stamps), nd)
  {
    StampsAreParsed(plains, stamps, nd);
  }

  // ----- what is looked for, and what is printed

  ghost predicate Holds(t: string, piece: string) {
    exists before, after :: t == before + piece + after
  }

  lemma {:induction false} ContainsMeans(t: string, piece: string)
    ensures Contains(t, piece) <==> Holds(t, piece)
  {
    if i: nat :| i <= |t| && piece <= t[i..] {
      assert t == t[..i] + piece + t[i + |piece|..];
    }
    if before, after :| t == before + piece + after {
      assert t[|before|..] == piece + after;
    }
  }

  /** A text counts as stamped if and only if it has a stamp in it or one of three phrases. */
  lemma {:induction false} HookStampMeans(t: string, nd: char -> bool)
    ensures CarriesHookStamp(t, nd) <==>
              Holds(t, "lines elided]") || Holds(t, "full output in recall file]") || Holds(t, "[full output: ") ||
              Parse(t, nd) != []
  {
    ContainsMeans(t, HOOK_SIGNATURES[0]);
    ContainsMeans(t, HOOK_SIGNATURES[1]);
    ContainsMeans(t, HOOK_SIGNATURES[2]);
  }

  lemma {:induction false} TensAndHundreds()
    ensures Dec(60) == "60" && Dec(100) == "100"
  {
    assert Dec(6) == "6" && Dec(1) == "1" && Dec(10) == "10";
  }

  /** For example, with and without a hint. */
  lemma {:induction false} PrintedLike(hint: string)
    ensures Render(Stamp("dedup", 100, 60, None)) == "[ptk:dedup 100→60 tokens]"
    ensures Render(Stamp("dedup", 100, 60, Some(hint))) == "[ptk:dedup 100→60 tokens · " + hint + "]"
  {
    TensAndHundreds();
    FrontIs("[ptk:", "dedup", "100", "60");
    JoinEnd("[ptk:dedup 100→60 tokens", " · ", hint);
  }

  lemma {:induction false} FrontIs(head: string, name: string, before: string, after: string)
    requires head == "[ptk:" && name == "dedup" && before == "100" && after == "60"
    ensures head + name + " " + before + "→" + after + " tokens" == "[ptk:dedup 100→60 tokens"
  {
    assert head + name == "[ptk:dedup";
    assert "[ptk:dedup" + " " + before == "[ptk:dedup 100";
    assert "[ptk:dedup 100" + "→" + after == "[ptk:dedup 100→60";
  }

  lemma {:induction false} JoinEnd(front: string, dot: string, hint: string)
    ensures front + (dot + hint + "]") == front + dot + hint + "]"
  {
  }
}
