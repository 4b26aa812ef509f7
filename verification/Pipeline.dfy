/** The whole renderer: normalise, measure, classify, collapse, and elide where that is not enough. */
module Pipeline {
  import opened Numbers
  import opened Options
  import opened Text
  import opened Lines
  import opened RunLength
  import opened Elision
  import opened Features
  import opened Skeleton
  import opened Json
  import Normalize
  import Deviation
  import Conservation
  import Utf8

  datatype Strategy = Dedup | StructuralIndex | JsonSkeleton | CharacterWindow | HeadAndTail

  /** What one strategy puts out. */
  datatype Choice = Choice(body: string, strategy: Strategy, ranges: string)

  /** For the decision log. */
  datatype DecisionMeta = DecisionMeta(
    shape: Shape, strategy: Strategy, decidedBy: string, features: Features, normalisers: string, ranges: string)

  datatype Rendered = Rendered(body: string, meta: DecisionMeta)

  /** What the renderer takes from its surroundings. */
  datatype Setup = Setup(
    floor: nat, cap: nat,
    count: string -> nat,
    parse: string -> Option<Value>)
  {
    predicate Parses(t: string) {
      parse(t).Some?
    }
  }

  /** The first strategy of the registry that applies to the shape. */
  function StrategyFor(shape: Shape): Strategy {
    match shape
    case Nested => StructuralIndex
    case Structured => JsonSkeleton
    case Monolithic => CharacterWindow
    case Repetitive | FlatUnique | Unknown => HeadAndTail
  }

  ghost function ApplyStrategy(s: Strategy, out: seq<SLine>, fileCoords: bool, setup: Setup): Option<Applied>
    requires setup.cap >= 1
  {
    match s
    case StructuralIndex => Structural(out, fileCoords, setup.cap)
    case JsonSkeleton => Outlined(out, setup.parse)
    case CharacterWindow => CharWindow(out)
    case HeadAndTail => HeadTail(out, fileCoords)
    case Dedup => None
  }

  method RunStrategy(s: Strategy, out: seq<SLine>, fileCoords: bool, setup: Setup) returns (r: Option<Applied>)
    requires setup.cap >= 1
    ensures r == ApplyStrategy(s, out, fileCoords, setup)
  {
    match s
    case StructuralIndex => r := ApplyStructural(out, fileCoords, setup.cap);
    case JsonSkeleton => r := ApplySkeleton(out, setup.parse);
    case CharacterWindow => r := CharWindow(out);
    case HeadAndTail => r := HeadTail(out, fileCoords);
    case Dedup => r := None;
  }

  /** The strategy for the shape, and head and tail where that one does not apply. */
  ghost function Lossy(shape: Shape, out: seq<SLine>, fileCoords: bool, setup: Setup): Option<Choice>
    requires setup.cap >= 1
  {
    Pick(StrategyFor(shape), ApplyStrategy(StrategyFor(shape), out, fileCoords, setup), HeadTail(out, fileCoords))
  }

  function Pick(s: Strategy, first: Option<Applied>, second: Option<Applied>): Option<Choice> {
    match first
    case Some(a) => Some(Choice(a.body, s, a.ranges))
    case None => match second
      case Some(a) => Some(Choice(a.body, HeadAndTail, a.ranges))
      case None => None
  }

  function Deduped(out: seq<SLine>, collapsed: nat): Choice {
    Choice(Body(out), Dedup, "rle×" + Dec(collapsed))
  }

  /** The collapsed text if it is enough, else what a lossy strategy makes of it, else the collapsed
      text if anything was collapsed. */
  function Settle(hasDedup: bool, enough: bool, deduped: Choice, lossy: Option<Choice>): Option<Choice> {
    if hasDedup && (enough || lossy.None?) then Some(deduped) else lossy
  }

  ghost function Outcome(shape: Shape, out: seq<SLine>, collapsed: nat, fileCoords: bool, setup: Setup): Option<Choice>
    requires setup.cap >= 1
  {
    Settle(collapsed > 0, setup.count(Body(out)) < setup.floor, Deduped(out, collapsed),
      Lossy(shape, out, fileCoords, setup))
  }

  /** The lines after the lossless pass. */
  function OutOf(text: string): seq<SLine> {
    var norm := Normalize.NormalizedOf(text);
    Collapsed(norm.fileCoords, ToSlines(norm, text))
  }

  function CollapsedOf(text: string): nat {
    Savings(Groups(ToSlines(Normalize.NormalizedOf(text), text)))
  }

  ghost function ChoiceFor(text: string, shape: Shape, setup: Setup): Option<Choice>
    requires setup.cap >= 1
  {
    Outcome(shape, OutOf(text), CollapsedOf(text), Normalize.NormalizedOf(text).fileCoords, setup)
  }

  function Describe(c: Choice, shape: Shape, f: Features, norm: Normalize.Normalized): Rendered {
    Rendered(c.body, DecisionMeta(shape, c.strategy, RuleOf(shape), f, Normalize.Tags(norm), c.ranges))
  }

  /** The answer for a text with the given statistics. */
  ghost function RenderedAs(text: string, f: Features, setup: Setup): Option<Rendered>
    requires setup.cap >= 1
  {
    var shape := Classify(text, f, setup.Parses);
    match ChoiceFor(text, shape, setup)
    case Some(c) => Some(Describe(c, shape, f, Normalize.NormalizedOf(text)))
    case None => None
  }

  function SeenIn(text: string): seq<string> {
    Seen(Normalize.NormalizedOf(text).lines)
  }

  /** `f` holds the statistics of the text. */
  ghost predicate MeasuresText(f: Features, text: string) {
    Measures(f, SeenIn(text), |Normalize.NormalizedOf(text).lines|, |text|)
  }

  method RunLossy(shape: Shape, out: seq<SLine>, fileCoords: bool, setup: Setup) returns (r: Option<Choice>)
    requires setup.cap >= 1
    ensures r == Lossy(shape, out, fileCoords, setup)
  {
    var first := RunStrategy(StrategyFor(shape), out, fileCoords, setup);
    if first.Some? {
      return Some(Choice(first.value.body, StrategyFor(shape), first.value.ranges));
    }
    var second := HeadTail(out, fileCoords);
    match second
    case Some(a) => r := Some(Choice(a.body, HeadAndTail, a.ranges));
    case None => r := None;
  }

  /** The renderer. It panics only where the deviation does. */
  method Render(text: string, setup: Setup) returns (panics: bool, r: Option<Rendered>)
    requires setup.cap >= 1 && |Split(text, '\n')| < U64_LIMIT
    ensures panics <==> |SeenIn(text)| >= 2 && |SeenIn(text)| % Deviation.U32_LIMIT == 0
    ensures !panics ==> exists f :: MeasuresText(f, text) && r == RenderedAs(text, f, setup)
  {
    var norm := Normalize.Run(text);
    Normalize.LineCountIsKept(text);
    var features := Extract(norm.lines, |text|);
    if features.None? {
      return true, None;
    }
    var f := features.value;
    var shape := Classify(text, f, setup.Parses);
    var xs := ToSlines(norm, text);
    var out, collapsed := RleCollapse(xs, norm.fileCoords);
    var choice := Decide(shape, out, collapsed, norm.fileCoords, setup);
    panics := false;
    r := if choice.Some? then Some(Describe(choice.value, shape, f, norm)) else None;
    assert MeasuresText(f, text) && r == RenderedAs(text, f, setup);
  }

  method Decide(shape: Shape, out: seq<SLine>, collapsed: nat, fileCoords: bool, setup: Setup)
    returns (r: Option<Choice>)
    requires setup.cap >= 1
    ensures r == Outcome(shape, out, collapsed, fileCoords, setup)
  {
    if collapsed > 0 && setup.count(Body(out)) < setup.floor {
      return Some(Deduped(out, collapsed));
    }
    r := RunLossy(shape, out, fileCoords, setup);
    if r.None? && collapsed > 0 {
      r := Some(Deduped(out, collapsed));
    }
  }

  /** The lossless pass alone. */
  function LosslessBody(text: string): Option<string> {
    if CollapsedOf(text) == 0 then None else Some(Body(OutOf(text)))
  }

  method RleOnly(text: string) returns (r: Option<string>)
    ensures r == LosslessBody(text)
  {
    var norm := Normalize.Run(text);
    var out, collapsed := RleCollapse(ToSlines(norm, text), norm.fileCoords);
    r := if collapsed == 0 then None else Some(Body(out));
  }

  // ----- what the renderer promises

  /** Three adjacent lines with the same content that is not blank. */
  ghost predicate HasTriple(xs: seq<SLine>) {
    exists i :: 0 <= i < |xs| - 2 && IsTriple(xs, i)
  }

  ghost predicate IsTriple(xs: seq<SLine>, i: nat)
    requires i + 2 < |xs|
  {
    !xs[i].blank && xs[i].key == xs[i + 1].key == xs[i + 2].key
  }

  lemma {:induction false} TripleIsCollapsed(xs: seq<SLine>, i: nat)
    requires FromText(xs) && i + 2 < |xs| && IsTriple(xs, i)
    ensures Savings(Groups(xs)) > 0
    decreases |xs|
  {
    var n := RunOf(xs);
    RunHolds(xs);
    if i >= n {
      assert IsTriple(xs[n..], i - n);
      assert FromText(xs[n..]);
      TripleIsCollapsed(xs[n..], i - n);
    } else {
      TripleStaysTogether(xs, i);
    }
  }

  lemma TripleStaysTogether(xs: seq<SLine>, i: nat)
    requires FromText(xs) && i + 2 < |xs| && IsTriple(xs, i) && i < RunOf(xs)
    ensures i + 2 < RunOf(xs)
  {
    var n := RunOf(xs);
    RunHolds(xs);
    assert xs[..n][i].key == xs[0].key;
    assert Plain(xs[0]) && Plain(xs[i]);
    assert n < |xs| ==> Ends(xs[..n], xs[n]);
  }

  lemma TripleIsLater(xs: seq<SLine>, n: nat)
    requires n <= |xs| && HasTriple(xs[n..])
    ensures HasTriple(xs)
  {
    var i :| 0 <= i < |xs[n..]| - 2 && IsTriple(xs[n..], i);
    assert IsTriple(xs, n + i);
  }

  lemma {:induction false} CollapsedIsTriple(xs: seq<SLine>)
    requires Savings(Groups(xs)) > 0
    ensures HasTriple(xs)
  {
    var n := RunOf(xs);
    RunHolds(xs);
    if n >= MIN_RUN {
      assert xs[..n][1].key == xs[0].key && xs[..n][2].key == xs[0].key;
      assert IsTriple(xs, 0);
    } else {
      CollapsedIsTriple(xs[n..]);
      TripleIsLater(xs, n);
    }
  }

  lemma SavingsMeanTriple(xs: seq<SLine>)
    requires FromText(xs)
    ensures Savings(Groups(xs)) > 0 <==> HasTriple(xs)
  {
    if HasTriple(xs) {
      var i :| 0 <= i < |xs| - 2 && IsTriple(xs, i);
      TripleIsCollapsed(xs, i);
    }
    if Savings(Groups(xs)) > 0 {
      CollapsedIsTriple(xs);
    }
  }

  /** The lossless pass alone declines exactly the texts with no three adjacent lines of equal content. */
  lemma LosslessDeclines(text: string)
    ensures LosslessBody(text).Some? <==> HasTriple(ToSlines(Normalize.NormalizedOf(text), text))
  {
    SlinesOfText(text);
    SavingsMeanTriple(ToSlines(Normalize.NormalizedOf(text), text));
  }

  /** What the lossless pass shows is line for line its output, whose counts rebuild every line's
      content; and it is shorter than the text. */
  lemma LosslessIsLossless(text: string)
    requires LosslessBody(text).Some?
    ensures var xs := ToSlines(Normalize.NormalizedOf(text), text);
            Split(LosslessBody(text).value, '\n') == Raws(OutOf(text)) && Expand(OutOf(text)) == Keys(xs) &&
            |OutOf(text)| < |Split(text, '\n')|
  {
    SlinesOfText(text);
    BodyIsLines(ToSlines(Normalize.NormalizedOf(text), text), Normalize.NormalizedOf(text).fileCoords);
  }

  lemma BodyIsLines(xs: seq<SLine>, fileCoords: bool)
    requires FromText(xs) && Savings(Groups(xs)) > 0
    ensures var out := Collapsed(fileCoords, xs);
            Split(Body(out), '\n') == Raws(out) && Expand(out) == Keys(xs) && |out| < |xs|
  {
    var out := Collapsed(fileCoords, xs);
    assert NoAnnotations(xs);
    CollapseIsLossless(fileCoords, xs);
    Conservation.CollapsedOneLine(fileCoords, xs);
    Conservation.CollapseShortens(xs, fileCoords);
    CollapseConserves(fileCoords, xs);
    SplitJoin(Raws(out), '\n');
  }

  /** The block is too short for head and tail, and nothing in it collapses. */
  ghost predicate IsTight(xs: seq<SLine>) {
    |xs| <= HEAD_LINES + TAIL_LINES && !HasTriple(xs)
  }

  /** Verbatim is the answer only for texts of at most 28 lines with nothing to collapse; for the
      shapes head and tail serves, exactly for those. */
  lemma VerbatimOnlyWhenShort(text: string, f: Features, setup: Setup)
    requires setup.cap >= 1
    ensures var tight := IsTight(ToSlines(Normalize.NormalizedOf(text), text));
            var r := RenderedAs(text, f, setup);
            (r.None? ==> tight) && (tight && StrategyFor(Classify(text, f, setup.Parses)).HeadAndTail? ==> r.None?)
  {
    SlinesOfText(text);
    VerbatimLines(ToSlines(Normalize.NormalizedOf(text), text), Normalize.NormalizedOf(text).fileCoords,
      Classify(text, f, setup.Parses), setup);
  }

  lemma VerbatimLines(xs: seq<SLine>, fileCoords: bool, shape: Shape, setup: Setup)
    requires setup.cap >= 1 && FromText(xs)
    ensures var r := Outcome(shape, Collapsed(fileCoords, xs), Savings(Groups(xs)), fileCoords, setup);
            (r.None? ==> IsTight(xs)) && (IsTight(xs) && StrategyFor(shape).HeadAndTail? ==> r.None?)
  {
    SavingsMeanTriple(xs);
    NothingCollapsed(xs, fileCoords);
    OutcomeIsNone(shape, Collapsed(fileCoords, xs), Savings(Groups(xs)), fileCoords, setup);
  }

  lemma NothingCollapsed(xs: seq<SLine>, fileCoords: bool)
    requires FromText(xs)
    ensures Savings(Groups(xs)) == 0 ==> |Collapsed(fileCoords, xs)| == |xs|
  {
    assert NoAnnotations(xs);
    CollapseConserves(fileCoords, xs);
    Conservation.CollapseShortens(xs, fileCoords);
  }

  lemma OutcomeIsNone(shape: Shape, out: seq<SLine>, collapsed: nat, fileCoords: bool, setup: Setup)
    requires setup.cap >= 1
    ensures Outcome(shape, out, collapsed, fileCoords, setup).None? <==>
              collapsed == 0 && |out| <= HEAD_LINES + TAIL_LINES &&
              ApplyStrategy(StrategyFor(shape), out, fileCoords, setup).None?
  {
  }

  /** Number of lines of a text. */
  function LineCount(text: string): nat {
    |Split(text, '\n')|
  }

  /** A collapsed or structural body has fewer lines than there were; head and tail shows 29. */
  predicate Shorter(s: Strategy, body: string, n: nat, lines: string -> nat) {
    (s.HeadAndTail? ==> lines(body) == 29 <= n) && (s.Dedup? || s.StructuralIndex? ==> lines(body) < n)
  }

  lemma RenderingShortens(text: string, f: Features, setup: Setup)
    requires setup.cap >= 1 && RenderedAs(text, f, setup).Some?
    ensures var r := RenderedAs(text, f, setup).value; Shorter(r.meta.strategy, r.body, LineCount(text), LineCount)
  {
    SlinesOfText(text);
    OutcomeShortens(ToSlines(Normalize.NormalizedOf(text), text), Normalize.NormalizedOf(text).fileCoords,
      Classify(text, f, setup.Parses), setup);
  }

  /** An answer that is an outline is that of the value the collapsed text parses as, in at most 907 bytes. */
  lemma OutlinesAreShort(text: string, f: Features, setup: Setup)
    requires setup.cap >= 1
    requires RenderedAs(text, f, setup).Some? && RenderedAs(text, f, setup).value.meta.strategy == JsonSkeleton
    ensures var v, body := setup.parse(Trim(Body(OutOf(text)))), RenderedAs(text, f, setup).value.body;
            v.Some? && body == BodyOf(v.value) && Utf8.Size(body) <= 907
  {
    OutlineChosen(Classify(text, f, setup.Parses), OutOf(text), CollapsedOf(text),
      Normalize.NormalizedOf(text).fileCoords, setup);
  }

  lemma OutlineChosen(shape: Shape, out: seq<SLine>, collapsed: nat, fileCoords: bool, setup: Setup)
    requires setup.cap >= 1
    ensures var r, v := Outcome(shape, out, collapsed, fileCoords, setup), setup.parse(Trim(Body(out)));
            r.Some? && r.value.strategy == JsonSkeleton ==>
              v.Some? && r.value.body == BodyOf(v.value) && Utf8.Size(r.value.body) <= 907
  {
    if setup.parse(Trim(Body(out))).Some? {
      OutlineIsShort(setup.parse(Trim(Body(out))).value);
    }
  }

  lemma OutcomeShortens(xs: seq<SLine>, fileCoords: bool, shape: Shape, setup: Setup)
    requires setup.cap >= 1 && FromText(xs)
    ensures var r := Outcome(shape, Collapsed(fileCoords, xs), Savings(Groups(xs)), fileCoords, setup);
            AllShorter(r, |xs|, LineCount)
  {
    var out := Collapsed(fileCoords, xs);
    DedupLineCount(xs, fileCoords);
    LossyShortens(xs, fileCoords, shape, setup);
    OutcomeIsShorter(shape, out, Savings(Groups(xs)), fileCoords, setup, |xs|, LineCount);
  }

  lemma OutcomeIsShorter(shape: Shape, out: seq<SLine>, collapsed: nat, fileCoords: bool, setup: Setup,
    n: nat, lines: string -> nat)
    requires setup.cap >= 1 && AllShorter(Lossy(shape, out, fileCoords, setup), n, lines)
    requires collapsed > 0 ==> lines(Body(out)) < n
    ensures AllShorter(Outcome(shape, out, collapsed, fileCoords, setup), n, lines)
  {
    SettleShortens(collapsed > 0, setup.count(Body(out)) < setup.floor, Deduped(out, collapsed),
      Lossy(shape, out, fileCoords, setup), n, lines);
  }

  predicate AllShorter(r: Option<Choice>, n: nat, lines: string -> nat) {
    r.Some? ==> Shorter(r.value.strategy, r.value.body, n, lines)
  }

  lemma SettleShortens(hasDedup: bool, enough: bool, deduped: Choice, lossy: Option<Choice>,
    n: nat, lines: string -> nat)
    requires hasDedup ==> Shorter(deduped.strategy, deduped.body, n, lines)
    requires AllShorter(lossy, n, lines)
    ensures AllShorter(Settle(hasDedup, enough, deduped, lossy), n, lines)
  {
  }

  lemma LossyShortens(xs: seq<SLine>, fileCoords: bool, shape: Shape, setup: Setup)
    requires setup.cap >= 1 && FromText(xs)
    ensures AllShorter(Lossy(shape, Collapsed(fileCoords, xs), fileCoords, setup), |xs|, LineCount)
  {
    var out := Collapsed(fileCoords, xs);
    HeadTailLineCount(xs, fileCoords);
    FirstShortens(xs, fileCoords, shape, setup);
    PickShortens(StrategyFor(shape), ApplyStrategy(StrategyFor(shape), out, fileCoords, setup),
      HeadTail(out, fileCoords), |xs|, LineCount);
  }

  lemma FirstShortens(xs: seq<SLine>, fileCoords: bool, shape: Shape, setup: Setup)
    requires setup.cap >= 1 && FromText(xs)
    ensures var first := ApplyStrategy(StrategyFor(shape), Collapsed(fileCoords, xs), fileCoords, setup);
            first.Some? ==> Shorter(StrategyFor(shape), first.value.body, |xs|, LineCount)
  {
    match StrategyFor(shape)
    case StructuralIndex => StructuralLineCount(xs, fileCoords, setup.cap);
    case HeadAndTail => HeadTailLineCount(xs, fileCoords);
    case _ =>
  }

  lemma PickShortens(s: Strategy, first: Option<Applied>, second: Option<Applied>, n: nat, lines: string -> nat)
    requires first.Some? ==> Shorter(s, first.value.body, n, lines) && !s.Dedup?
    requires second.Some? ==> lines(second.value.body) == 29 <= n
    ensures AllShorter(Pick(s, first, second), n, lines)
  {
  }

  lemma DedupLineCount(xs: seq<SLine>, fileCoords: bool)
    requires FromText(xs)
    ensures Savings(Groups(xs)) > 0 ==> LineCount(Body(Collapsed(fileCoords, xs))) < |xs|
  {
    if Savings(Groups(xs)) > 0 {
      BodyIsLines(xs, fileCoords);
    }
  }

  lemma StructuralLineCount(xs: seq<SLine>, fileCoords: bool, cap: nat)
    requires FromText(xs) && cap >= 1
    ensures var r := Structural(Collapsed(fileCoords, xs), fileCoords, cap);
            r.Some? ==> LineCount(r.value.body) < |xs|
  {
    Conservation.AccountsForLines(xs, fileCoords, cap);
  }

  lemma HeadTailLineCount(xs: seq<SLine>, fileCoords: bool)
    requires FromText(xs)
    ensures var r := HeadTail(Collapsed(fileCoords, xs), fileCoords);
            r.Some? ==> LineCount(r.value.body) == 29 <= |xs|
  {
    var out := Collapsed(fileCoords, xs);
    if |out| > HEAD_LINES + TAIL_LINES {
      var items := HeadTailItems(|out|);
      Conservation.CollapsedOneLine(fileCoords, xs);
      Conservation.CollapseShortens(xs, fileCoords);
      HeadTailIsIndex(out, fileCoords);
      Conservation.TextsOneLine(out, fileCoords, items);
      SplitJoin(Texts(out, fileCoords, items), '\n');
    }
  }
}
