/** Which shape a text has and which strategy answers it, told from its lines. */
module ShapeRules {
  import opened Options
  import opened Text
  import opened Lines
  import opened Elision
  import opened Features
  import opened Skeleton
  import opened Pipeline
  import Deviation
  import Normalize
  import Utf8

  // ----- what the rules look at

  /** The indents deviate by one and a half or more: n² times the variance is at least 9/4 n². */
  ghost predicate Deviates(seen: seq<string>) {
    seen != [] && 9 * (|seen| * |seen|) <= 4 * Deviation.Spread(Indents(seen))
  }

  /** What lines begin with, trimmed: twelve characters at most. */
  ghost function Beginnings(seen: seq<string>): set<string> {
    set t | t in seen :: if |Trim(t)| <= 12 then Trim(t) else Trim(t)[..12]
  }

  ghost function Contents(seen: seq<string>): set<string> {
    set t | t in seen :: Trim(t)
  }

  /** At most half of the lines, 50 percent and a fraction to be exact, begin differently. */
  ghost predicate BeginAlike(seen: seq<string>) {
    1000 * |Beginnings(seen)| < 501 * |seen|
  }

  /** At least 95 percent of the lines are different. */
  ghost predicate MostlyDifferent(seen: seq<string>) {
    seen != [] && 1000 * |Contents(seen)| >= 950 * |seen|
  }

  /** A few lines with much on them. */
  predicate FewLongLines(seen: seq<string>, text: string) {
    |seen| <= 3 && |text| > 600
  }

  predicate IsJson(text: string, parses: string -> bool) {
    var t := Trim(text);
    Utf8.Size(text) <= 5_242_880 && t != "" && t[0] in "{[" && t[|t| - 1] in "}]" && parses(t)
  }

  // ----- the measured numbers

  lemma {:induction false} ShareAtMost(k: nat, n: nat)
    requires k <= n && n > 0
    ensures Share(k, n) <= 500 <==> 1000 * k < 501 * n
    ensures Share(k, n) >= 950 <==> 1000 * k >= 950 * n
  {
    DivisionBound(1000 * k, n, 501);
    DivisionBound(1000 * k, n, 950);
  }

  lemma {:induction false} DivisionBound(a: nat, n: nat, q: nat)
    requires n > 0
    ensures a / n >= q <==> a >= q * n
  {
    var d, r := a / n, a % n;
    assert a == d * n + r && 0 <= r < n;
    if d >= q {
      Deviation.MulGrows(n, q, d);
    } else {
      Deviation.MulGrows(n, d + 1, q);
      Deviation.Distribute(d, 1, n);
    }
  }

  lemma {:induction false} PrefixesAre(seen: seq<string>)
    ensures Prefixes(Trimmed(seen)) == Beginnings(seen) && Uniques(Trimmed(seen)) == Contents(seen)
  {
    var ts := Trimmed(seen);
    forall p ensures p in Prefixes(ts) <==> p in Beginnings(seen) {
      if t :| t in ts && Head(t) == p {
        var i :| 0 <= i < |ts| && ts[i] == t;
        assert seen[i] in seen;
      }
      if t :| t in seen && (if |Trim(t)| <= 12 then Trim(t) else Trim(t)[..12]) == p {
        var i :| 0 <= i < |seen| && seen[i] == t;
        assert ts[i] in ts && Head(ts[i]) == p;
      }
    }
    forall u ensures u in Uniques(ts) <==> u in Contents(seen) {
      if u in ts {
        var i :| 0 <= i < |ts| && ts[i] == u;
        assert seen[i] in seen;
      }
      if t :| t in seen && Trim(t) == u {
        var i :| 0 <= i < |seen| && seen[i] == t;
        assert ts[i] == u;
      }
    }
  }

  lemma {:induction false} RatiosMean(f: Features, seen: seq<string>, total: nat, chars: nat)
    requires |seen| <= total && Measures(f, seen, total, chars)
    ensures f.prefixRep >= 500 <==> BeginAlike(seen)
    ensures f.uniqueRatio >= 950 <==> MostlyDifferent(seen)
  {
    if seen != [] {
      PrefixesAre(seen);
      var ts := Trimmed(seen);
      HeadsAreFewer(ts);
      UniquesAreFewer(ts);
      ShareAtMost(|Prefixes(ts)|, |ts|);
      ShareAtMost(|Uniques(ts)|, |ts|);
    }
  }

  lemma {:induction false} DeviationMeans(f: Features, seen: seq<string>, total: nat, chars: nat)
    requires |seen| <= total <= 1_000_000 && Measures(f, seen, total, chars)
    ensures f.indentSd >= 1500 <==> Deviates(seen)
  {
    if |seen| >= 2 {
      NestingIsExact(f, seen, total, chars);
    } else if |seen| == 1 {
      OneHasNoSpread(Indents(seen));
    }
  }

  lemma {:induction false} OneHasNoSpread(vs: seq<nat>)
    requires |vs| == 1
    ensures Deviation.Spread(vs) == 0
  {
    assert vs[..0] == [];
    assert Deviation.Sum(vs) == vs[0] && Deviation.SumSq(vs) == vs[0] * vs[0];
  }

  // ----- the shape

  /** The rules, each told when exactly its shape is the answer. */
  ghost predicate ShapeFollows(shape: Shape, seen: seq<string>, text: string, parses: string -> bool) {
    if FewLongLines(seen, text) then shape == if IsJson(text, parses) then Structured else Monolithic
    else
      (shape == Nested <==> Deviates(seen)) &&
      (shape == Repetitive <==> !Deviates(seen) && BeginAlike(seen)) &&
      (shape == FlatUnique <==> !Deviates(seen) && !BeginAlike(seen) && MostlyDifferent(seen)) &&
      (shape == Unknown <==> !Deviates(seen) && !BeginAlike(seen) && !MostlyDifferent(seen))
  }

  lemma {:induction false} ShapeIs(f: Features, seen: seq<string>, total: nat, text: string, parses: string -> bool)
    requires |seen| <= total <= 1_000_000 && Measures(f, seen, total, |text|)
    ensures ShapeFollows(Classify(text, f, parses), seen, text, parses)
  {
    SizesMean(f, seen, total, |text|);
    DeviationMeans(f, seen, total, |text|);
    RatiosMean(f, seen, total, |text|);
    StructureMeans(text, parses);
    RulesDecide(f, seen, text, parses);
  }

  lemma {:induction false} SizesMean(f: Features, seen: seq<string>, total: nat, chars: nat)
    requires |seen| <= total <= 1_000_000 && Measures(f, seen, total, chars)
    ensures f.nonblank == |seen| && (f.chars > 600 <==> chars > 600)
  {
  }

  /** The first rule that holds decides. */
  lemma {:induction false} RulesDecide(f: Features, seen: seq<string>, text: string, parses: string -> bool)
    requires f.nonblank <= 3 && f.chars > 600 <==> FewLongLines(seen, text)
    requires LooksStructured(text, parses) <==> IsJson(text, parses)
    requires f.indentSd >= 1500 <==> Deviates(seen)
    requires f.prefixRep >= 500 <==> BeginAlike(seen)
    requires f.uniqueRatio >= 950 <==> MostlyDifferent(seen)
    ensures ShapeFollows(Classify(text, f, parses), seen, text, parses)
  {
  }

  lemma {:induction false} StructureMeans(text: string, parses: string -> bool)
    ensures LooksStructured(text, parses) <==> IsJson(text, parses)
  {
  }

  /** From the text: the shape in the decision log of an answer follows the rules. */
  lemma {:induction false} ShapeOfText(text: string, f: Features, setup: Setup)
    requires setup.cap >= 1 && |Split(text, '\n')| <= 1_000_000 && MeasuresText(f, text)
    ensures ShapeFollows(Classify(text, f, setup.Parses), SeenIn(text), text, setup.Parses)
    ensures var r := RenderedAs(text, f, setup);
            r.Some? ==> ShapeFollows(r.value.meta.shape, SeenIn(text), text, setup.Parses)
  {
    Normalize.LineCountIsKept(text);
    ShapeIs(f, SeenIn(text), |Normalize.NormalizedOf(text).lines|, text, setup.Parses);
  }

  // ----- the strategy

  /** What the strategy for the shape makes of the lines. */
  ghost function OwnAnswer(shape: Shape, out: seq<SLine>, fileCoords: bool, setup: Setup): Option<Applied>
    requires setup.cap >= 1
  {
    match shape
    case Nested => Structural(out, fileCoords, setup.cap)
    case Structured => Outlined(out, setup.parse)
    case Monolithic => CharWindow(out)
    case Repetitive => HeadTail(out, fileCoords)
    case FlatUnique => HeadTail(out, fileCoords)
    case Unknown => HeadTail(out, fileCoords)
  }

  predicate OwnName(shape: Shape, strategy: Strategy) {
    match shape
    case Nested => strategy == StructuralIndex
    case Structured => strategy == JsonSkeleton
    case Monolithic => strategy == CharacterWindow
    case _ => strategy == HeadAndTail
  }

  /** The answer: the collapsed text if something collapsed and that is below the floor; else what the
      strategy of the shape makes of it, if it applies; else head and tail of more than 28 lines; else the
      collapsed text if anything collapsed; and otherwise none. */
  ghost predicate AnswerFollows(r: Option<Rendered>, shape: Shape, out: seq<SLine>, collapsed: nat, fileCoords: bool,
    setup: Setup)
    requires setup.cap >= 1
  {
    var own := OwnAnswer(shape, out, fileCoords, setup);
    if collapsed > 0 && setup.count(Body(out)) < setup.floor then
      r.Some? && r.value.meta.strategy == Dedup && r.value.body == Body(out)
    else if own.Some? then
      r.Some? && OwnName(shape, r.value.meta.strategy) && r.value.body == own.value.body &&
      r.value.meta.ranges == own.value.ranges
    else if |out| > 28 then
      r.Some? && r.value.meta.strategy == HeadAndTail && HeadTail(out, fileCoords).Some? &&
      r.value.body == HeadTail(out, fileCoords).value.body
    else if collapsed > 0 then r.Some? && r.value.meta.strategy == Dedup && r.value.body == Body(out)
    else r.None?
  }

  lemma {:induction false} AnswerIs(text: string, f: Features, setup: Setup)
    requires setup.cap >= 1
    ensures AnswerFollows(RenderedAs(text, f, setup), Classify(text, f, setup.Parses), OutOf(text),
              CollapsedOf(text), Normalize.NormalizedOf(text).fileCoords, setup)
  {
    ChoiceFollows(Classify(text, f, setup.Parses), OutOf(text), CollapsedOf(text),
      Normalize.NormalizedOf(text).fileCoords, setup, f, Normalize.NormalizedOf(text));
  }

  lemma {:induction false} ChoiceFollows(
    shape: Shape, out: seq<SLine>, collapsed: nat, fileCoords: bool, setup: Setup, f: Features,
    norm: Normalize.Normalized)
    requires setup.cap >= 1
    ensures var c := Outcome(shape, out, collapsed, fileCoords, setup);
            AnswerFollows(if c.Some? then Some(Describe(c.value, shape, f, norm)) else None, shape, out, collapsed,
              fileCoords, setup)
  {
    OwnIsApplied(shape, out, fileCoords, setup);
    WhenTheyApply(out, fileCoords);
    LossyFollows(shape, out, fileCoords, setup);
  }

  lemma {:induction false} OwnIsApplied(shape: Shape, out: seq<SLine>, fileCoords: bool, setup: Setup)
    requires setup.cap >= 1
    ensures ApplyStrategy(StrategyFor(shape), out, fileCoords, setup) == OwnAnswer(shape, out, fileCoords, setup)
    ensures OwnName(shape, StrategyFor(shape))
  {
  }

  lemma {:induction false} LossyFollows(shape: Shape, out: seq<SLine>, fileCoords: bool, setup: Setup)
    requires setup.cap >= 1
    ensures var own, all := OwnAnswer(shape, out, fileCoords, setup), HeadTail(out, fileCoords);
            Lossy(shape, out, fileCoords, setup) ==
              if own.Some? then Some(Choice(own.value.body, StrategyFor(shape), own.value.ranges))
              else if all.Some? then Some(Choice(all.value.body, HeadAndTail, all.value.ranges)) else None
  {
    OwnIsApplied(shape, out, fileCoords, setup);
  }

  /** When the strategies that leave lines or characters out apply. */
  lemma {:induction false} WhenTheyApply(out: seq<SLine>, fileCoords: bool)
    ensures HeadTail(out, fileCoords).Some? <==> |out| > 28
    ensures CharWindow(out).Some? <==> |Body(out)| > 600
  {
  }
}
