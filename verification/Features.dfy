/** What is measured on a normalised block, in thousandths, and the shape read off from it. */
module Features {
  import opened Numbers
  import opened Options
  import opened Text
  import opened Normalize
  import Utf8
  import Deviation

  const INDENT_CLAMP: nat := 400
  const LENGTH_CLAMP: nat := 4000
  const PREFIX_CHARS: nat := 12
  const U32_MAX: nat := Deviation.U32_LIMIT - 1

  datatype Features = Features(
    indentSd: nat, prefixRep: nat, uniqueRatio: nat, bracketBalance: nat, bracketDensity: nat,
    lineLenSd: nat, blankRatio: nat, nonblank: nat, chars: nat)

  /** Bytes of white space in front of the content. */
  function IndentOf(content: string): (n: nat)
    ensures n <= INDENT_CLAMP
  {
    Min(Utf8.Size(content[..|content| - |TrimStart(content)|]), INDENT_CLAMP)
  }

  /** The contents of the lines with something to see. */
  function Seen(lines: seq<NLine>): (ts: seq<string>)
    ensures |ts| <= |lines|
  {
    if lines == [] then []
    else Seen(lines[..|lines| - 1]) + (if Blank(lines[|lines| - 1].content) then [] else [lines[|lines| - 1].content])
  }

  function Indents(seen: seq<string>): seq<nat> {
    seq(|seen|, i requires 0 <= i < |seen| => IndentOf(seen[i]))
  }

  function Lengths(seen: seq<string>): seq<nat> {
    seq(|seen|, i requires 0 <= i < |seen| => Min(|seen[i]|, LENGTH_CLAMP))
  }

  /** What is compared: the lines without white space around them. */
  function Trimmed(seen: seq<string>): seq<string> {
    seq(|seen|, i requires 0 <= i < |seen| => Trim(seen[i]))
  }

  function Uniques(ts: seq<string>): set<string> {
    set t | t in ts
  }

  function Head(t: string): string {
    if |t| <= PREFIX_CHARS then t else t[..PREFIX_CHARS]
  }

  function Prefixes(ts: seq<string>): set<string> {
    set t | t in ts :: Head(t)
  }

  /** `k` of `n` in thousandths, rounded down. */
  function Share(k: nat, n: nat): (r: nat)
    requires k <= n && n > 0
    ensures r <= 1000
  {
    ShareIsSmall(k, n);
    1000 * k / n
  }

  function PrefixShare(ts: seq<string>): (r: nat)
    requires ts != []
    ensures r <= 1000
  {
    HeadsAreFewer(ts);
    Share(|Prefixes(ts)|, |ts|)
  }

  function UniqueShare(ts: seq<string>): (r: nat)
    requires ts != []
    ensures r <= 1000
  {
    UniquesAreFewer(ts);
    Share(|Uniques(ts)|, |ts|)
  }

  predicate Opens(c: char) {
    c == '(' || c == '{' || c == '['
  }

  predicate Closes(c: char) {
    c == ')' || c == '}' || c == ']'
  }

  function Count(t: string, p: char -> bool): nat {
    if t == [] then 0 else Count(t[..|t| - 1], p) + if p(t[|t| - 1]) then 1 else 0
  }

  function CountAll(ts: seq<string>, p: char -> bool): nat {
    if ts == [] then 0 else CountAll(ts[..|ts| - 1], p) + Count(ts[|ts| - 1], p)
  }

  function Distance(a: nat, b: nat): nat {
    if a >= b then a - b else b - a
  }

  /** How much of the bracketing closes, in thousandths. */
  function Balance(open: nat, close: nat): (r: nat)
    ensures r <= 1000
  {
    if open + close == 0 then 1000 else 1000 - Share(Distance(open, close), open + close)
  }

  function Density(brackets: nat, n: nat): nat
    requires n > 0
  {
    Min(brackets * 1000 / n, U32_MAX)
  }

  /** `f` holds the statistics of a block of `total` lines of which one sees `seen`. Their number is
      kept in 32 bits. */
  ghost predicate Measures(f: Features, seen: seq<string>, total: nat, chars: nat)
    requires |seen| <= total
  {
    f.chars == Min(chars, U32_MAX) && f.nonblank == |seen| % Deviation.U32_LIMIT &&
    if seen == [] then f == Features(0, 0, 0, 0, 0, 0, 1000, 0, f.chars)
    else
      MeasuresWidths(f, seen) && MeasuresTexts(f, Trimmed(seen)) &&
      f.blankRatio == Share(total - |seen|, total)
  }

  ghost predicate MeasuresWidths(f: Features, seen: seq<string>) {
    Deviation.IsSd(Indents(seen), f.indentSd) && Deviation.IsSd(Lengths(seen), f.lineLenSd)
  }

  ghost predicate MeasuresTexts(f: Features, ts: seq<string>)
    requires ts != []
  {
    var open, close := CountAll(ts, Opens), CountAll(ts, Closes);
    f.prefixRep == 1000 - PrefixShare(ts) && f.uniqueRatio == UniqueShare(ts) &&
    f.bracketBalance == Balance(open, close) && f.bracketDensity == Density(open + close, |ts|)
  }

  // ----- the measuring loops

  method CountBrackets(t: string, open0: nat, close0: nat) returns (open: nat, close: nat)
    ensures open == open0 + Count(t, Opens) && close == close0 + Count(t, Closes)
  {
    open, close := open0, close0;
    for i := 0 to |t|
      invariant open == open0 + Count(t[..i], Opens) && close == close0 + Count(t[..i], Closes)
    {
      assert t[..i + 1][..i] == t[..i];
      if Opens(t[i]) {
        open := open + 1;
      } else if Closes(t[i]) {
        close := close + 1;
      }
    }
    assert t[..|t|] == t;
  }

  lemma OneMoreText(ts: seq<string>, i: nat)
    requires i < |ts|
    ensures Uniques(ts[..i + 1]) == Uniques(ts[..i]) + {ts[i]}
    ensures Prefixes(ts[..i + 1]) == Prefixes(ts[..i]) + {Head(ts[i])}
  {
    assert ts[..i + 1] == ts[..i] + [ts[i]];
  }

  lemma OneMoreCount(ts: seq<string>, i: nat, p: char -> bool)
    requires i < |ts|
    ensures CountAll(ts[..i + 1], p) == CountAll(ts[..i], p) + Count(ts[i], p)
  {
    assert ts[..i + 1][..i] == ts[..i];
  }

  method Survey(ts: seq<string>) returns (prefixes: set<string>, uniques: set<string>, open: nat, close: nat)
    ensures prefixes == Prefixes(ts) && uniques == Uniques(ts)
    ensures open == CountAll(ts, Opens) && close == CountAll(ts, Closes)
  {
    prefixes, uniques, open, close := {}, {}, 0, 0;
    for i := 0 to |ts|
      invariant prefixes == Prefixes(ts[..i]) && uniques == Uniques(ts[..i])
      invariant open == CountAll(ts[..i], Opens) && close == CountAll(ts[..i], Closes)
    {
      OneMoreText(ts, i);
      OneMoreCount(ts, i, Opens);
      OneMoreCount(ts, i, Closes);
      prefixes := prefixes + {Head(ts[i])};
      uniques := uniques + {ts[i]};
      open, close := CountBrackets(ts[i], open, close);
    }
    assert ts[..|ts|] == ts;
  }

  method MeasureTexts(ts: seq<string>) returns (prefixRep: nat, uniqueRatio: nat, balance: nat, density: nat)
    requires ts != []
    ensures MeasuresTexts(Features(0, prefixRep, uniqueRatio, balance, density, 0, 0, 0, 0), ts)
  {
    var prefixes, uniques, open, close := Survey(ts);
    HeadsAreFewer(ts);
    prefixRep := 1000 - Share(|prefixes|, |ts|);
    uniqueRatio := Share(|uniques|, |ts|);
    balance, density := Balance(open, close), Density(open + close, |ts|);
  }

  /** The statistics of a block; none where the deviation panics. */
  method Extract(lines: seq<NLine>, chars: nat) returns (r: Option<Features>)
    requires |lines| < U64_LIMIT
    ensures r.None? <==> |Seen(lines)| >= 2 && |Seen(lines)| % Deviation.U32_LIMIT == 0
    ensures r.Some? ==> Measures(r.value, Seen(lines), |lines|, chars)
  {
    r := Measure(Seen(lines), |lines|, chars);
  }

  method Measure(seen: seq<string>, total: nat, chars: nat) returns (r: Option<Features>)
    requires |seen| <= total < U64_LIMIT
    ensures r.None? <==> |seen| >= 2 && |seen| % Deviation.U32_LIMIT == 0
    ensures r.Some? ==> Measures(r.value, seen, total, chars)
  {
    if seen == [] {
      return Some(Features(0, 0, 0, 0, 0, 0, 1000, 0, Min(chars, U32_MAX)));
    }
    var prefixRep, uniqueRatio, balance, density := MeasureTexts(Trimmed(seen));
    var indentSd := Deviation.SdMilli(Indents(seen));
    var lineLenSd := Deviation.SdMilli(Lengths(seen));
    if indentSd.None? || lineLenSd.None? {
      return None;
    }
    r := Some(Features(indentSd.value, prefixRep, uniqueRatio, balance, density, lineLenSd.value,
      Share(total - |seen|, total), |seen| % Deviation.U32_LIMIT, Min(chars, U32_MAX)));
  }

  // ----- bounds

  lemma ShareIsSmall(k: nat, n: nat)
    requires k <= n && n > 0
    ensures 1000 * k / n <= 1000 && (1000 * k / n == 1000 <==> k == n)
  {
    var q := 1000 * k / n;
    Deviation.QuotientIs(1000 * k, n);
    if q >= 1000 {
      Deviation.MulGrows(n, 1000, q);
    } else {
      Deviation.MulGrows(n, q + 1, 1000);
      Deviation.Distribute(q, 1, n);
    }
    if q > 1000 {
      Deviation.MulGrows(n, 1001, q);
    }
  }

  lemma ShareGrows(j: nat, k: nat, n: nat)
    requires j <= k && n > 0
    ensures 1000 * j / n <= 1000 * k / n
  {
    assert 1000 * j <= 1000 * k;
    Deviation.QuotientIs(1000 * j, n);
    Deviation.QuotientIs(1000 * k, n);
    if 1000 * j / n > 1000 * k / n {
      Deviation.MulGrows(n, 1000 * k / n + 1, 1000 * j / n);
      Deviation.Distribute(1000 * k / n, 1, n);
    }
  }

  ghost function Image(s: set<string>, f: string -> string): set<string> {
    set t | t in s :: f(t)
  }

  lemma {:induction false} ImageIsFewer(s: set<string>, f: string -> string)
    ensures |Image(s, f)| <= |s|
  {
    if x :| x in s {
      ImageIsFewer(s - {x}, f);
      assert Image(s, f) == Image(s - {x}, f) + {f(x)};
    }
  }

  ghost predicate Distinct(ts: seq<string>) {
    forall i, j :: 0 <= i < j < |ts| ==> ts[i] != ts[j]
  }

  lemma {:induction false} UniquesAreFewer(ts: seq<string>)
    ensures |Uniques(ts)| <= |ts| && (|Uniques(ts)| == |ts| <==> Distinct(ts))
  {
    if ts != [] {
      var n := |ts| - 1;
      OneMoreText(ts, n);
      assert ts[..n + 1] == ts;
      UniquesAreFewer(ts[..n]);
      if ts[n] in ts[..n] {
        assert Uniques(ts) == Uniques(ts[..n]);
      }
      DistinctStep(ts);
    }
  }

  lemma DistinctStep(ts: seq<string>)
    requires ts != []
    ensures Distinct(ts) <==> Distinct(ts[..|ts| - 1]) && ts[|ts| - 1] !in ts[..|ts| - 1]
  {
  }

  /** The prefix is a function of the trimmed line, so there are no more prefixes than lines. */
  lemma HeadsAreFewer(ts: seq<string>)
    ensures |Prefixes(ts)| <= |Uniques(ts)| <= |ts|
  {
    UniquesAreFewer(ts);
    ImageIsFewer(Uniques(ts), Head);
    assert Prefixes(ts) == Image(Uniques(ts), Head);
  }

  lemma SharesOverlap(ts: seq<string>)
    requires ts != []
    ensures PrefixShare(ts) <= UniqueShare(ts) && (UniqueShare(ts) == 1000 <==> Distinct(ts))
  {
    HeadsAreFewer(ts);
    UniquesAreFewer(ts);
    ShareGrows(|Prefixes(ts)|, |Uniques(ts)|, |ts|);
    ShareIsSmall(|Uniques(ts)|, |ts|);
  }

  /** The ratios are thousandths, and a block with something to see repeats its prefixes at least
      as far as it repeats its lines. */
  lemma FeatureBounds(f: Features, seen: seq<string>, total: nat, chars: nat)
    requires |seen| <= total && Measures(f, seen, total, chars)
    ensures f.prefixRep <= 1000 && f.uniqueRatio <= 1000 && f.bracketBalance <= 1000 && f.blankRatio <= 1000
    ensures f.nonblank > 0 ==> f.prefixRep + f.uniqueRatio >= 1000
    ensures f.nonblank == 0 ==> f.blankRatio == 1000
    ensures f.chars <= chars && f.nonblank <= total
  {
    NonblankIsHonest(f, seen, total, chars);
    if seen != [] {
      SharesOverlap(Trimmed(seen));
    }
  }

  /** The 32-bit count is zero only for a block with nothing to see: the numbers of lines that would
      wrap to zero are those the deviation panics on. */
  lemma NonblankIsHonest(f: Features, seen: seq<string>, total: nat, chars: nat)
    requires |seen| <= total && Measures(f, seen, total, chars)
    ensures f.nonblank == 0 <==> seen == []
    ensures total < Deviation.U32_LIMIT ==> f.nonblank == |seen|
  {
    if seen != [] {
      CountedLines(f, seen);
    }
  }

  lemma CountedLines(f: Features, seen: seq<string>)
    requires seen != [] && MeasuresWidths(f, seen)
    ensures |seen| % Deviation.U32_LIMIT != 0
  {
    Deviation.SquareWraps(|Indents(seen)|);
  }

  /** A thousand thousandths of unique lines means that no two of them are equal. */
  lemma AllUnique(f: Features, seen: seq<string>, total: nat, chars: nat)
    requires |seen| <= total && Measures(f, seen, total, chars) && f.nonblank > 0
    ensures f.uniqueRatio == 1000 <==> Distinct(Trimmed(seen))
  {
    SharesOverlap(Trimmed(seen));
  }

  /** Values no larger than `m` deviate by at most half of it. */
  lemma DeviationIsBounded(values: seq<nat>, m: nat, r: nat)
    requires |values| >= 2 && Deviation.IsCappedDeviation(values, r)
    requires forall i :: 0 <= i < |values| ==> values[i] <= m
    ensures r <= 500 * m
  {
    SpreadOfBounded(values, m);
    if r > 500 * m {
      LargerSquare(r, 500 * m, |values|);
    }
  }

  lemma SpreadOfBounded(values: seq<nat>, m: nat)
    requires forall i :: 0 <= i < |values| ==> values[i] <= m
    ensures 1_000_000 * Deviation.Spread(values) <= 500 * m * (500 * m) * (|values| * |values|)
  {
    SquaresBelow(values, m);
    SpreadIsBounded(|values|, m, Deviation.Sum(values), Deviation.SumSq(values));
  }

  /** Few enough values up to `m` leave the scaled spread inside 64 bits. */
  lemma ScaledSpreadFits(values: seq<nat>, m: nat)
    requires |values| * m < 8_589_934 && forall i :: 0 <= i < |values| ==> values[i] <= m
    ensures Deviation.MILLION * Deviation.Spread(values) < U64_LIMIT
  {
    SpreadOfBounded(values, m);
    SquareOfProduct(|values|, m);
    Deviation.SquareGrows(|values| * m, 8_589_933);
  }

  /** The spread of values up to `m` is at most a quarter of (n m)². */
  lemma SpreadIsBounded(n: nat, m: nat, s: nat, q: nat)
    requires q <= m * s
    ensures 1_000_000 * (n * q - s * s) <= 500 * m * (500 * m) * (n * n)
  {
    var b := n * m;
    Deviation.MulGrows(n, q, m * s);
    assert n * (m * s) == b * s;
    Deviation.SquareOfDifference(b, 2 * s);
    assert b * (2 * s) == 2 * (b * s) && 2 * s * (2 * s) == 4 * (s * s);
    SquareOfProduct(n, m);
  }

  lemma SquareOfProduct(n: nat, m: nat)
    ensures 500 * m * (500 * m) * (n * n) == 250_000 * (n * m * (n * m))
  {
  }

  lemma LargerSquare(r: nat, k: nat, n: nat)
    requires r > k && n > 0
    ensures r * r * (n * n) > k * k * (n * n)
  {
    Deviation.SquareGrows(k + 1, r);
    Deviation.SquareOfSum(k, 1);
    Deviation.SquareGrows(1, n);
    Deviation.MulGrows(n * n, k * k + 1, r * r);
    Deviation.Distribute(k * k, 1, n * n);
  }

  lemma {:induction false} SquaresBelow(values: seq<nat>, m: nat)
    requires forall i :: 0 <= i < |values| ==> values[i] <= m
    ensures Deviation.SumSq(values) <= m * Deviation.Sum(values)
  {
    if values != [] {
      var n := |values| - 1;
      SquaresBelow(values[..n], m);
      Deviation.MulGrows(values[n], values[n], m);
      Deviation.Distribute(Deviation.Sum(values[..n]), values[n], m);
    }
  }

  /** The deviation of clamped values, whatever the last product does. */
  lemma ClampedDeviation(values: seq<nat>, clamp: nat, r: nat)
    requires 2 <= |values| <= 1_000_000 && Deviation.IsSd(values, r) && clamp <= 4000
    requires forall i :: 0 <= i < |values| ==> values[i] <= clamp
    ensures Deviation.IsCappedDeviation(values, r) && r <= 500 * clamp
    ensures |values| * clamp < 8_589_934 ==> Deviation.IsDeviation(values, r)
  {
    Deviation.ClampsFit(values);
    Deviation.RootIsDeviation(values, r);
    DeviationIsBounded(values, clamp, r);
    if |values| * clamp < 8_589_934 {
      ScaledSpreadFits(values, clamp);
    }
  }

  /** Up to a million lines the deviation of the indents is exact but for the cap on the scaled
      spread, which cannot bind up to 21474 lines. */
  lemma IndentsAreExact(f: Features, seen: seq<string>, total: nat, chars: nat)
    requires 2 <= |seen| <= total <= 1_000_000 && Measures(f, seen, total, chars)
    ensures Deviation.IsCappedDeviation(Indents(seen), f.indentSd) && f.indentSd <= 200_000
    ensures |seen| <= 21_474 ==> Deviation.IsDeviation(Indents(seen), f.indentSd)
  {
    IndentDeviation(seen, f.indentSd);
  }

  lemma IndentDeviation(seen: seq<string>, r: nat)
    requires 2 <= |seen| <= 1_000_000 && Deviation.IsSd(Indents(seen), r)
    ensures Deviation.IsCappedDeviation(Indents(seen), r) && r <= 200_000
    ensures |seen| <= 21_474 ==> Deviation.IsDeviation(Indents(seen), r)
  {
    ClampedDeviation(Indents(seen), INDENT_CLAMP, r);
  }

  /** Likewise for the lengths, where the cap cannot bind up to 2147 lines. */
  lemma LengthsAreExact(f: Features, seen: seq<string>, total: nat, chars: nat)
    requires 2 <= |seen| <= total <= 1_000_000 && Measures(f, seen, total, chars)
    ensures Deviation.IsCappedDeviation(Lengths(seen), f.lineLenSd) && f.lineLenSd <= 2_000_000
    ensures |seen| <= 2_147 ==> Deviation.IsDeviation(Lengths(seen), f.lineLenSd)
  {
    LengthDeviation(seen, f.lineLenSd);
  }

  lemma LengthDeviation(seen: seq<string>, r: nat)
    requires 2 <= |seen| <= 1_000_000 && Deviation.IsSd(Lengths(seen), r)
    ensures Deviation.IsCappedDeviation(Lengths(seen), r) && r <= 2_000_000
    ensures |seen| <= 2_147 ==> Deviation.IsDeviation(Lengths(seen), r)
  {
    ClampedDeviation(Lengths(seen), LENGTH_CLAMP, r);
  }

  /** Up to a million lines the cap never decides whether a block counts as nested: the indents of
      its lines deviate by 1.5 or more exactly when the measured deviation says so. */
  lemma NestingIsExact(f: Features, seen: seq<string>, total: nat, chars: nat)
    requires 2 <= |seen| <= total <= 1_000_000 && Measures(f, seen, total, chars)
    ensures var indents := Indents(seen);
            var n := |indents|;
            f.indentSd >= NESTED_INDENT_SD <==>
              NESTED_INDENT_SD * NESTED_INDENT_SD * (n * n) <= Deviation.MILLION * Deviation.Spread(indents)
  {
    var indents := Indents(seen);
    IndentsAreExact(f, seen, total, chars);
    Deviation.SquareGrows(|indents|, 1_000_000);
    Deviation.ThresholdIsExact(indents, f.indentSd, NESTED_INDENT_SD);
  }

  // ----- the shape

  datatype Shape = Nested | Repetitive | FlatUnique | Structured | Monolithic | Unknown

  const NESTED_INDENT_SD: nat := 1500
  const REPETITIVE_PREFIX: nat := 500
  const FLAT_UNIQUE: nat := 950
  const MONOLITHIC_MAX_LINES: nat := 3
  const MONOLITHIC_MIN_CHARS: nat := 600
  const JSON_MAX_BYTES: nat := 5 * 1024 * 1024

  /** Whether the text is bracketed and parses as JSON. */
  predicate LooksStructured(text: string, parses: string -> bool) {
    var t := Trim(text);
    Utf8.Size(text) <= JSON_MAX_BYTES && t != [] && (t[0] == '{' || t[0] == '[') &&
    (t[|t| - 1] == '}' || t[|t| - 1] == ']') && parses(t)
  }

  /** The rules, in order: the first that holds decides. */
  function Classify(text: string, f: Features, parses: string -> bool): Shape {
    if f.nonblank <= MONOLITHIC_MAX_LINES && f.chars > MONOLITHIC_MIN_CHARS then
      if LooksStructured(text, parses) then Structured else Monolithic
    else if f.indentSd >= NESTED_INDENT_SD then Nested
    else if f.prefixRep >= REPETITIVE_PREFIX then Repetitive
    else if f.uniqueRatio >= FLAT_UNIQUE then FlatUnique
    else Unknown
  }

  /** Every shape has one rule that decides for it. */
  function RuleOf(shape: Shape): string {
    match shape
    case Structured => "parses-as-json"
    case Monolithic => "lines<=3&chars>600"
    case Nested => "indent_sd>=1.5"
    case Repetitive => "prefix_rep>=0.5"
    case FlatUnique => "unique>=0.95"
    case Unknown => "no-rule"
  }

  /** A block that no rule takes still has mostly unique lines: where at most half the lines are
      unique, the prefixes already repeat enough for the rule before. */
  lemma UnclassifiedIsMostlyUnique(text: string, f: Features, seen: seq<string>, total: nat, parses: string -> bool)
    requires |seen| <= total && Measures(f, seen, total, |text|)
    ensures Classify(text, f, parses) == Unknown && f.nonblank > 0 ==> 500 < f.uniqueRatio < 950
    ensures Classify(text, f, parses) == FlatUnique ==> f.prefixRep < 500
    ensures f.nonblank > 3 && f.uniqueRatio <= 500 ==> Classify(text, f, parses) in {Nested, Repetitive}
  {
    FeatureBounds(f, seen, total, |text|);
  }
}
