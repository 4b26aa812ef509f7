/** The lossy strategies: what they show, what they leave out, and the notes they leave. */
module Elision {
  import opened Options
  import opened Text
  import opened Lines
  import KeptMask

  const MIN_GAP: nat := 3
  const HEAD_LINES: nat := 20
  const TAIL_LINES: nat := 8
  const HEAD_CHARS: nat := 400
  const TAIL_CHARS: nat := 200

  /** One line of the index: a line shown, or a note for the lines from `from` up to `to`. */
  datatype Item = Shown(i: nat) | Gap(from: nat, to: nat)

  // ----- the structural index

  /** End of the stretch of lines not kept that starts at `i`. */
  function GapEnd(kept: seq<bool>, i: nat): (j: nat)
    requires i <= |kept|
    ensures i <= j <= |kept|
    ensures forall k :: i <= k < j ==> !kept[k]
    ensures j < |kept| ==> kept[j]
    decreases |kept| - i
  {
    if i < |kept| && !kept[i] then GapEnd(kept, i + 1) else i
  }

  function ShownRange(from: nat, to: nat): (items: seq<Item>)
    requires from <= to
    ensures |items| == to - from
  {
    seq(to - from, k requires 0 <= k => Shown(from + k))
  }

  /** A stretch becomes a note if it is long enough, and is shown otherwise. */
  function Stretch(from: nat, to: nat): seq<Item>
    requires from <= to
  {
    if to - from < MIN_GAP then ShownRange(from, to) else [Gap(from, to)]
  }

  function Items(kept: seq<bool>, i: nat): seq<Item>
    requires i <= |kept|
    decreases |kept| - i
  {
    if i == |kept| then []
    else if kept[i] then [Shown(i)] + Items(kept, i + 1)
    else Stretch(i, GapEnd(kept, i)) + Items(kept, GapEnd(kept, i))
  }

  // ----- what the items mean

  function End(item: Item): nat {
    match item case Shown(i) => i + 1 case Gap(_, to) => to
  }

  function Start(item: Item): nat {
    match item case Shown(i) => i case Gap(from, _) => from
  }

  /** The items lie side by side, in order, from `from` up to `to`. */
  ghost predicate Tiles(items: seq<Item>, from: nat, to: nat) {
    if items == [] then from == to
    else Start(items[0]) == from && from < End(items[0]) && Tiles(items[1..], End(items[0]), to)
  }

  /** A gap is long enough, holds no kept line, and cannot be made longer. */
  ghost predicate GapIsRight(kept: seq<bool>, from: nat, to: nat) {
    from + MIN_GAP <= to <= |kept| && (forall k :: from <= k < to ==> !kept[k]) &&
    (from == 0 || kept[from - 1]) && (to == |kept| || kept[to])
  }

  /** A line shown is kept, or belongs to a stretch too short for a note. */
  ghost predicate ShownIsRight(kept: seq<bool>, i: nat) {
    i < |kept| && (kept[i] || exists a, b :: IsShortStretch(kept, a, b, i))
  }

  ghost predicate IsShortStretch(kept: seq<bool>, a: nat, b: nat, i: nat) {
    a <= i < b <= |kept| && b - a < MIN_GAP && (forall k :: a <= k < b ==> !kept[k]) &&
    (a == 0 || kept[a - 1]) && (b == |kept| || kept[b])
  }

  ghost predicate ItemIsRight(kept: seq<bool>, item: Item) {
    match item case Shown(i) => ShownIsRight(kept, i) case Gap(from, to) => GapIsRight(kept, from, to)
  }

  lemma {:induction false} TilesConcat(a: seq<Item>, b: seq<Item>, from: nat, mid: nat, to: nat)
    requires Tiles(a, from, mid) && Tiles(b, mid, to)
    ensures Tiles(a + b, from, to)
  {
    if a == [] {
      assert a + b == b;
    } else {
      assert (a + b)[1..] == a[1..] + b;
      TilesConcat(a[1..], b, End(a[0]), mid, to);
    }
  }

  lemma {:induction false} ShownRangeTiles(from: nat, end: nat)
    requires from <= end
    ensures Tiles(ShownRange(from, end), from, end)
    decreases end
  {
    if from < end {
      ShownRangeTiles(from, end - 1);
      assert ShownRange(from, end) == ShownRange(from, end - 1) + [Shown(end - 1)];
      assert [Shown(end - 1)][1..] == [];
      TilesConcat(ShownRange(from, end - 1), [Shown(end - 1)], from, end - 1, end);
    }
  }

  lemma StretchIsRight(kept: seq<bool>, from: nat)
    requires from < |kept| && !kept[from] && (from == 0 || kept[from - 1])
    ensures var to := GapEnd(kept, from);
            from < to && Tiles(Stretch(from, to), from, to) && AllRight(kept, Stretch(from, to))
  {
    var to := GapEnd(kept, from);
    assert from < to;
    if to - from < MIN_GAP {
      ShownRangeTiles(from, to);
      forall i | from <= i < to ensures ShownIsRight(kept, i) {
        assert IsShortStretch(kept, from, to, i);
      }
    } else {
      assert Tiles([Gap(from, to)][1..], to, to);
    }
  }

  /** The index covers every line exactly once and in order; its gaps are exactly the maximal
      stretches of at least three lines that are not kept, and every other line is shown. */
  lemma {:induction false} ItemsAreRight(kept: seq<bool>, i: nat)
    requires i <= |kept| && (i == 0 || i == |kept| || kept[i] || kept[i - 1])
    ensures Tiles(Items(kept, i), i, |kept|) && AllRight(kept, Items(kept, i))
    decreases |kept| - i
  {
    if i < |kept| && kept[i] {
      ItemsAreRight(kept, i + 1);
      ShownIsItem(kept, i);
      Adjoin(kept, [Shown(i)], Items(kept, i + 1), i, i + 1);
    } else if i < |kept| {
      var to := GapEnd(kept, i);
      StretchIsRight(kept, i);
      ItemsAreRight(kept, to);
      Adjoin(kept, Stretch(i, to), Items(kept, to), i, to);
    }
  }

  lemma ShownIsItem(kept: seq<bool>, i: nat)
    requires i < |kept| && kept[i]
    ensures Tiles([Shown(i)], i, i + 1) && AllRight(kept, [Shown(i)])
  {
    assert [Shown(i)][1..] == [];
  }

  lemma Adjoin(kept: seq<bool>, a: seq<Item>, b: seq<Item>, from: nat, mid: nat)
    requires Tiles(a, from, mid) && Tiles(b, mid, |kept|) && AllRight(kept, a) && AllRight(kept, b)
    ensures Tiles(a + b, from, |kept|) && AllRight(kept, a + b)
  {
    TilesConcat(a, b, from, mid, |kept|);
    forall k | 0 <= k < |a + b| ensures ItemIsRight(kept, (a + b)[k]) {
      assert (a + b)[k] == if k < |a| then a[k] else b[k - |a|];
    }
  }

  ghost predicate AllRight(kept: seq<bool>, items: seq<Item>) {
    forall k :: 0 <= k < |items| ==> ItemIsRight(kept, items[k])
  }

  /** Every line is in some item. */
  lemma {:induction false} TileOf(items: seq<Item>, from: nat, to: nat, x: nat) returns (k: nat)
    requires Tiles(items, from, to) && from <= x < to
    ensures k < |items| && Start(items[k]) <= x < End(items[k])
    decreases |items|
  {
    if x < End(items[0]) {
      k := 0;
    } else {
      var k' := TileOf(items[1..], End(items[0]), to, x);
      k := k' + 1;
    }
  }

  /** Later items lie behind earlier ones. */
  lemma {:induction false} TilesAreOrdered(items: seq<Item>, from: nat, to: nat, j: nat, k: nat)
    requires Tiles(items, from, to) && j < k < |items|
    ensures from <= Start(items[j]) < End(items[j]) <= Start(items[k]) < End(items[k]) <= to
    decreases k
  {
    TileBounds(items[1..], End(items[0]), to, k - 1);
    if j > 0 {
      TilesAreOrdered(items[1..], End(items[0]), to, j - 1, k - 1);
    }
  }

  lemma {:induction false} TileBounds(items: seq<Item>, from: nat, to: nat, k: nat)
    requires Tiles(items, from, to) && k < |items|
    ensures from <= Start(items[k]) < End(items[k]) <= to
    decreases k
  {
    if k > 0 {
      TileBounds(items[1..], End(items[0]), to, k - 1);
    } else {
      TilesGrow(items[1..], End(items[0]), to);
    }
  }

  lemma {:induction false} TilesGrow(items: seq<Item>, from: nat, to: nat)
    requires Tiles(items, from, to)
    ensures from <= to
  {
    if items != [] {
      TilesGrow(items[1..], End(items[0]), to);
    }
  }

  /** Every stretch of at least three lines that are not kept, and that cannot be made longer, has its note. */
  lemma EveryStretchIsNoted(kept: seq<bool>, a: nat, b: nat)
    requires GapIsRight(kept, a, b)
    ensures Gap(a, b) in Items(kept, 0)
  {
    ItemsAreRight(kept, 0);
    var items := Items(kept, 0);
    var k := TileOf(items, 0, |kept|, a);
    assert ItemIsRight(kept, items[k]);
    LongStretchIsNotShown(kept, a, b);
  }

  lemma LongStretchIsNotShown(kept: seq<bool>, a: nat, b: nat)
    requires GapIsRight(kept, a, b)
    ensures !ShownIsRight(kept, a)
  {
  }

  // ----- the text

  function NoteFor(xs: seq<SLine>, fileCoords: bool, from: nat, to: nat): Note
    requires from < to <= |xs|
  {
    NoteOf(fileCoords, xs[from], xs[to - 1], to - from)
  }

  predicate Inside(item: Item, n: nat) {
    Start(item) < End(item) <= n
  }

  function ItemText(xs: seq<SLine>, fileCoords: bool, item: Item): string
    requires Inside(item, |xs|)
  {
    match item
    case Shown(i) => xs[i].raw
    case Gap(from, to) => NoteText(ELIDED, NoteFor(xs, fileCoords, from, to))
  }

  ghost predicate AllInside(items: seq<Item>, n: nat) {
    forall k :: 0 <= k < |items| ==> Inside(items[k], n)
  }

  lemma TilesAreInside(items: seq<Item>, from: nat, to: nat)
    requires Tiles(items, from, to)
    ensures AllInside(items, to)
  {
    forall k | 0 <= k < |items| ensures Inside(items[k], to) {
      TileBounds(items, from, to, k);
    }
  }

  ghost function Texts(xs: seq<SLine>, fileCoords: bool, items: seq<Item>): seq<string>
    requires AllInside(items, |xs|)
  {
    seq(|items|, k requires 0 <= k < |items| => ItemText(xs, fileCoords, items[k]))
  }

  /** The entries of the decision log, one for each gap. */
  ghost function GapKeys(xs: seq<SLine>, fileCoords: bool, items: seq<Item>): seq<string>
    requires AllInside(items, |xs|)
  {
    if items == [] then []
    else
      var rest := items[..|items| - 1];
      match items[|items| - 1]
      case Shown(_) => GapKeys(xs, fileCoords, rest)
      case Gap(from, to) => GapKeys(xs, fileCoords, rest) + [RangeKey(NoteFor(xs, fileCoords, from, to))]
  }

  lemma TextsConcat(xs: seq<SLine>, fileCoords: bool, a: seq<Item>, b: seq<Item>)
    requires AllInside(a, |xs|) && AllInside(b, |xs|)
    ensures AllInside(a + b, |xs|)
    ensures Texts(xs, fileCoords, a + b) == Texts(xs, fileCoords, a) + Texts(xs, fileCoords, b)
  {
    assert forall k :: 0 <= k < |a + b| ==> (a + b)[k] == if k < |a| then a[k] else b[k - |a|];
  }

  lemma {:induction false} KeysOfShown(xs: seq<SLine>, fileCoords: bool, a: seq<Item>, b: seq<Item>)
    requires AllInside(a, |xs|) && AllInside(b, |xs|) && forall k :: 0 <= k < |b| ==> b[k].Shown?
    ensures AllInside(a + b, |xs|) && GapKeys(xs, fileCoords, a + b) == GapKeys(xs, fileCoords, a)
  {
    if b == [] {
      assert a + b == a;
    } else {
      var n := |b| - 1;
      assert (a + b)[..|a| + n] == a + b[..n];
      KeysOfShown(xs, fileCoords, a, b[..n]);
    }
  }

  /** Lines and log entries put out so far. */
  datatype Index = Index(lines: seq<string>, ranges: seq<string>)

  ghost function IndexOf(xs: seq<SLine>, fileCoords: bool, items: seq<Item>): Index
    requires AllInside(items, |xs|)
  {
    Index(Texts(xs, fileCoords, items), GapKeys(xs, fileCoords, items))
  }

  /** One stretch of lines that are not kept. */
  method PutStretch(xs: seq<SLine>, fileCoords: bool, index: Index, start: nat, end: nat, ghost done: seq<Item>)
    returns (r: Index)
    requires start < end <= |xs| && AllInside(done, |xs|) && index == IndexOf(xs, fileCoords, done)
    ensures AllInside(done + Stretch(start, end), |xs|)
    ensures r == IndexOf(xs, fileCoords, done + Stretch(start, end))
  {
    ghost var stretch := Stretch(start, end);
    TextsConcat(xs, fileCoords, done, stretch);
    if end - start < MIN_GAP {
      r := Index(index.lines + Raws(xs[start..end]), index.ranges);
      KeysOfShown(xs, fileCoords, done, stretch);
      ShownTexts(xs, fileCoords, start, end);
    } else {
      var note := NoteFor(xs, fileCoords, start, end);
      r := Index(index.lines + [NoteText(ELIDED, note)], index.ranges + [RangeKey(note)]);
      KeysOfGap(xs, fileCoords, done, start, end);
    }
  }

  lemma KeysOfGap(xs: seq<SLine>, fileCoords: bool, done: seq<Item>, start: nat, end: nat)
    requires start < end <= |xs| && AllInside(done, |xs|)
    ensures AllInside([Gap(start, end)], |xs|) && AllInside(done + [Gap(start, end)], |xs|)
    ensures var note := NoteFor(xs, fileCoords, start, end);
            Texts(xs, fileCoords, [Gap(start, end)]) == [NoteText(ELIDED, note)] &&
            GapKeys(xs, fileCoords, done + [Gap(start, end)]) == GapKeys(xs, fileCoords, done) + [RangeKey(note)]
  {
  }

  method FindGapEnd(kept: seq<bool>, start: nat) returns (i: nat)
    requires start <= |kept|
    ensures i == GapEnd(kept, start)
  {
    i := start;
    while i < |kept| && !kept[i]
      invariant start <= i <= |kept| && GapEnd(kept, start) == GapEnd(kept, i)
    {
      i := i + 1;
    }
  }

  lemma PutShown(xs: seq<SLine>, fileCoords: bool, done: seq<Item>, i: nat)
    requires AllInside(done, |xs|) && i < |xs|
    ensures AllInside(done + [Shown(i)], |xs|)
    ensures IndexOf(xs, fileCoords, done + [Shown(i)]) ==
              Index(Texts(xs, fileCoords, done) + [xs[i].raw], GapKeys(xs, fileCoords, done))
  {
  }

  lemma Reassociate(done: seq<Item>, kept: seq<bool>, i: nat)
    requires i < |kept|
    ensures kept[i] ==> done + Items(kept, i) == done + [Shown(i)] + Items(kept, i + 1)
    ensures !kept[i] ==>
              done + Items(kept, i) == done + Stretch(i, GapEnd(kept, i)) + Items(kept, GapEnd(kept, i))
  {
  }

  method BuildIndex(xs: seq<SLine>, fileCoords: bool, kept: seq<bool>) returns (r: Index)
    requires |kept| == |xs|
    ensures AllInside(Items(kept, 0), |xs|)
    ensures r == IndexOf(xs, fileCoords, Items(kept, 0))
  {
    r := Index([], []);
    var i := 0;
    ghost var done: seq<Item> := [];
    while i < |xs|
      invariant i <= |xs| && AllInside(done, |xs|) && r == IndexOf(xs, fileCoords, done)
      invariant done + Items(kept, i) == Items(kept, 0)
    {
      Reassociate(done, kept, i);
      if kept[i] {
        PutShown(xs, fileCoords, done, i);
        r := Index(r.lines + [xs[i].raw], r.ranges);
        done := done + [Shown(i)];
        i := i + 1;
      } else {
        var end := FindGapEnd(kept, i);
        r := PutStretch(xs, fileCoords, r, i, end, done);
        done := done + Stretch(i, end);
        i := end;
      }
    }
    assert done == Items(kept, 0);
  }

  /** Body and log entry of a strategy that applies. */
  datatype Applied = Applied(body: string, ranges: string)

  ghost predicate HasGap(items: seq<Item>) {
    exists k :: 0 <= k < |items| && items[k].Gap?
  }

  lemma {:induction false} KeysOfGaps(xs: seq<SLine>, fileCoords: bool, items: seq<Item>)
    requires AllInside(items, |xs|)
    ensures GapKeys(xs, fileCoords, items) == [] <==> !HasGap(items)
  {
    if items != [] {
      var n := |items| - 1;
      KeysOfGaps(xs, fileCoords, items[..n]);
      if HasGap(items[..n]) {
        var k :| 0 <= k < n && items[..n][k].Gap?;
        assert items[k].Gap?;
      }
      if HasGap(items) {
        var k :| 0 <= k < |items| && items[k].Gap?;
        assert k < n ==> items[..n][k].Gap?;
      }
    }
  }

  lemma ItemsAreInside(kept: seq<bool>)
    ensures AllInside(Items(kept, 0), |kept|)
  {
    ItemsAreRight(kept, 0);
    TilesAreInside(Items(kept, 0), 0, |kept|);
  }

  ghost function Structural(xs: seq<SLine>, fileCoords: bool, cap: nat): Option<Applied>
    requires cap >= 1
  {
    var items := Items(KeptMask.Mask(xs, cap), 0);
    ItemsAreInside(KeptMask.Mask(xs, cap));
    if |xs| < MIN_GAP * 2 || !HasGap(items) then None
    else Some(Applied(Join(Texts(xs, fileCoords, items), "\n"), Join(GapKeys(xs, fileCoords, items), ",")))
  }

  method ApplyStructural(xs: seq<SLine>, fileCoords: bool, cap: nat) returns (r: Option<Applied>)
    requires cap >= 1
    ensures r == Structural(xs, fileCoords, cap)
  {
    if |xs| < MIN_GAP * 2 {
      return None;
    }
    var kept := KeptMask.ComputeMask(xs, cap);
    var index := BuildIndex(xs, fileCoords, kept);
    KeysOfGaps(xs, fileCoords, Items(kept, 0));
    if index.ranges == [] {
      return None;
    }
    return Some(Applied(Join(index.lines, "\n"), Join(index.ranges, ",")));
  }

  // ----- head and tail

  ghost function HeadTailItems(n: nat): seq<Item>
    requires n > HEAD_LINES + TAIL_LINES
  {
    ShownRange(0, HEAD_LINES) + [Gap(HEAD_LINES, n - TAIL_LINES)] + ShownRange(n - TAIL_LINES, n)
  }

  lemma HeadTailTiles(n: nat)
    requires n > HEAD_LINES + TAIL_LINES
    ensures Tiles(HeadTailItems(n), 0, n) && AllInside(HeadTailItems(n), n)
  {
    var gap := [Gap(HEAD_LINES, n - TAIL_LINES)];
    ShownRangeTiles(0, HEAD_LINES);
    ShownRangeTiles(n - TAIL_LINES, n);
    assert gap[1..] == [];
    TilesConcat(ShownRange(0, HEAD_LINES), gap, 0, HEAD_LINES, n - TAIL_LINES);
    TilesConcat(ShownRange(0, HEAD_LINES) + gap, ShownRange(n - TAIL_LINES, n), 0, n - TAIL_LINES, n);
    TilesAreInside(HeadTailItems(n), 0, n);
  }

  function HeadTailLines(xs: seq<SLine>, fileCoords: bool): seq<string>
    requires |xs| > HEAD_LINES + TAIL_LINES
  {
    var end := |xs| - TAIL_LINES;
    Raws(xs[..HEAD_LINES]) + [NoteText(ELIDED, NoteFor(xs, fileCoords, HEAD_LINES, end))] + Raws(xs[end..])
  }

  /** The first twenty lines, a note, the last eight. */
  function HeadTail(xs: seq<SLine>, fileCoords: bool): Option<Applied> {
    if |xs| <= HEAD_LINES + TAIL_LINES then None
    else
      Some(Applied(Join(HeadTailLines(xs, fileCoords), "\n"),
        RangeKey(NoteFor(xs, fileCoords, HEAD_LINES, |xs| - TAIL_LINES))))
  }

  lemma HeadTailIsIndex(xs: seq<SLine>, fileCoords: bool)
    requires |xs| > HEAD_LINES + TAIL_LINES
    ensures AllInside(HeadTailItems(|xs|), |xs|)
    ensures HeadTailLines(xs, fileCoords) == Texts(xs, fileCoords, HeadTailItems(|xs|))
  {
    HeadTailTiles(|xs|);
    TextsAroundGap(xs, fileCoords, HEAD_LINES, |xs| - TAIL_LINES);
  }

  lemma TextsAroundGap(xs: seq<SLine>, fileCoords: bool, a: nat, b: nat)
    requires a < b <= |xs|
    ensures var items := ShownRange(0, a) + [Gap(a, b)] + ShownRange(b, |xs|);
            AllInside(items, |xs|) &&
            Texts(xs, fileCoords, items) == Raws(xs[..a]) + [ItemText(xs, fileCoords, Gap(a, b))] + Raws(xs[b..])
  {
    var head, gap, tail := ShownRange(0, a), [Gap(a, b)], ShownRange(b, |xs|);
    ShownTexts(xs, fileCoords, 0, a);
    ShownTexts(xs, fileCoords, b, |xs|);
    assert xs[0..a] == xs[..a] && xs[b..|xs|] == xs[b..];
    assert Texts(xs, fileCoords, gap) == [ItemText(xs, fileCoords, Gap(a, b))];
    TextsConcat(xs, fileCoords, head, gap);
    TextsConcat(xs, fileCoords, head + gap, tail);
  }

  lemma ShownTexts(xs: seq<SLine>, fileCoords: bool, from: nat, end: nat)
    requires from <= end <= |xs|
    ensures AllInside(ShownRange(from, end), |xs|)
    ensures Texts(xs, fileCoords, ShownRange(from, end)) == Raws(xs[from..end])
  {
  }

  // ----- a window of characters

  const CHARS_BEFORE: string := "[… "
  const CHARS_AFTER: string := " chars elided …]"

  function CharWindow(xs: seq<SLine>): Option<Applied> {
    var text := Body(xs);
    if |text| <= HEAD_CHARS + TAIL_CHARS then None
    else
      Some(Applied(WindowBody(text), "chars×" + Dec(|text| - HEAD_CHARS - TAIL_CHARS)))
  }

  /** What a reader of the window gets: head, count and tail. */
  function ReadWindow(body: string): Option<(string, nat, string)> {
    ReadAround(body, CHARS_BEFORE, CHARS_AFTER)
  }

  function ReadAround(body: string, before: string, after: string): Option<(string, nat, string)> {
    if |body| < HEAD_CHARS then None
    else match StripPrefix(body[HEAD_CHARS..], before)
      case None => None
      case Some(t1) => match ReadNumber(t1)
        case None => None
        case Some((n, t2)) => match StripPrefix(t2, after)
          case None => None
          case Some(tail) => Some((body[..HEAD_CHARS], n, tail))
  }

  function WindowBody(text: string): string
    requires |text| > HEAD_CHARS + TAIL_CHARS
  {
    var elided := |text| - HEAD_CHARS - TAIL_CHARS;
    text[..HEAD_CHARS] + (CHARS_BEFORE + (Dec(elided) + CHARS_AFTER)) + text[|text| - TAIL_CHARS..]
  }

  /** Head and tail of the window are the text's own, and its note counts exactly the characters between. */
  lemma WindowIsRead(text: string)
    requires |text| > HEAD_CHARS + TAIL_CHARS
    ensures var end := |text| - TAIL_CHARS;
            ReadWindow(WindowBody(text)) == Some((text[..HEAD_CHARS], |text[HEAD_CHARS..end]|, text[end..]))
  {
    WindowOf(text[..HEAD_CHARS], |text| - HEAD_CHARS - TAIL_CHARS, text[|text| - TAIL_CHARS..],
      CHARS_BEFORE, CHARS_AFTER);
  }

  lemma WindowOf(head: string, n: nat, tail: string, before: string, after: string)
    requires |head| == HEAD_CHARS && after != "" && !IsDigit(after[0])
    ensures ReadAround(head + (before + (Dec(n) + after)) + tail, before, after) == Some((head, n, tail))
  {
    var t2 := after + tail;
    var t1 := Dec(n) + t2;
    var body := head + (before + (Dec(n) + after)) + tail;
    assert body == head + (before + t1);
    PrefixIsStripped(before, t1);
    NumberIsRead(n, t2);
    PrefixIsStripped(after, tail);
  }
}
