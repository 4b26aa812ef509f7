/**
  Cache fractures: a request that read nothing and rewrote a large prefix right after one of
  the same session read a large prefix. The store counts them over the whole table; the command
  line counts them over a recent window, to stay within its time budget.

  Both are the same query over a sequence of rows. A table is given in id order, and `rank` is
  the place of a row's time stamp in text order.
*/
module Fractures {
  import opened Options

  const SCAN_ROWS: nat := 2000
  const MIN_PREFIX_TOKENS: int := 4096
  const MAX_IDLE_SECONDS: real := 3600.0

  datatype Row = Row(id: nat, rank: int, day: Option<real>, session: Option<string>, status: int, rd: int, wr: int)

  predicate Qualifies(r: Row) {
    r.session.Some? && r.status < 400
  }

  function Qualifying(rows: seq<Row>): seq<Row> {
    if rows == [] then []
    else (if Qualifies(rows[0]) then [rows[0]] else []) + Qualifying(rows[1..])
  }

  /** `a` precedes `b` within their session, by time stamp and then by id. */
  predicate Precedes(a: Row, b: Row) {
    a.session == b.session && (a.rank < b.rank || (a.rank == b.rank && a.id < b.id))
  }

  /** `LAG`: the last of the rows that precede row `i`, looked for among the first `n`. */
  function Lag(q: seq<Row>, i: nat, n: nat): (j: Option<nat>)
    requires i < |q| && n <= |q|
    ensures j.Some? ==> j.value < n && Precedes(q[j.value], q[i])
    ensures forall k :: 0 <= k < n && Precedes(q[k], q[i]) ==> j.Some? && !Precedes(q[j.value], q[k])
  {
    if n == 0 then None
    else
      var best := Lag(q, i, n - 1);
      if Precedes(q[n - 1], q[i]) && (best.None? || Precedes(q[best.value], q[n - 1])) then Some(n - 1) else best
  }

  function IdleSeconds(prev: Row, cur: Row): Option<real> {
    match (cur.day, prev.day)
    case (Some(c), Some(p)) => Some((c - p) * 86400.0)
    case _ => None
  }

  predicate IsFracture(prev: Row, cur: Row) {
    prev.rd > MIN_PREFIX_TOKENS && cur.rd == 0 && cur.wr > MIN_PREFIX_TOKENS &&
    IdleSeconds(prev, cur).Some? && IdleSeconds(prev, cur).value < MAX_IDLE_SECONDS
  }

  /** Row `i` is a fracture, and the row before it in its session is row `lo` or a later one. */
  predicate FractureAt(q: seq<Row>, lo: nat, i: nat)
    requires i < |q|
  {
    var j := Lag(q, i, |q|);
    j.Some? && j.value >= lo && IsFracture(q[j.value], q[i])
  }

  /** How many of the first `n` numbers have the property. */
  function Count(n: nat, p: nat -> bool): nat {
    if n == 0 then 0 else Count(n - 1, p) + if p(n - 1) then 1 else 0
  }

  function Fractured(q: seq<Row>): nat -> bool {
    (i: nat) => i < |q| && FractureAt(q, 0, i)
  }

  /** The query itself, over the rows it is given. */
  function CountFractures(q: seq<Row>): nat {
    Count(|q|, Fractured(q))
  }

  /** The newest `limit` rows by id. */
  function Newest(q: seq<Row>, limit: nat): seq<Row> {
    if |q| <= limit then q else q[|q| - limit..]
  }

  function FullCount(rows: seq<Row>): nat {
    CountFractures(Qualifying(rows))
  }

  function WindowedCount(rows: seq<Row>, limit: nat): nat {
    CountFractures(Newest(Qualifying(rows), limit))
  }

  /** Where the window starts. */
  function WindowStart(q: seq<Row>, limit: nat): (lo: nat)
    ensures lo <= |q| && Newest(q, limit) == q[lo..]
  {
    if |q| <= limit then 0 else |q| - limit
  }

  // ----- three kinds of rows

  /** Full-scan fractures with both rows in the window. */
  function Inside(q: seq<Row>, lo: nat): nat -> bool {
    (i: nat) => lo <= i < |q| && FractureAt(q, lo, i)
  }

  /** Full-scan fractures that the window does not hold both rows of. */
  function Lost(q: seq<Row>, lo: nat): nat -> bool {
    (i: nat) => i < |q| && FractureAt(q, 0, i) && (i < lo || !FractureAt(q, lo, i))
  }

  /** A fracture of the window whose row has another predecessor, outside the window, in the full scan. */
  predicate SpuriousAt(q: seq<Row>, lo: nat, i: nat)
    requires lo <= i < |q|
  {
    var j := Lag(q, i, |q|);
    j.Some? && j.value < lo && FractureAt(q[lo..], 0, i - lo)
  }

  function Spurious(q: seq<Row>, lo: nat): nat -> bool {
    (i: nat) => lo <= i < |q| && SpuriousAt(q, lo, i)
  }

  /** Row `k` lies outside the window and yet, by time stamp and id, between the in-window pair `j`, `i`
      that looks like a fracture. */
  predicate Intrudes(q: seq<Row>, lo: nat, k: nat, j: nat, i: nat) {
    k < lo <= j < |q| && lo <= i < |q| && IsFracture(q[j], q[i]) &&
    Precedes(q[j], q[k]) && Precedes(q[k], q[i]) &&
    forall m :: lo <= m < |q| && Precedes(q[m], q[i]) ==> !Precedes(q[j], q[m])
  }

  // ----- tables

  /** Rows are in id order. */
  predicate IdsIncrease(rows: seq<Row>) {
    forall i, j :: 0 <= i < j < |rows| ==> rows[i].id < rows[j].id
  }

  /** Within a session, time stamps never run backwards as ids grow. */
  predicate ClockAgrees(rows: seq<Row>) {
    forall i, j :: 0 <= i < j < |rows| && rows[i].session == rows[j].session ==> rows[i].rank <= rows[j].rank
  }

  lemma {:induction false} QualifyingIsPart(rows: seq<Row>)
    ensures forall r :: r in Qualifying(rows) ==> r in rows && Qualifies(r)
  {
    if rows != [] {
      QualifyingIsPart(rows[1..]);
    }
  }

  lemma TailKeeps(rows: seq<Row>)
    requires rows != []
    ensures IdsIncrease(rows) ==> IdsIncrease(rows[1..]) && forall r :: r in rows[1..] ==> rows[0].id < r.id
    ensures ClockAgrees(rows) ==>
              ClockAgrees(rows[1..]) &&
              forall r :: r in rows[1..] && r.session == rows[0].session ==> rows[0].rank <= r.rank
  {
    assert forall k :: 0 <= k < |rows[1..]| ==> rows[1..][k] == rows[k + 1];
  }

  lemma {:induction false} QualifyingKeepsIds(rows: seq<Row>)
    requires IdsIncrease(rows)
    ensures IdsIncrease(Qualifying(rows))
  {
    if rows != [] {
      TailKeeps(rows);
      QualifyingKeepsIds(rows[1..]);
      QualifyingIsPart(rows[1..]);
    }
  }

  lemma {:induction false} QualifyingKeepsClock(rows: seq<Row>)
    requires ClockAgrees(rows)
    ensures ClockAgrees(Qualifying(rows))
  {
    if rows != [] {
      TailKeeps(rows);
      QualifyingKeepsClock(rows[1..]);
      QualifyingIsPart(rows[1..]);
    }
  }

  // ----- predecessors

  /** The last of the preceding rows is the only one: ids break every tie. */
  lemma LagIs(q: seq<Row>, i: nat, j: nat)
    requires IdsIncrease(q) && i < |q| && j < |q| && Precedes(q[j], q[i])
    requires forall k :: 0 <= k < |q| && Precedes(q[k], q[i]) ==> !Precedes(q[j], q[k])
    ensures Lag(q, i, |q|) == Some(j)
  {
  }

  lemma SuffixKeepsIds(q: seq<Row>, lo: nat)
    requires IdsIncrease(q) && lo <= |q|
    ensures IdsIncrease(q[lo..]) && forall k :: 0 <= k < |q[lo..]| ==> q[lo..][k] == q[lo + k]
  {
  }

  /** A predecessor inside the window is the window's as well. */
  lemma LagInWindow(q: seq<Row>, lo: nat, i: nat)
    requires IdsIncrease(q) && lo <= i < |q|
    ensures var j := Lag(q, i, |q|);
            var jw := Lag(q[lo..], i - lo, |q| - lo);
            (j.None? ==> jw.None?) && (j.Some? && j.value >= lo ==> jw == Some(j.value - lo))
  {
    SuffixKeepsIds(q, lo);
    var j := Lag(q, i, |q|);
    var w := q[lo..];
    if j.Some? && j.value >= lo {
      assert w[j.value - lo] == q[j.value] && w[i - lo] == q[i];
      LagIs(w, i - lo, j.value - lo);
    }
  }

  /** With agreeing clocks the predecessor is the nearest earlier row of the session. */
  lemma LagIsNearest(q: seq<Row>, i: nat)
    requires IdsIncrease(q) && ClockAgrees(q) && i < |q|
    ensures var j := Lag(q, i, |q|);
            if j.Some? then j.value < i && q[j.value].session == q[i].session &&
                            forall k :: j.value < k < i ==> q[k].session != q[i].session
            else forall k :: 0 <= k < i ==> q[k].session != q[i].session
  {
  }

  // ----- what the window counts

  /** A row of the window is counted there if it is a full-scan fracture with both rows inside, or
      a spurious one; never both. */
  lemma RowInWindow(q: seq<Row>, lo: nat, i: nat)
    requires IdsIncrease(q) && lo <= i < |q|
    ensures FractureAt(q[lo..], 0, i - lo) <==> FractureAt(q, lo, i) || SpuriousAt(q, lo, i)
    ensures !(FractureAt(q, lo, i) && SpuriousAt(q, lo, i))
  {
    LagInWindow(q, lo, i);
    SuffixKeepsIds(q, lo);
    var j := Lag(q, i, |q|);
    if j.Some? && j.value >= lo {
      assert q[lo..][j.value - lo] == q[j.value];
    }
  }

  predicate Splits(a: nat -> bool, b: nat -> bool, c: nat -> bool, lo: nat, i: nat) {
    (a(i) <==> b(lo + i) || c(lo + i)) && !(b(lo + i) && c(lo + i))
  }

  ghost predicate SplitsAll(a: nat -> bool, b: nat -> bool, c: nat -> bool, lo: nat, n: nat) {
    (forall i :: 0 <= i < n ==> Splits(a, b, c, lo, i)) && (forall i :: 0 <= i < lo ==> !b(i) && !c(i))
  }

  /** `a` counts from `lo` on what either `b` or `c` counts. */
  lemma {:induction false} CountsSplit(lo: nat, n: nat, a: nat -> bool, b: nat -> bool, c: nat -> bool)
    requires SplitsAll(a, b, c, lo, n)
    ensures Count(n, a) == Count(lo + n, b) + Count(lo + n, c)
  {
    if n > 0 {
      CountsSplit(lo, n - 1, a, b, c);
      assert Splits(a, b, c, lo, n - 1);
    } else {
      NoneCounted(lo, b);
      NoneCounted(lo, c);
    }
  }

  lemma {:induction false} NoneCounted(n: nat, p: nat -> bool)
    ensures Count(n, p) == 0 <==> forall i :: 0 <= i < n ==> !p(i)
  {
    if n > 0 {
      NoneCounted(n - 1, p);
    }
  }

  lemma WindowSplits(q: seq<Row>, lo: nat)
    requires IdsIncrease(q) && lo <= |q|
    ensures CountFractures(q[lo..]) == Count(|q|, Inside(q, lo)) + Count(|q|, Spurious(q, lo))
  {
    RowsSplit(q, lo);
    CountsSplit(lo, |q| - lo, Fractured(q[lo..]), Inside(q, lo), Spurious(q, lo));
  }

  lemma RowsSplit(q: seq<Row>, lo: nat)
    requires IdsIncrease(q) && lo <= |q|
    ensures SplitsAll(Fractured(q[lo..]), Inside(q, lo), Spurious(q, lo), lo, |q| - lo)
  {
    forall i | 0 <= i < |q| - lo ensures Splits(Fractured(q[lo..]), Inside(q, lo), Spurious(q, lo), lo, i) {
      RowSplits(q, lo, i);
    }
  }

  lemma RowSplits(q: seq<Row>, lo: nat, i: nat)
    requires IdsIncrease(q) && lo + i < |q|
    ensures Splits(Fractured(q[lo..]), Inside(q, lo), Spurious(q, lo), lo, i)
  {
    RowInWindow(q, lo, lo + i);
  }

  lemma FullSplits(q: seq<Row>, lo: nat)
    ensures CountFractures(q) == Count(|q|, Inside(q, lo)) + Count(|q|, Lost(q, lo))
  {
    CountsSplit(0, |q|, Fractured(q), Inside(q, lo), Lost(q, lo));
  }

  lemma SpuriousHasIntruder(q: seq<Row>, lo: nat, i: nat) returns (k: nat, j: nat)
    requires IdsIncrease(q) && lo <= i < |q| && SpuriousAt(q, lo, i)
    ensures Intrudes(q, lo, k, j, i)
  {
    SuffixKeepsIds(q, lo);
    var w := q[lo..];
    k := Lag(q, i, |q|).value;
    var jw := Lag(w, i - lo, |w|).value;
    j := lo + jw;
    assert w[jw] == q[j] && w[i - lo] == q[i];
    forall m | lo <= m < |q| && Precedes(q[m], q[i]) ensures !Precedes(q[j], q[m]) {
      assert w[m - lo] == q[m];
    }
  }

  lemma IntruderMakesSpurious(q: seq<Row>, lo: nat, k: nat, j: nat, i: nat)
    requires IdsIncrease(q) && Intrudes(q, lo, k, j, i)
    ensures SpuriousAt(q, lo, i)
  {
    SuffixKeepsIds(q, lo);
    var w := q[lo..];
    assert w[j - lo] == q[j] && w[i - lo] == q[i];
    LagIs(w, i - lo, j - lo);
    LagInWindow(q, lo, i);
  }

  /** Some fracture of the window is spurious exactly when an outside row falls between an inside pair. */
  lemma SpuriousMeansIntruder(q: seq<Row>, lo: nat)
    requires IdsIncrease(q)
    ensures Count(|q|, Spurious(q, lo)) == 0 <==> forall k, j, i :: !Intrudes(q, lo, k, j, i)
  {
    NoneCounted(|q|, Spurious(q, lo));
    forall k, j, i | Intrudes(q, lo, k, j, i) ensures exists m :: 0 <= m < |q| && Spurious(q, lo)(m) {
      IntruderMakesSpurious(q, lo, k, j, i);
      assert Spurious(q, lo)(i);
    }
    forall i | 0 <= i < |q| && Spurious(q, lo)(i) ensures exists k, j, m :: Intrudes(q, lo, k, j, m) {
      var k, j := SpuriousHasIntruder(q, lo, i);
    }
  }

  lemma NoIntruders(q: seq<Row>, lo: nat)
    requires IdsIncrease(q) && (ClockAgrees(q) || lo == 0)
    ensures forall k, j, i :: !Intrudes(q, lo, k, j, i)
  {
  }

  lemma NothingLost(q: seq<Row>)
    ensures Count(|q|, Lost(q, 0)) == 0
  {
    NoneCounted(|q|, Lost(q, 0));
  }

  /** The windowed count, for every table: the full scan's fractures with both rows in the window, and
      the spurious ones; of the latter there are none exactly when no outside row falls between an
      inside pair, as with clocks that agree with ids. */
  lemma WindowedRefinesFull(rows: seq<Row>, limit: nat)
    requires IdsIncrease(rows)
    ensures var q := Qualifying(rows);
            var lo := WindowStart(q, limit);
            var inside, spurious := Count(|q|, Inside(q, lo)), Count(|q|, Spurious(q, lo));
            WindowedCount(rows, limit) == inside + spurious &&
            FullCount(rows) == inside + Count(|q|, Lost(q, lo)) &&
            (spurious == 0 <==> forall k, j, i :: !Intrudes(q, lo, k, j, i)) &&
            (ClockAgrees(rows) ==> WindowedCount(rows, limit) == inside <= FullCount(rows)) &&
            (|q| <= limit ==> WindowedCount(rows, limit) == FullCount(rows))
  {
    var q := Qualifying(rows);
    var lo := WindowStart(q, limit);
    QualifyingKeepsIds(rows);
    WindowSplits(q, lo);
    FullSplits(q, lo);
    SpuriousMeansIntruder(q, lo);
    if ClockAgrees(rows) {
      QualifyingKeepsClock(rows);
      NoIntruders(q, lo);
    }
    if |q| <= limit {
      NoIntruders(q, lo);
      NothingLost(q);
    }
  }

  /** The command line's count is the store's while at most 2000 rows qualify; beyond that the two
      agree exactly when as many fractures are spurious as are lost, and with agreeing clocks the
      command line never counts more. */
  lemma CommandLineRefinesStore(rows: seq<Row>)
    requires IdsIncrease(rows)
    ensures var q := Qualifying(rows);
            var lo := WindowStart(q, SCAN_ROWS);
            var lost, spurious := Count(|q|, Lost(q, lo)), Count(|q|, Spurious(q, lo));
            (|q| <= SCAN_ROWS ==> WindowedCount(rows, SCAN_ROWS) == FullCount(rows)) &&
            (WindowedCount(rows, SCAN_ROWS) == FullCount(rows) <==> spurious == lost) &&
            (WindowedCount(rows, SCAN_ROWS) > FullCount(rows) <==> spurious > lost) &&
            (ClockAgrees(rows) ==> WindowedCount(rows, SCAN_ROWS) <= FullCount(rows))
  {
    WindowedRefinesFull(rows, SCAN_ROWS);
  }

  // ----- clocks that disagree with ids

  function SkewedRow(limit: nat, i: nat): Row {
    if i == 0 then Row(0, 2, Some(0.0), Some("s"), 200, 1, 0)
    else if i == 1 then Row(1, 1, Some(0.0), Some("s"), 200, 5000, 0)
    else if i == limit then Row(limit, 3, Some(0.0), Some("s"), 200, 0, 5000)
    else Row(i, 0, None, Some("other"), 200, 1, 0)
  }

  function Skewed(limit: nat): seq<Row> {
    seq(limit + 1, i requires 0 <= i => SkewedRow(limit, i))
  }

  lemma {:induction false} AllQualify(rows: seq<Row>)
    requires forall i :: 0 <= i < |rows| ==> Qualifies(rows[i])
    ensures Qualifying(rows) == rows
  {
    if rows != [] {
      AllQualify(rows[1..]);
    }
  }

  lemma SkewedFullScan(limit: nat)
    requires limit >= 2
    ensures CountFractures(Skewed(limit)) == 0
  {
    var q := Skewed(limit);
    forall i | 0 <= i < |q| ensures !FractureAt(q, 0, i) {
      if i == limit {
        assert Precedes(q[0], q[i]) && !Precedes(q[0], q[1]);
        assert Lag(q, i, |q|) == Some(0);
      }
    }
    NoneCounted(|q|, Fractured(q));
  }

  lemma SkewedWindow(limit: nat)
    requires limit >= 2
    ensures CountFractures(Skewed(limit)[1..]) >= 1
  {
    var w := Skewed(limit)[1..];
    assert forall k :: 0 <= k < limit ==> w[k] == SkewedRow(limit, k + 1);
    assert Precedes(w[0], w[limit - 1]);
    assert Lag(w, limit - 1, |w|) == Some(0);
    assert Fractured(w)(limit - 1);
    NoneCounted(|w|, Fractured(w));
  }

  /** Agreement is needed: when a session's clock runs backwards, the window can report a
      fracture that the full scan does not. The first row, oldest by id but between the other
      two by time, is what the full scan compares the last row with. */
  lemma SkewedClockOvercounts(limit: nat)
    requires limit >= 2
    ensures IdsIncrease(Skewed(limit))
    ensures FullCount(Skewed(limit)) == 0 && WindowedCount(Skewed(limit), limit) >= 1
  {
    AllQualify(Skewed(limit));
    SkewedFullScan(limit);
    SkewedWindow(limit);
  }
}
