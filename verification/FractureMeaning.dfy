/** What the two counts count, told from the rows of the table alone. */
module FractureMeaning {
  import opened Fractures

  /** A successful request of a session. */
  predicate Counts(r: Row) {
    r.session.Some? && r.status < 400
  }

  predicate Earlier(a: Row, b: Row) {
    a.rank < b.rank || (a.rank == b.rank && a.id < b.id)
  }

  /** `p` comes right before `c` among the successful requests of their session. */
  ghost predicate RightBefore(rows: set<Row>, p: Row, c: Row) {
    p in rows && c in rows && Counts(p) && Counts(c) && p.session == c.session && Earlier(p, c) &&
    forall r :: r in rows && Counts(r) && r.session == c.session ==> !(Earlier(p, r) && Earlier(r, c))
  }

  /** The request before read more than 4096 tokens from the cache; within the hour this one read none
      and wrote more than 4096. */
  predicate Breaks(p: Row, c: Row) {
    p.rd > 4096 && c.rd == 0 && c.wr > 4096 &&
    p.day.Some? && c.day.Some? && (c.day.value - p.day.value) * 86400.0 < 3600.0
  }

  ghost predicate Broken(rows: set<Row>, c: Row) {
    exists p {:trigger RightBefore(rows, p, c)} :: RightBefore(rows, p, c) && Breaks(p, c)
  }

  /** The requests whose prefix was lost in the middle of a session. */
  ghost function BrokenRows(rows: set<Row>): set<Row> {
    set c | c in rows && Broken(rows, c)
  }

  function AsSet(rows: seq<Row>): set<Row> {
    set r | r in rows
  }

  // ----- counting

  function Members(n: nat, p: nat -> bool): set<nat> {
    set i: nat | i < n && p(i)
  }

  lemma {:induction false} CountIsSize(n: nat, p: nat -> bool)
    ensures Count(n, p) == |Members(n, p)|
  {
    if n == 0 {
      assert Members(0, p) == {};
    } else {
      CountIsSize(n - 1, p);
      if p(n - 1) {
        assert Members(n, p) == Members(n - 1, p) + {n - 1};
      } else {
        assert Members(n, p) == Members(n - 1, p);
      }
    }
  }

  /** Different places hold different rows. */
  lemma {:induction false} ImageSize(q: seq<Row>, places: set<nat>, image: set<Row>)
    requires IdsIncrease(q) && forall i :: i in places ==> i < |q|
    requires forall r :: r in image <==> exists i :: i in places && q[i] == r
    ensures |image| == |places|
    decreases |places|
  {
    if places == {} {
      assert image == {};
    } else {
      var i :| i in places;
      assert q[i] in image;
      forall r ensures r in image - {q[i]} <==> exists k :: k in places - {i} && q[k] == r {
        if r in image && r != q[i] {
          var k :| k in places && q[k] == r;
          assert k in places - {i};
        }
        if k :| k in places - {i} && q[k] == r {
          assert q[k].id != q[i].id;
        }
      }
      ImageSize(q, places - {i}, image - {q[i]});
    }
  }

  // ----- one row

  ghost predicate AllCount(q: seq<Row>) {
    forall i :: 0 <= i < |q| ==> Counts(q[i])
  }

  lemma BreaksMeans(p: Row, c: Row)
    ensures IsFracture(p, c) <==> Breaks(p, c)
  {
  }

  lemma PrecedesMeans(a: Row, b: Row)
    ensures Precedes(a, b) <==> a.session == b.session && Earlier(a, b)
  {
  }

  lemma LagIsRightBefore(q: seq<Row>, i: nat)
    requires IdsIncrease(q) && AllCount(q) && i < |q| && Lag(q, i, |q|).Some?
    ensures RightBefore(AsSet(q), q[Lag(q, i, |q|).value], q[i])
  {
    var j := Lag(q, i, |q|).value;
    var rows := AsSet(q);
    PrecedesMeans(q[j], q[i]);
    forall r | r in rows && Counts(r) && r.session == q[i].session ensures !(Earlier(q[j], r) && Earlier(r, q[i])) {
      var k :| 0 <= k < |q| && q[k] == r;
      PrecedesMeans(q[k], q[i]);
      PrecedesMeans(q[j], q[k]);
    }
  }

  lemma RightBeforeIsLag(q: seq<Row>, i: nat, p: Row)
    requires IdsIncrease(q) && AllCount(q) && i < |q| && RightBefore(AsSet(q), p, q[i])
    ensures Lag(q, i, |q|).Some? && q[Lag(q, i, |q|).value] == p
  {
    var k :| 0 <= k < |q| && q[k] == p;
    PrecedesMeans(q[k], q[i]);
    var j := Lag(q, i, |q|).value;
    PrecedesMeans(q[j], q[i]);
    PrecedesMeans(q[j], q[k]);
    assert q[j] in AsSet(q) && Counts(q[j]);
  }

  lemma FracturedMeans(q: seq<Row>, i: nat)
    requires IdsIncrease(q) && AllCount(q) && i < |q|
    ensures Fractured(q)(i) <==> Broken(AsSet(q), q[i])
  {
    var rows := AsSet(q);
    if Fractured(q)(i) {
      var j := Lag(q, i, |q|).value;
      LagIsRightBefore(q, i);
      BreaksMeans(q[j], q[i]);
    }
    if Broken(rows, q[i]) {
      var p :| RightBefore(rows, p, q[i]) && Breaks(p, q[i]);
      RightBeforeIsLag(q, i, p);
      BreaksMeans(p, q[i]);
    }
  }

  /** The query over some rows counts exactly the broken ones. */
  lemma CountMeans(q: seq<Row>)
    requires IdsIncrease(q) && AllCount(q)
    ensures CountFractures(q) == |BrokenRows(AsSet(q))|
  {
    CountIsSize(|q|, Fractured(q));
    var places := Members(|q|, Fractured(q));
    var image := BrokenRows(AsSet(q));
    forall r ensures r in image <==> exists i :: i in places && q[i] == r {
      if r in image {
        var i :| 0 <= i < |q| && q[i] == r;
        FracturedMeans(q, i);
        assert i in places;
      }
      if i :| i in places && q[i] == r {
        FracturedMeans(q, i);
        assert q[i] in AsSet(q);
      }
    }
    ImageSize(q, places, image);
  }

  // ----- the table

  lemma QualifyingMeans(rows: seq<Row>)
    ensures forall r :: r in Qualifying(rows) <==> r in rows && Counts(r)
    ensures AllCount(Qualifying(rows))
  {
    QualifyingIsPart(rows);
    forall r | r in rows && Counts(r) ensures r in Qualifying(rows) {
      QualifyingHasAll(rows, r);
    }
  }

  lemma {:induction false} QualifyingHasAll(rows: seq<Row>, r: Row)
    requires r in rows && Counts(r)
    ensures r in Qualifying(rows)
  {
    if rows[0] != r {
      assert r in rows[1..];
      QualifyingHasAll(rows[1..], r);
    }
  }

  /** Rows that do not count change nothing. */
  lemma OthersDoNotMatter(all: set<Row>, some: set<Row>)
    requires forall r :: r in some <==> r in all && Counts(r)
    ensures BrokenRows(all) == BrokenRows(some)
  {
    forall p, c ensures RightBefore(all, p, c) <==> RightBefore(some, p, c) {
    }
    forall c ensures Broken(all, c) <==> Broken(some, c) {
      if Broken(all, c) {
        var p :| RightBefore(all, p, c) && Breaks(p, c);
        assert RightBefore(some, p, c);
      }
      if Broken(some, c) {
        var p :| RightBefore(some, p, c) && Breaks(p, c);
        assert RightBefore(all, p, c);
      }
    }
    forall c ensures c in BrokenRows(all) <==> c in BrokenRows(some) {
      if Broken(all, c) {
        var p :| RightBefore(all, p, c) && Breaks(p, c);
      }
    }
  }

  /** The store counts the broken requests of the table. */
  lemma FullCountMeans(rows: seq<Row>)
    requires IdsIncrease(rows)
    ensures FullCount(rows) == |BrokenRows(AsSet(rows))|
  {
    QualifyingKeepsIds(rows);
    QualifyingMeans(rows);
    CountMeans(Qualifying(rows));
    OthersDoNotMatter(AsSet(rows), AsSet(Qualifying(rows)));
  }

  /** The successful requests with fewer than `limit` of them behind. */
  ghost function Recent(rows: seq<Row>, limit: nat): set<Row> {
    set r | r in rows && Counts(r) && |Later(rows, r)| < limit
  }

  ghost function Later(rows: seq<Row>, r: Row): set<Row> {
    set s | s in rows && Counts(s) && s.id > r.id
  }

  lemma LaterAre(rows: seq<Row>, q: seq<Row>, i: nat)
    requires IdsIncrease(rows) && q == Qualifying(rows) && i < |q|
    ensures |Later(rows, q[i])| == |q| - 1 - i
  {
    QualifyingKeepsIds(rows);
    QualifyingMeans(rows);
    var places := Behind(i, |q|);
    forall s ensures s in Later(rows, q[i]) <==> exists k :: k in places && q[k] == s {
      if s in Later(rows, q[i]) {
        var k :| 0 <= k < |q| && q[k] == s;
        assert k > i;
        assert k in places;
      }
      if k :| k in places && q[k] == s {
        assert q[k] in q;
      }
    }
    ImageSize(q, places, Later(rows, q[i]));
    BehindSize(i, |q|);
  }

  predicate IsBehind(i: nat, k: nat) {
    i < k
  }

  function Behind(i: nat, n: nat): set<nat> {
    set k: nat | k < n && IsBehind(i, k)
  }

  lemma {:induction false} BehindSize(i: nat, n: nat)
    requires i < n
    ensures |Behind(i, n)| == n - 1 - i
    decreases n
  {
    if i + 1 == n {
      assert Behind(i, n) == {};
    } else {
      BehindSize(i, n - 1);
      assert Behind(i, n) == Behind(i, n - 1) + {n - 1};
    }
  }

  lemma {:induction false} NewestAreRecent(rows: seq<Row>, limit: nat)
    requires IdsIncrease(rows)
    ensures AsSet(Newest(Qualifying(rows), limit)) == Recent(rows, limit)
  {
    var q := Qualifying(rows);
    var lo := WindowStart(q, limit);
    QualifyingMeans(rows);
    forall r ensures r in q[lo..] <==> r in Recent(rows, limit) {
      if r in q {
        var i :| 0 <= i < |q| && q[i] == r;
        PlaceDecides(rows, q, limit, i);
      }
    }
  }

  lemma {:induction false} PlaceDecides(rows: seq<Row>, q: seq<Row>, limit: nat, i: nat)
    requires IdsIncrease(rows) && q == Qualifying(rows) && i < |q|
    ensures q[i] in q[WindowStart(q, limit)..] <==> q[i] in Recent(rows, limit)
  {
    var lo := WindowStart(q, limit);
    InTheWindow(rows, q, limit, i);
    if i >= lo {
      assert q[lo..][i - lo] == q[i];
    } else if q[i] in q[lo..] {
      var k :| 0 <= k < |q[lo..]| && q[lo..][k] == q[i];
      InTheWindow(rows, q, limit, lo + k);
    }
  }

  lemma InTheWindow(rows: seq<Row>, q: seq<Row>, limit: nat, i: nat)
    requires IdsIncrease(rows) && q == Qualifying(rows) && i < |q|
    ensures q[i] in Recent(rows, limit) <==> i >= WindowStart(q, limit)
  {
    QualifyingMeans(rows);
    LaterAre(rows, q, i);
    assert q[i] in q;
  }

  /** The command line counts the broken requests among the most recent successful ones. */
  lemma WindowedCountMeans(rows: seq<Row>, limit: nat)
    requires IdsIncrease(rows)
    ensures WindowedCount(rows, limit) == |BrokenRows(Recent(rows, limit))|
  {
    var q := Qualifying(rows);
    var lo := WindowStart(q, limit);
    QualifyingKeepsIds(rows);
    QualifyingMeans(rows);
    SuffixKeepsIds(q, lo);
    CountMeans(q[lo..]);
    NewestAreRecent(rows, limit);
  }
}
