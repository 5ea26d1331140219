/**
 What the event readers select: every entry of the range or after the cursor, every matching
 one of those, in order and no other, up to where limit and bound say. Stream ids are unique,
 so which entries there are and their order say everything.
 */
module QuerySelection {
  import opened DecisionQuery
  import WormStore

  /** Newest first. */
  predicate Falling(rows: seq<Row>) { forall i, j :: 0 <= i < j < |rows| ==> rows[i].sid > rows[j].sid }

  /** Oldest first. */
  predicate Rising(rows: seq<Row>) { forall i, j :: 0 <= i < j < |rows| ==> rows[i].sid < rows[j].sid }

  lemma InFront(rows: seq<Row>, r: Row)
    requires rows != []
    ensures r in rows <==> r in rows[..|rows| - 1] || r == rows[|rows| - 1]
  {
    assert rows == rows[..|rows| - 1] + [rows[|rows| - 1]];
  }

  /** Every matching entry and no other. */
  lemma {:induction false} MatchingIff(rows: seq<Row>, r: Row)
    ensures r in Matching(rows) <==> r in rows && r.matches
  {
    if rows != [] {
      MatchingIff(rows[..|rows| - 1], r);
      InFront(rows, r);
    }
  }

  /** In the order they had. */
  lemma {:induction false} MatchingKeepsOrder(rows: seq<Row>)
    ensures Falling(rows) ==> Falling(Matching(rows))
    ensures Rising(rows) ==> Rising(Matching(rows))
  {
    if rows != [] {
      var front, last := rows[..|rows| - 1], rows[|rows| - 1];
      MatchingKeepsOrder(front);
      forall r | r in Matching(front)
        ensures (Falling(rows) ==> r.sid > last.sid) && (Rising(rows) ==> r.sid < last.sid)
      {
        MatchingIff(front, r);
      }
    }
  }

  /** From the start on, and up to or below the end if there is one. */
  predicate Within(sid: WormStore.StreamId, start: WormStore.StreamId, end: Bound) {
    start <= sid && (end.UpTo? ==> sid <= end.sid) && (end.Below? ==> sid < end.sid)
  }

  /** A range read backwards is every entry of it. */
  lemma {:induction false} WindowIff(stream: seq<Row>, start: WormStore.StreamId, end: Bound, r: Row)
    ensures r in Window(stream, start, end) <==> r in stream && Within(r.sid, start, end)
  {
    if stream != [] {
      WindowIff(stream[..|stream| - 1], start, end, r);
      InFront(stream, r);
    }
  }

  lemma {:induction false} WindowFalls(stream: seq<Row>, start: WormStore.StreamId, end: Bound)
    requires Rising(stream)
    ensures Falling(Window(stream, start, end))
  {
    if stream != [] {
      var front, last := stream[..|stream| - 1], stream[|stream| - 1];
      WindowFalls(front, start, end);
      forall r | r in Window(front, start, end)
        ensures r.sid < last.sid
      {
        WindowIff(front, start, end, r);
      }
    }
  }

  /** What comes after an id. */
  lemma {:induction false} AfterIff(stream: seq<Row>, since: WormStore.StreamId, r: Row)
    ensures r in After(stream, since) <==> r in stream && r.sid > since
  {
    if stream != [] {
      AfterIff(stream[1..], since, r);
      assert stream == [stream[0]] + stream[1..];
    }
  }

  lemma {:induction false} AfterRises(stream: seq<Row>, since: WormStore.StreamId)
    requires Rising(stream)
    ensures Rising(After(stream, since))
  {
    if stream != [] {
      AfterRises(stream[1..], since);
      forall r | r in After(stream[1..], since)
        ensures r.sid > stream[0].sid
      {
        AfterIff(stream[1..], since, r);
      }
    }
  }

  /** After `m` entries there is more to read, and neither limit nor bound is reached. */
  predicate GoesOn(w: seq<Row>, limit: nat, budget: nat, m: nat) {
    m < |w| && m < budget && |Matching(w[..m])| < limit
  }

  /** A reader stops at the first point where its limit is reached, its bound is, or nothing is left. */
  lemma {:induction false} StopExactly(w: seq<Row>, limit: nat, budget: nat, n: nat)
    requires n <= |w|
    ensures !GoesOn(w, limit, budget, Stop(w, limit, budget, n))
    ensures forall m: nat :: n <= m < Stop(w, limit, budget, n) ==> GoesOn(w, limit, budget, m)
    decreases |w| - n
  {
    if GoesOn(w, limit, budget, n) {
      StopExactly(w, limit, budget, n + 1);
    }
  }

  /**
   What a page of decisions returned and examined: the newest entries of the range, in order,
   of which it returned all that match.
   */
  lemma PageSelects(stream: seq<Row>, start: WormStore.StreamId, end: Bound, page: Page, r: Row)
    requires Rising(stream) && Accounts(page, Window(stream, start, end))
    ensures Falling(page.rows)
    ensures r in page.rows ==> r in stream && r.matches && Within(r.sid, start, end)
    ensures page.exhausted ==> (r in page.rows <==> r in stream && r.matches && Within(r.sid, start, end))
    ensures page.next.Some? ==>
      (r in page.rows <==> r in stream && r.matches && Within(r.sid, start, end) && r.sid >= page.next.value)
  {
    var w := Window(stream, start, end);
    var part := w[..page.scanned];
    WindowIff(stream, start, end, r);
    WindowFalls(stream, start, end);
    MatchingIff(part, r);
    MatchingKeepsOrder(part);
    if page.exhausted {
      assert part == w;
    } else if page.scanned > 0 {
      FrontIsNewest(w, page.scanned, r);
    }
  }

  lemma FrontIsNewest(w: seq<Row>, n: nat, r: Row)
    requires Falling(w) && 0 < n <= |w|
    ensures r in w[..n] <==> r in w && r.sid >= w[n - 1].sid
  {
    if r in w && r.sid >= w[n - 1].sid {
      var i :| 0 <= i < |w| && w[i] == r;
      assert i < n && w[..n][i] == r;
    }
  }
}
