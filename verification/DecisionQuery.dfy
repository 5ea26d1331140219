/**
 The paged reads over the event buffer: the reverse decision query with its scan budget and
 resume cursor, and the forward alert scan. A page may end early on its limit, its budget or
 a transport error; following cursors over a fixed buffer still neither skips nor repeats.
 */
module DecisionQuery {
  import opened Wrappers

  const DECISIONS_QUERY_BATCH := 500

  type StreamId = nat

  /** A buffered event: its stream id, and whether it passes tenant and filters. */
  datatype Row = Row(sid: StreamId, matches: bool)

  /** The upper end of a range: none, or a stream id, itself in or out. */
  datatype Bound = Top | UpTo(sid: StreamId) | Below(sid: StreamId)

  predicate Ordered(stream: seq<Row>) {
    forall i, j :: 0 <= i < j < |stream| ==> Before(stream, i, j)
  }

  predicate Before(stream: seq<Row>, i: int, j: int)
    requires 0 <= i < j < |stream|
  {
    stream[i].sid < stream[j].sid
  }

  lemma OrderedFront(stream: seq<Row>)
    requires stream != [] && Ordered(stream)
    ensures var last, rest := stream[|stream| - 1], stream[..|stream| - 1];
      Ordered(rest) && forall r :: r in rest ==> r.sid < last.sid
  {
    var rest := stream[..|stream| - 1];
    forall i, j | 0 <= i < j < |rest|
      ensures Before(rest, i, j)
    {
      assert Before(stream, i, j);
    }
    forall r | r in rest
      ensures r.sid < stream[|stream| - 1].sid
    {
      var i :| 0 <= i < |rest| && rest[i] == r;
      assert Before(stream, i, |stream| - 1);
    }
  }

  lemma OrderedRest(stream: seq<Row>)
    requires stream != [] && Ordered(stream)
    ensures Ordered(stream[1..]) && forall r :: r in stream[1..] ==> stream[0].sid < r.sid
  {
    var rest := stream[1..];
    forall i, j | 0 <= i < j < |rest|
      ensures Before(rest, i, j)
    {
      assert Before(stream, i + 1, j + 1);
    }
    forall r | r in rest
      ensures stream[0].sid < r.sid
    {
      var i :| 0 <= i < |rest| && rest[i] == r;
      assert Before(stream, 0, i + 1);
    }
  }

  predicate InRange(sid: StreamId, start: StreamId, end: Bound) {
    start <= sid && match end
                    case Top => true
                    case UpTo(hi) => sid <= hi
                    case Below(hi) => sid < hi
  }

  /** The entries of a range, newest first. */
  function Window(stream: seq<Row>, start: StreamId, end: Bound): seq<Row> {
    if stream == [] then []
    else
      var last := stream[|stream| - 1];
      (if InRange(last.sid, start, end) then [last] else []) + Window(stream[..|stream| - 1], start, end)
  }

  /** XREVRANGE with a COUNT. */
  function RevRange(stream: seq<Row>, start: StreamId, end: Bound, count: nat): (r: seq<Row>)
    ensures r <= Window(stream, start, end) && |r| <= count
  {
    var w := Window(stream, start, end);
    if |w| <= count then w else w[..count]
  }

  /** The matching entries, in order. */
  function Matching(rows: seq<Row>): seq<Row> {
    if rows == [] then []
    else Matching(rows[..|rows| - 1]) + (if rows[|rows| - 1].matches then [rows[|rows| - 1]] else [])
  }

  /** How many entries a page examines when nothing fails: up to its limit of matches, its budget, or the end. */
  function Stop(w: seq<Row>, limit: nat, budget: nat, n: nat): (stop: nat)
    requires n <= |w|
    ensures n <= stop <= |w|
    decreases |w| - n
  {
    if n == |w| || n >= budget || |Matching(w[..n])| >= limit then n else Stop(w, limit, budget, n + 1)
  }

  // ----- the reverse query ----------------------------------------------------------------------

  datatype Page = Page(rows: seq<Row>, scanned: nat, exhausted: bool, next: Option<StreamId>)

  /** What every page is, whatever ended it: an exact account of the entries it examined. */
  predicate Accounts(page: Page, w: seq<Row>) {
    && page.scanned <= |w|
    && page.rows == Matching(w[..page.scanned])
    && (page.exhausted ==> page.scanned == |w|)
    && page.next == if page.exhausted || page.scanned == 0 then None else Some(w[page.scanned - 1].sid)
  }

  lemma TakeMatching(w: seq<Row>, n: nat)
    requires n < |w|
    ensures Matching(w[..n + 1]) == Matching(w[..n]) + (if w[n].matches then [w[n]] else [])
  {
    assert w[..n + 1][..n] == w[..n];
  }

  /** Where the walk over the range stands: what was examined, what matched, the last id seen. */
  ghost predicate Standing(
    w: seq<Row>, limit: nat, budget: nat, rows: seq<Row>, scanned: nat, lastSid: Option<StreamId>) {
    && scanned <= |w| && rows == Matching(w[..scanned])
    && lastSid == (if scanned == 0 then None else Some(w[scanned - 1].sid))
    && Stop(w, limit, budget, 0) == Stop(w, limit, budget, scanned)
  }

  lemma OneMore(w: seq<Row>, limit: nat, budget: nat, rows: seq<Row>, scanned: nat, lastSid: Option<StreamId>)
    requires Standing(w, limit, budget, rows, scanned, lastSid) && scanned < |w| && scanned < budget && |rows| < limit
    ensures Standing(w, limit, budget, if w[scanned].matches then rows + [w[scanned]] else rows,
                     scanned + 1, Some(w[scanned].sid))
  {
    TakeMatching(w, scanned);
  }

  /** The inner loop over one batch; it stops early when the page is full. */
  method ExamineBatch(
    entries: seq<Row>, ghost w: seq<Row>, limit: nat, ghost budget: nat,
    rows: seq<Row>, scanned: nat, lastSid: Option<StreamId>)
    returns (rows': seq<Row>, scanned': nat, lastSid': Option<StreamId>, pageFilled: bool)
    requires Standing(w, limit, budget, rows, scanned, lastSid) && |rows| < limit
    requires entries <= w[scanned..] && scanned + |entries| <= budget
    ensures Standing(w, limit, budget, rows', scanned', lastSid')
    ensures if pageFilled then |rows'| >= limit else |rows'| < limit && scanned' == scanned + |entries|
  {
    rows', scanned', lastSid', pageFilled := rows, scanned, lastSid, false;
    for i := 0 to |entries|
      invariant scanned' == scanned + i && |rows'| < limit
      invariant Standing(w, limit, budget, rows', scanned', lastSid')
    {
      assert entries[i] == w[scanned..][i] == w[scanned'];
      OneMore(w, limit, budget, rows', scanned', lastSid');
      scanned' := scanned' + 1;
      lastSid' := Some(entries[i].sid);
      if entries[i].matches {
        rows' := rows' + [entries[i]];
        if |rows'| >= limit {
          pageFilled := true;
          return;
        }
      }
    }
  }

  /** The page went as far as limit, budget and range allow, and says so. */
  predicate Complete(page: Page, w: seq<Row>, limit: nat, budget: nat) {
    && page.scanned == Stop(w, limit, budget, 0)
    && (page.exhausted <==> page.scanned == |w| && |page.rows| < limit && page.scanned < budget)
  }

  lemma PageDone(
    w: seq<Row>, limit: nat, budget: nat, rows: seq<Row>, scanned: nat, lastSid: Option<StreamId>, exhausted: bool)
    requires Standing(w, limit, budget, rows, scanned, lastSid)
    requires exhausted ==> scanned == |w| && |rows| < limit && scanned < budget
    ensures var page := Page(rows, scanned, exhausted, if exhausted then None else lastSid);
      && Accounts(page, w)
      && (exhausted || |rows| >= limit || scanned >= budget ==> Complete(page, w, limit, budget))
  {
  }

  /** A short read is the whole of what is left. */
  lemma ShortRead(stream: seq<Row>, start: StreamId, end: Bound, count: nat)
    ensures |RevRange(stream, start, end, count)| < count ==>
      RevRange(stream, start, end, count) == Window(stream, start, end)
  {
  }

  /**
   `query_decisions`. `fails(k)` says whether read number `k` ends in a transport error. The
   page accounts for what it examined; without errors it examined exactly as far as it should,
   and it is exhausted exactly when it saw the whole range with room left in limit and budget.
   A page that stops short still leaves a cursor, except when it never got to read: then the
   missing cursor does not mean that nothing is left.
   */
  method QueryDecisions(stream: seq<Row>, start: StreamId, end: Bound, limit: nat, budget: nat, fails: nat -> bool)
    returns (page: Page)
    requires Ordered(stream)
    ensures Accounts(page, Window(stream, start, end))
    ensures (forall k :: !fails(k)) ==> Complete(page, Window(stream, start, end), limit, budget)
    ensures page.next.None? && !page.exhausted <==> limit == 0 || budget == 0 || fails(0)
  {
    ghost var w := Window(stream, start, end);
    var rows: seq<Row>, scanned: nat, cursorMax: Bound := [], 0, end;
    var lastSid: Option<StreamId>, exhausted, readNo: nat := None, false, 0;
    assert w[0..] == w && w[..0] == [];
    while |rows| < limit && scanned < budget
      invariant Standing(w, limit, budget, rows, scanned, lastSid)
      invariant Window(stream, start, cursorMax) == w[scanned..] && !exhausted
      invariant scanned == 0 <==> readNo == 0
      invariant readNo == 0 ==> rows == []
      invariant readNo > 0 ==> !fails(0) && limit > 0 && budget > 0
      decreases |w| - scanned
    {
      var batch := if DECISIONS_QUERY_BATCH <= budget - scanned then DECISIONS_QUERY_BATCH else budget - scanned;
      if fails(readNo) {
        break;
      }
      var entries := RevRange(stream, start, cursorMax, batch);
      readNo := readNo + 1;
      ShortRead(stream, start, cursorMax, batch);
      if entries == [] {
        exhausted := true;
        break;
      }
      var pageFilled;
      rows, scanned, lastSid, pageFilled := ExamineBatch(entries, w, limit, budget, rows, scanned, lastSid);
      if pageFilled {
        break;
      }
      if |entries| < batch {
        exhausted := true;
        break;
      }
      WindowAfter(stream, start, end, scanned);
      cursorMax := Below(lastSid.value);
    }
    PageDone(w, limit, budget, rows, scanned, lastSid, exhausted);
    page := Page(rows, scanned, exhausted, if exhausted then None else lastSid);
  }

  lemma WindowCons(stream: seq<Row>, start: StreamId, end: Bound)
    requires stream != []
    ensures var last, rest := stream[|stream| - 1], stream[..|stream| - 1];
      Window(stream, start, end) == if InRange(last.sid, start, end) then [last] + Window(rest, start, end)
        else Window(rest, start, end)
  {
  }

  lemma ConsRest(last: Row, tail: seq<Row>, n: nat)
    requires 1 < n <= |tail| + 1
    ensures ([last] + tail)[n - 1] == tail[n - 2] && ([last] + tail)[n..] == tail[n - 1..]
  {
  }

  /** Below the last entry examined lies exactly the rest of the range. */
  lemma {:induction false} WindowAfter(stream: seq<Row>, start: StreamId, end: Bound, n: nat)
    requires Ordered(stream) && 0 < n <= |Window(stream, start, end)|
    ensures var w := Window(stream, start, end); Window(stream, start, Below(w[n - 1].sid)) == w[n..]
  {
    var w, last, rest := Window(stream, start, end), stream[|stream| - 1], stream[..|stream| - 1];
    var tail := Window(rest, start, end);
    OrderedFront(stream);
    WindowCons(stream, start, end);
    WindowCons(stream, start, Below(w[n - 1].sid));
    if !InRange(last.sid, start, end) {
      WindowBelow(stream, start, end, n - 1);
      WindowAfter(rest, start, end, n);
    } else if n > 1 {
      ConsRest(last, tail, n);
      WindowBelow(stream, start, end, n - 2);
      WindowAfter(rest, start, end, n - 1);
    } else {
      assert w[1..] == tail;
      BelowAll(rest, start, end, last.sid);
    }
  }

  /** Entries of a window before the last of the stream are below it. */
  lemma WindowBelow(stream: seq<Row>, start: StreamId, end: Bound, i: nat)
    requires stream != [] && Ordered(stream) && i < |Window(stream[..|stream| - 1], start, end)|
    ensures Window(stream[..|stream| - 1], start, end)[i].sid < stream[|stream| - 1].sid
  {
    OrderedFront(stream);
    WindowMembers(stream[..|stream| - 1], start, end, i);
  }

  /** Entries of a window are entries of the stream, in range. */
  lemma {:induction false} WindowMembers(stream: seq<Row>, start: StreamId, end: Bound, i: nat)
    requires i < |Window(stream, start, end)|
    ensures Window(stream, start, end)[i] in stream && InRange(Window(stream, start, end)[i].sid, start, end)
  {
    var last, rest := stream[|stream| - 1], stream[..|stream| - 1];
    assert stream == rest + [last];
    if InRange(last.sid, start, end) {
      if i > 0 {
        WindowMembers(rest, start, end, i - 1);
      }
    } else {
      WindowMembers(rest, start, end, i);
    }
  }

  /** A bound above every entry, inside the old one, cuts nothing off. */
  lemma {:induction false} BelowAll(stream: seq<Row>, start: StreamId, end: Bound, sid: StreamId)
    requires (forall r :: r in stream ==> r.sid < sid) && InRange(sid, start, end)
    ensures Window(stream, start, Below(sid)) == Window(stream, start, end)
  {
    if stream != [] {
      BelowAll(stream[..|stream| - 1], start, end, sid);
    }
  }

  // ----- following cursors ----------------------------------------------------------------------------

  /** Pages read one after the other, each resuming below the cursor of the one before. */
  ghost predicate Followed(stream: seq<Row>, start: StreamId, end: Bound, pages: seq<Page>)
    decreases |pages|
  {
    pages != [] ==>
      && Accounts(pages[0], Window(stream, start, end))
      && (|pages| > 1 ==> pages[0].next.Some? && Followed(stream, start, Below(pages[0].next.value), pages[1..]))
  }

  function AllRows(pages: seq<Page>): seq<Row> { if pages == [] then [] else pages[0].rows + AllRows(pages[1..]) }

  function AllScanned(pages: seq<Page>): nat { if pages == [] then 0 else pages[0].scanned + AllScanned(pages[1..]) }

  lemma {:induction false} MatchingSplit(w: seq<Row>, n: nat)
    requires n <= |w|
    ensures Matching(w) == Matching(w[..n]) + Matching(w[n..])
  {
    if n == |w| {
      assert w[..n] == w && w[n..] == [];
    } else {
      MatchingSplit(w[..|w| - 1], n);
      assert w[..|w| - 1][..n] == w[..n];
      assert w[n..][..|w| - n - 1] == w[..|w| - 1][n..];
    }
  }

  /** Two stretches in a row are one: the second starts right after what the first examined. */
  lemma StretchesCompose(w: seq<Row>, n: nat, m: nat)
    requires n <= |w| && m <= |w| - n
    ensures Matching(w[..n]) + Matching(w[n..][..m]) == Matching(w[..n + m])
  {
    MatchingSplit(w[..n + m], n);
    assert w[..n + m][..n] == w[..n] && w[..n + m][n..] == w[n..][..m];
  }

  /**
   Following cursors over a fixed buffer returns the matching entries of the range, newest
   first, each exactly once: the pages so far hold those of the part examined, and when the
   last page is exhausted that part is the whole range.
   */
  lemma {:induction false} FollowingIsExact(stream: seq<Row>, start: StreamId, end: Bound, pages: seq<Page>)
    requires Ordered(stream) && Followed(stream, start, end, pages)
    ensures var w, n := Window(stream, start, end), AllScanned(pages);
      && n <= |w| && AllRows(pages) == Matching(w[..n])
      && (pages != [] && pages[|pages| - 1].exhausted ==> n == |w|)
    decreases |pages|
  {
    var w := Window(stream, start, end);
    if pages == [] {
      assert w[..0] == [];
    } else if |pages| == 1 {
      assert AllRows(pages[1..]) == [] && AllScanned(pages[1..]) == 0;
    } else {
      var page, rest := pages[0], pages[1..];
      WindowAfter(stream, start, end, page.scanned);
      FollowingIsExact(stream, start, Below(page.next.value), rest);
      PagesCompose(w, pages);
    }
  }

  /** The first page and what follows it add up. */
  lemma PagesCompose(w: seq<Row>, pages: seq<Page>)
    requires |pages| > 1 && pages[0].scanned <= |w| && pages[0].rows == Matching(w[..pages[0].scanned])
    requires AllScanned(pages[1..]) <= |w| - pages[0].scanned
    requires AllRows(pages[1..]) == Matching(w[pages[0].scanned..][..AllScanned(pages[1..])])
    ensures AllScanned(pages) <= |w| && AllRows(pages) == Matching(w[..AllScanned(pages)])
    ensures pages[|pages| - 1] == pages[1..][|pages| - 2]
  {
    StretchesCompose(w, pages[0].scanned, AllScanned(pages[1..]));
  }

  /** Every page that is followed examined something, so the walk ends. */
  lemma {:induction false} FollowingEnds(stream: seq<Row>, start: StreamId, end: Bound, pages: seq<Page>)
    requires Ordered(stream) && Followed(stream, start, end, pages) && pages != []
    ensures |pages| <= AllScanned(pages) + 1 <= |Window(stream, start, end)| + 1
    decreases |pages|
  {
    FollowingIsExact(stream, start, end, pages);
    if |pages| > 1 {
      FollowingEnds(stream, start, Below(pages[0].next.value), pages[1..]);
    }
  }

  /** A page read without errors, with limit and budget at least one, is exhausted or can be followed. */
  lemma ProgressOrDone(w: seq<Row>, limit: nat, budget: nat, page: Page)
    requires limit >= 1 && budget >= 1 && Accounts(page, w) && Complete(page, w, limit, budget)
    ensures page.exhausted || page.next.Some?
  {
    assert w[..0] == [] && Matching([]) == [];
    if w != [] {
      assert Stop(w, limit, budget, 0) == Stop(w, limit, budget, 1);
    }
  }

  // ----- the forward alert scan ----------------------------------------------------------------------------

  function After(stream: seq<Row>, since: StreamId): seq<Row> {
    if stream == [] then [] else (if stream[0].sid > since then [stream[0]] else []) + After(stream[1..], since)
  }

  datatype Scan = Scan(alerts: seq<Row>, cursor: StreamId, error: bool)

  /** Where a scan stops: after its limit of alerts (one, if the limit is zero), its scan bound, or the end. */
  function ScanStop(w: seq<Row>, limit: nat, scan: nat): nat { Stop(w, if limit == 0 then 1 else limit, scan, 0) }

  /** A scan with nothing left to do has returned what its bounds allow, and resumes at the rest. */
  lemma ScanDone(
    stream: seq<Row>, since: StreamId, limit: nat, scan: nat, alerts: seq<Row>, n: nat, lastSid: Option<StreamId>)
    requires Ordered(stream) && Standing(After(stream, since), limit, scan, alerts, n, lastSid)
    requires n == |After(stream, since)| || n >= scan || |alerts| >= limit
    ensures var w := After(stream, since); var stop := Stop(w, limit, scan, 0);
      alerts == Matching(w[..stop]) && After(stream, lastSid.GetOr(since)) == w[stop..]
  {
    if n > 0 {
      AfterCursor(stream, since, n);
    }
  }

  /** `scan_alerts`. */
  method ScanAlerts(stream: seq<Row>, since: StreamId, limit: nat, scan: nat, fail: bool) returns (r: Scan)
    requires Ordered(stream)
    ensures fail ==> r == Scan([], since, true)
    ensures !fail ==>
      !r.error && r.alerts == Matching(After(stream, since)[..ScanStop(After(stream, since), limit, scan)])
    ensures !fail ==> After(stream, r.cursor) == After(stream, since)[ScanStop(After(stream, since), limit, scan)..]
  {
    if fail {
      return Scan([], since, true);
    }
    var w := After(stream, since);
    var entries := if |w| <= scan then w else w[..scan];
    ghost var atLeast := if limit == 0 then 1 else limit;
    var alerts, cursor;
    ghost var n, lastSid;
    alerts, cursor, n, lastSid := ExamineAlerts(entries, w, limit, scan, since);
    ScanDone(stream, since, atLeast, scan, alerts, n, lastSid);
    r := Scan(alerts, cursor, false);
  }

  /** The loop over the entries read; it breaks after appending an alert that reaches the limit. */
  method ExamineAlerts(entries: seq<Row>, ghost w: seq<Row>, limit: nat, ghost scan: nat, since: StreamId)
    returns (alerts: seq<Row>, cursor: StreamId, ghost n: nat, ghost lastSid: Option<StreamId>)
    requires entries <= w && |entries| == if |w| <= scan then |w| else scan
    ensures var atLeast := if limit == 0 then 1 else limit;
      && Standing(w, atLeast, scan, alerts, n, lastSid) && (n == |entries| || |alerts| >= atLeast)
    ensures cursor == lastSid.GetOr(since)
  {
    ghost var atLeast := if limit == 0 then 1 else limit;
    alerts, cursor, n, lastSid := [], since, 0, None;
    assert w[..0] == [];
    for i := 0 to |entries|
      invariant n == i && |alerts| < atLeast && Standing(w, atLeast, scan, alerts, n, lastSid)
      invariant cursor == lastSid.GetOr(since)
    {
      OneMore(w, atLeast, scan, alerts, n, lastSid);
      cursor := entries[i].sid;
      lastSid, n := Some(entries[i].sid), n + 1;
      if entries[i].matches {
        alerts := alerts + [entries[i]];
        if |alerts| >= limit {
          break;
        }
      }
    }
  }

  /** After the last entry examined come exactly the rest. */
  lemma {:induction false} AfterCursor(stream: seq<Row>, since: StreamId, n: nat)
    requires Ordered(stream) && 0 < n <= |After(stream, since)|
    ensures var w := After(stream, since); After(stream, w[n - 1].sid) == w[n..]
  {
    var w, rest := After(stream, since), stream[1..];
    OrderedRest(stream);
    if stream[0].sid > since {
      assert w == [stream[0]] + After(rest, since);
      if n > 1 {
        AfterMembers(rest, since, n - 2);
        AfterCursor(rest, since, n - 1);
        assert w[n..] == After(rest, since)[n - 1..];
      } else {
        AfterAll(rest, since, stream[0].sid);
        assert w[1..] == After(rest, since);
      }
    } else {
      AfterMembers(rest, since, n - 1);
      AfterCursor(rest, since, n);
    }
  }

  lemma {:induction false} AfterMembers(stream: seq<Row>, since: StreamId, i: nat)
    requires i < |After(stream, since)|
    ensures After(stream, since)[i] in stream && After(stream, since)[i].sid > since
  {
    if stream[0].sid > since {
      if i > 0 {
        AfterMembers(stream[1..], since, i - 1);
      }
    } else {
      AfterMembers(stream[1..], since, i);
    }
  }

  lemma {:induction false} AfterAll(stream: seq<Row>, since: StreamId, sid: StreamId)
    requires since <= sid && forall r :: r in stream ==> sid < r.sid
    ensures After(stream, sid) == After(stream, since)
  {
    if stream != [] {
      AfterAll(stream[1..], since, sid);
    }
  }

  /** Polls made one after the other, each resuming at the cursor of the one before. */
  ghost predicate Polled(stream: seq<Row>, since: StreamId, scans: seq<Scan>, limits: seq<(nat, nat)>)
    requires |scans| == |limits|
    decreases |scans|
  {
    scans != [] ==>
      var w, n := After(stream, since), ScanStop(After(stream, since), limits[0].0, limits[0].1);
      && (scans[0].error ==> scans[0] == Scan([], since, true))
      && (!scans[0].error ==> scans[0].alerts == Matching(w[..n]) && After(stream, scans[0].cursor) == w[n..])
      && Polled(stream, scans[0].cursor, scans[1..], limits[1..])
  }

  function AllAlerts(scans: seq<Scan>): seq<Row> { if scans == [] then [] else scans[0].alerts + AllAlerts(scans[1..]) }

  function LastCursor(since: StreamId, scans: seq<Scan>): StreamId {
    if scans == [] then since else scans[|scans| - 1].cursor
  }

  /**
   However the polls are bounded and whichever of them fail, together they have returned the
   matching entries of some front part of what came after the start, each once and in order,
   and the last cursor stands right after that part.
   */
  lemma {:induction false} PollingIsExact(
    stream: seq<Row>, since: StreamId, scans: seq<Scan>, limits: seq<(nat, nat)>)
    returns (n: nat)
    requires |scans| == |limits| && Polled(stream, since, scans, limits)
    ensures n <= |After(stream, since)| && AllAlerts(scans) == Matching(After(stream, since)[..n])
    ensures After(stream, LastCursor(since, scans)) == After(stream, since)[n..]
    decreases |scans|
  {
    var w := After(stream, since);
    if scans == [] {
      n := 0;
      assert w[..0] == [] && w[0..] == w;
    } else {
      var m := PollingIsExact(stream, scans[0].cursor, scans[1..], limits[1..]);
      if scans[0].error {
        n := m;
      } else {
        var first := ScanStop(w, limits[0].0, limits[0].1);
        n := first + m;
        PollsCompose(w, first, m, After(stream, LastCursor(scans[0].cursor, scans[1..])));
      }
      assert |scans| > 1 ==> scans[|scans| - 1] == scans[1..][|scans[1..]| - 1];
    }
  }

  /** What a first poll examined and what the later ones did are one front part. */
  lemma PollsCompose(w: seq<Row>, first: nat, m: nat, left: seq<Row>)
    requires first <= |w| && m <= |w[first..]| && left == w[first..][m..]
    ensures Matching(w[..first]) + Matching(w[first..][..m]) == Matching(w[..first + m]) && left == w[first + m..]
  {
    StretchesCompose(w, first, m);
  }
}
