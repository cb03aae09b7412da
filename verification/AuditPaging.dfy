/** Paging through the admin audit log by a cursor, while new rows are written. */
module AuditPaging {
  import opened Seqs

  /** content stands for the columns a listing can be narrowed by, and the rest. */
  datatype Row = Row(id: nat, content: string)

  /** wanted: the conditions on action, actor and target. before: rows below this id only, 0 for no bound. */
  datatype Filter = Filter(wanted: string -> bool, before: nat, limit: int)

  /** The log as the database holds it, in order of id; ids count up from 1. */
  predicate Log(rows: seq<Row>) {
    && (forall i :: 0 <= i < |rows| ==> rows[i].id > 0)
    && forall i, j :: 0 <= i < j < |rows| ==> rows[i].id < rows[j].id
  }

  /** The wanted rows, newest first. */
  function Newest(wanted: string -> bool, rows: seq<Row>): seq<Row> {
    if rows == [] then []
    else
      var n := |rows| - 1;
      Head(wanted, rows[n]) + Newest(wanted, rows[..n])
  }

  function Head(wanted: string -> bool, r: Row): seq<Row> { if wanted(r.content) then [r] else [] }

  function Below(rows: seq<Row>, before: nat): seq<Row> {
    if rows == [] then []
    else (if before == 0 || rows[0].id < before then [rows[0]] else []) + Below(rows[1..], before)
  }

  function Take<T>(xs: seq<T>, n: nat): seq<T> { if |xs| <= n then xs else xs[..n] }

  function Limit(limit: int): nat { if limit <= 0 || limit > 200 then 50 else limit }

  /** What the database returns: one row more than a page. */
  function Query(log: seq<Row>, f: Filter): seq<Row> {
    Take(Matching(log, f), Limit(f.limit) + 1)
  }

  /** One page, and where the next one starts: 0 when there is none. */
  method List(log: seq<Row>, f: Filter) returns (page: seq<Row>, next: nat)
    ensures page == Page(log, f) && next == Cursor(log, f)
    ensures Log(log) ==> PageOf(log, f, page, next)
  {
    if Log(log) {
      ListingIsPage(log, f);
    }
    var rows := Query(log, f);
    page, next := [], 0;
    for n := 0 to |rows|
      invariant page == rows[..n]
    {
      page := page + [rows[n]];
    }
    if |page| > Limit(f.limit) {
      page := page[..Limit(f.limit)];
      next := page[|page| - 1].id;
    }
  }

  function Matching(log: seq<Row>, f: Filter): seq<Row> { Below(Newest(f.wanted, log), f.before) }

  function CursorAfter(rows: seq<Row>, limit: nat): nat
    requires limit > 0
  {
    if |rows| > limit then rows[limit - 1].id else 0
  }

  function Page(log: seq<Row>, f: Filter): seq<Row> { Take(Matching(log, f), Limit(f.limit)) }

  function Cursor(log: seq<Row>, f: Filter): nat { CursorAfter(Matching(log, f), Limit(f.limit)) }

  // ---------------------------------------------------------------------------------------------
  // Following the cursor
  // ---------------------------------------------------------------------------------------------

  predicate Descending(rows: seq<Row>) { forall i, j :: 0 <= i < j < |rows| ==> rows[i].id > rows[j].id }

  lemma {:induction false} NewestDescends(wanted: string -> bool, rows: seq<Row>)
    requires Log(rows)
    ensures Descending(Newest(wanted, rows))
    ensures forall r :: r in Newest(wanted, rows) <==> r in rows && wanted(r.content)
  {
    if rows != [] {
      var n := |rows| - 1;
      NewestDescends(wanted, rows[..n]);
      assert rows == rows[..n] + [rows[n]];
    }
  }

  lemma {:induction false} BelowAll(rows: seq<Row>, before: nat)
    requires before == 0 || forall r :: r in rows ==> r.id < before
    ensures Below(rows, before) == rows
  {
    if rows != [] {
      assert rows[0] in rows && forall r :: r in rows[1..] ==> r in rows;
      BelowAll(rows[1..], before);
    }
  }

  lemma {:induction false} BelowNone(rows: seq<Row>, before: nat)
    requires before > 0 && forall r :: r in rows ==> r.id >= before
    ensures Below(rows, before) == []
  {
    if rows != [] {
      assert rows[0] in rows && forall r :: r in rows[1..] ==> r in rows;
      BelowNone(rows[1..], before);
    }
  }

  lemma {:induction false} BelowAppend(a: seq<Row>, b: seq<Row>, before: nat)
    ensures Below(a + b, before) == Below(a, before) + Below(b, before)
  {
    if a == [] {
      assert a + b == b;
    } else {
      BelowAppend(a[1..], b, before);
      var head := if before == 0 || a[0].id < before then [a[0]] else [];
      assert (a + b)[1..] == a[1..] + b && (a + b)[0] == a[0];
      assert head + (Below(a[1..], before) + Below(b, before)) == head + Below(a[1..], before) + Below(b, before);
    }
  }

  lemma BelowSplit(a: seq<Row>, b: seq<Row>, before: nat)
    requires before > 0 && (forall r :: r in a ==> r.id >= before) && forall r :: r in b ==> r.id < before
    ensures Below(a + b, before) == b
  {
    BelowNone(a, before);
    BelowAll(b, before);
    BelowAppend(a, b, before);
    assert [] + b == b;
  }

  /** Below the k-th row are the rows after it. */
  lemma BelowCursor(rows: seq<Row>, k: nat)
    requires Descending(rows) && k < |rows| && rows[k].id > 0
    ensures Below(rows, rows[k].id) == rows[k + 1..]
  {
    BelowSplit(rows[..k + 1], rows[k + 1..], rows[k].id);
    assert rows == rows[..k + 1] + rows[k + 1..];
  }

  lemma {:induction false} NewestAppend(wanted: string -> bool, log: seq<Row>, more: seq<Row>)
    ensures Newest(wanted, log + more) == Newest(wanted, more) + Newest(wanted, log)
  {
    if more == [] {
      assert log + more == log;
    } else {
      var n := |more| - 1;
      var init, r := more[..n], more[n];
      NewestAppend(wanted, log, init);
      Regroup(log, init, [r]);
      assert more == init + [r];
      Regroup(Head(wanted, r), Newest(wanted, init), Newest(wanted, log));
    }
  }

  lemma LaterIdsAreLarger(log: seq<Row>, more: seq<Row>, i: nat)
    requires Log(log + more) && i < |log|
    ensures Log(more) && forall r :: r in more ==> r.id > log[i].id
  {
    var later := log + more;
    forall j | 0 <= j < |more| ensures more[j].id > log[i].id && more[j].id > 0 {
      assert later[|log| + j] == more[j] && later[i] == log[i];
    }
    forall j, k | 0 <= j < k < |more| ensures more[j].id < more[k].id {
      assert later[|log| + j] == more[j] && later[|log| + k] == more[k];
    }
  }

  /** Rows written later do not show below a cursor that was handed out before. */
  lemma LaterRowsStayAbove(wanted: string -> bool, log: seq<Row>, later: seq<Row>, before: nat, i: nat)
    requires Log(later) && log <= later && i < |log| && 0 < before <= log[i].id
    ensures Below(Newest(wanted, later), before) == Below(Newest(wanted, log), before)
  {
    var more := later[|log|..];
    assert later == log + more;
    LaterIdsAreLarger(log, more, i);
    NewestDescends(wanted, more);
    NewestAppend(wanted, log, more);
    BelowNone(Newest(wanted, more), before);
    BelowAppend(Newest(wanted, more), Newest(wanted, log), before);
  }

  /** The pages seen from the k-th listing on, each of the log as it is then. */
  function Walk(logs: seq<seq<Row>>, f: Filter, k: nat): seq<Row>
    decreases |logs| - k
  {
    if k >= |logs| then []
    else Page(logs[k], f) + if Cursor(logs[k], f) == 0 then [] else Walk(logs, f.(before := Cursor(logs[k], f)), k + 1)
  }

  /** Rows get visible in the order of their ids. */
  ghost predicate Growing(logs: seq<seq<Row>>) {
    (forall k :: 0 <= k < |logs| ==> Log(logs[k])) && forall j, k :: 0 <= j < k < |logs| ==> logs[j] <= logs[k]
  }

  /** What one page and its cursor leave to see. */
  lemma PageAndRest(rows: seq<Row>, limit: nat)
    requires limit > 0 && Descending(rows) && forall i :: 0 <= i < |rows| ==> rows[i].id > 0
    ensures CursorAfter(rows, limit) == 0 ==> rows == Take(rows, limit)
    ensures var cursor := CursorAfter(rows, limit);
            cursor > 0 ==>
              && rows == Take(rows, limit) + Below(rows, cursor) && |Take(rows, limit)| > 0
              && rows[limit - 1].id == cursor && |rows| > limit
  {
    if |rows| > limit {
      BelowCursor(rows, limit - 1);
      assert rows == rows[..limit] + rows[limit..];
    }
  }

  lemma {:induction false} BelowSubset(rows: seq<Row>, before: nat)
    ensures forall r :: r in Below(rows, before) ==> r in rows && (before > 0 ==> r.id < before)
  {
    if rows != [] {
      BelowSubset(rows[1..], before);
    }
  }

  lemma {:induction false} BelowDescends(rows: seq<Row>, before: nat)
    requires Descending(rows)
    ensures Descending(Below(rows, before))
  {
    if rows != [] {
      assert forall i, j :: 0 <= i < j < |rows[1..]| ==> rows[1..][i] == rows[i + 1] && rows[1..][j] == rows[j + 1];
      BelowDescends(rows[1..], before);
      BelowSubset(rows[1..], before);
    }
  }

  lemma {:induction false} BelowTwice(rows: seq<Row>, a: nat, b: nat)
    requires 0 < b && (a == 0 || b <= a)
    ensures Below(Below(rows, a), b) == Below(rows, b)
  {
    if rows != [] {
      BelowTwice(rows[1..], a, b);
      var head := if a == 0 || rows[0].id < a then [rows[0]] else [];
      BelowAppend(head, Below(rows[1..], a), b);
      assert Below([], b) == [] && (head != [] ==> head[1..] == []);
    }
  }

  /** With ids visible in order, following the cursor shows every row that was there when a listing began, and
    * below its cursor, exactly once and newest first, however many rows are written between the pages. */
  lemma {:induction false} WalkShowsAll(logs: seq<seq<Row>>, f: Filter, k: nat)
    requires Growing(logs) && k < |logs| && |Matching(logs[k], f)| < |logs| - k
    ensures Walk(logs, f, k) == Matching(logs[k], f) && Descending(Walk(logs, f, k))
    decreases |logs| - k
  {
    var log, limit := logs[k], Limit(f.limit);
    var all, rows := Newest(f.wanted, log), Matching(log, f);
    NewestDescends(f.wanted, log);
    BelowSubset(all, f.before);
    BelowDescends(all, f.before);
    forall i | 0 <= i < |rows| ensures rows[i] in log && rows[i].id > 0 {
      assert rows[i] in rows;
      var n :| 0 <= n < |log| && log[n] == rows[i];
    }
    PageAndRest(rows, limit);
    var cursor := CursorAfter(rows, limit);
    if cursor == 0 {
      assert Page(log, f) + [] == Page(log, f);
    } else {
      var i :| 0 <= i < |log| && log[i] == rows[limit - 1];
      LaterRowsStayAbove(f.wanted, log, logs[k + 1], cursor, i);
      assert rows[limit - 1] in rows;
      BelowTwice(all, f.before, cursor);
      WalkShowsAll(logs, f.(before := cursor), k + 1);
    }
  }

  // ---------------------------------------------------------------------------------------------
  // Rows that get visible out of order
  // ---------------------------------------------------------------------------------------------

  /** Rows are only added, anywhere: of two writers, the one with the smaller id may commit last. */
  ghost predicate Accumulating(logs: seq<seq<Row>>) {
    (forall k :: 0 <= k < |logs| ==> Log(logs[k]))
    && forall j, k, r :: 0 <= j < k < |logs| && r in logs[j] ==> r in logs[k]
  }

  lemma {:induction false} BelowIff(rows: seq<Row>, before: nat, r: Row)
    ensures r in Below(rows, before) <==> r in rows && (before == 0 || r.id < before)
  {
    if rows != [] {
      BelowIff(rows[1..], before, r);
      assert rows == [rows[0]] + rows[1..];
    }
  }

  lemma MatchingIff(log: seq<Row>, f: Filter, r: Row)
    requires Log(log)
    ensures r in Matching(log, f) <==> r in log && f.wanted(r.content) && (f.before == 0 || r.id < f.before)
  {
    NewestDescends(f.wanted, log);
    BelowIff(Newest(f.wanted, log), f.before, r);
  }

  lemma MatchingDescends(log: seq<Row>, f: Filter)
    requires Log(log)
    ensures Descending(Matching(log, f)) && forall r :: r in Matching(log, f) ==> r.id > 0
  {
    NewestDescends(f.wanted, log);
    BelowDescends(Newest(f.wanted, log), f.before);
    forall r | r in Matching(log, f) ensures r.id > 0 {
      MatchingIff(log, f, r);
      var n :| 0 <= n < |log| && log[n] == r;
    }
  }

  lemma {:induction false} BelowFewer(rows: seq<Row>, before: nat, r: Row)
    requires before > 0 && r in rows && r.id >= before
    ensures |Below(rows, before)| < |rows|
  {
    if rows[0].id < before {
      BelowFewer(rows[1..], before, r);
    } else {
      BelowNoMore(rows[1..], before);
    }
  }

  lemma {:induction false} BelowNoMore(rows: seq<Row>, before: nat)
    ensures |Below(rows, before)| <= |rows|
  {
    if rows != [] {
      BelowNoMore(rows[1..], before);
    }
  }

  predicate Asked(f: Filter, r: Row) { f.wanted(r.content) && (f.before > 0 ==> r.id < f.before) }

  /** The newest of the rows asked for, as many as the limit (50 where that is not from 1 to 200); next is where the
    * rest starts, 0 when there is none. */
  predicate PageOf(log: seq<Row>, f: Filter, page: seq<Row>, next: nat) {
    var most := if 1 <= f.limit <= 200 then f.limit else 50;
    && |page| <= most && (forall i, j :: 0 <= i < j < |page| ==> page[i].id > page[j].id)
    && (forall r :: r in page ==> r in log && Asked(f, r))
    && (forall r :: r in log && Asked(f, r) && r !in page ==>
          |page| == most && next > 0 && forall p :: p in page ==> p.id > r.id)
    && (next > 0 ==> |page| == most && page[most - 1].id == next && exists r :: r in log && Asked(f, r) && r !in page)
  }

  lemma CutPage(rows: seq<Row>, n: nat)
    requires Descending(rows) && n < |rows|
    ensures forall r, p :: r in rows && r !in rows[..n] && p in rows[..n] ==> p.id > r.id
    ensures rows[n] in rows && rows[n] !in rows[..n]
  {
    forall k | 0 <= k < n ensures rows[k] in rows[..n] {
      assert rows[..n][k] == rows[k];
    }
    forall r, p | r in rows && r !in rows[..n] && p in rows[..n] ensures p.id > r.id {
      var i :| 0 <= i < |rows| && rows[i] == r;
      var j :| 0 <= j < n && rows[j] == p;
    }
  }

  /** One listing, in terms of the rows of the log. */
  lemma ListingIsPage(log: seq<Row>, f: Filter)
    requires Log(log)
    ensures PageOf(log, f, Page(log, f), Cursor(log, f))
  {
    var (rows, most) := (Matching(log, f), Limit(f.limit));
    MatchingDescends(log, f);
    forall r ensures r in rows <==> r in log && Asked(f, r) {
      MatchingIff(log, f, r);
    }
    if |rows| > most {
      CutPage(rows, most);
      assert rows[most - 1] in rows && rows[most - 1].id > 0;
    }
  }

  /** Nothing is lost and nothing shown twice. */
  ghost predicate Shows(seen: seq<Row>, atStart: seq<Row>, atEnd: seq<Row>) {
    Descending(seen) && (forall r :: r in atStart ==> r in seen) && forall r :: r in seen ==> r in atEnd
  }

  /** What is at or above a cursor, then what is below it. */
  lemma ShowsTogether(page: seq<Row>, rest: seq<Row>, cursor: nat, atStart: seq<Row>, below: seq<Row>, atEnd: seq<Row>)
    requires Descending(page) && (forall r :: r in page ==> r.id >= cursor && r in atEnd)
    requires Descending(rest) && (forall r :: r in rest ==> r.id < cursor && r in atEnd)
             && (forall r :: r in below ==> r in rest)
    requires forall r :: r in atStart ==> r in page || r in below
    ensures Shows(page + rest, atStart, atEnd)
  {
  }

  lemma RowsOfPage(logs: seq<seq<Row>>, f: Filter, k: nat, r: Row)
    requires Accumulating(logs) && k < |logs| && Cursor(logs[k], f) > 0 && r in Page(logs[k], f)
    ensures r.id >= Cursor(logs[k], f) && r in Matching(logs[|logs| - 1], f)
  {
    var rows, page := Matching(logs[k], f), Page(logs[k], f);
    MatchingDescends(logs[k], f);
    var i :| 0 <= i < |page| && page[i] == r;
    assert rows[i] == r;
    MatchingIff(logs[k], f, r);
    MatchingIff(logs[|logs| - 1], f, r);
  }

  lemma RowsBelow(logs: seq<seq<Row>>, f: Filter, k: nat, r: Row)
    requires Accumulating(logs) && k < |logs| && Cursor(logs[k], f) > 0
    requires r in Matching(logs[|logs| - 1], f.(before := Cursor(logs[k], f)))
    ensures r.id < Cursor(logs[k], f) && r in Matching(logs[|logs| - 1], f)
  {
    var last, at := logs[|logs| - 1], Matching(logs[k], f)[Limit(f.limit) - 1];
    assert at in Matching(logs[k], f);
    MatchingIff(logs[k], f, at);
    MatchingIff(last, f.(before := Cursor(logs[k], f)), r);
    MatchingIff(last, f, r);
  }

  lemma RowsLeft(logs: seq<seq<Row>>, f: Filter, k: nat, r: Row)
    requires Accumulating(logs) && k + 1 < |logs| && Cursor(logs[k], f) > 0 && r in Matching(logs[k], f)
    ensures r in Page(logs[k], f) || r in Matching(logs[k + 1], f.(before := Cursor(logs[k], f)))
  {
    var rows, cursor := Matching(logs[k], f), Cursor(logs[k], f);
    MatchingDescends(logs[k], f);
    PageAndRest(rows, Limit(f.limit));
    if r in Below(rows, cursor) {
      BelowIff(rows, cursor, r);
      MatchingIff(logs[k], f, r);
      MatchingIff(logs[k + 1], f.(before := cursor), r);
    }
  }

  /** One page, then the walk below its cursor. */
  lemma PageThenRest(logs: seq<seq<Row>>, f: Filter, k: nat, rest: seq<Row>)
    requires Accumulating(logs) && k + 1 < |logs| && Cursor(logs[k], f) > 0
    requires var g := f.(before := Cursor(logs[k], f));
             Shows(rest, Matching(logs[k + 1], g), Matching(logs[|logs| - 1], g))
    ensures Shows(Page(logs[k], f) + rest, Matching(logs[k], f), Matching(logs[|logs| - 1], f))
  {
    var last, cursor, page := logs[|logs| - 1], Cursor(logs[k], f), Page(logs[k], f);
    MatchingDescends(logs[k], f);
    forall r | r in page ensures r.id >= cursor && r in Matching(last, f) {
      RowsOfPage(logs, f, k, r);
    }
    forall r | r in rest ensures r.id < cursor && r in Matching(last, f) {
      RowsBelow(logs, f, k, r);
    }
    var below := Matching(logs[k + 1], f.(before := cursor));
    forall r | r in Matching(logs[k], f) ensures r in page || r in below {
      RowsLeft(logs, f, k, r);
    }
    ShowsTogether(page, rest, cursor, Matching(logs[k], f), below, Matching(last, f));
  }

  lemma LastPage(logs: seq<seq<Row>>, f: Filter, k: nat)
    requires Accumulating(logs) && k < |logs| && Cursor(logs[k], f) == 0
    ensures Shows(Page(logs[k], f), Matching(logs[k], f), Matching(logs[|logs| - 1], f))
  {
    var rows, last := Matching(logs[k], f), logs[|logs| - 1];
    MatchingDescends(logs[k], f);
    PageAndRest(rows, Limit(f.limit));
    forall r | r in rows ensures r in Matching(last, f) {
      MatchingIff(logs[k], f, r);
      MatchingIff(last, f, r);
    }
  }

  lemma FewerLeft(logs: seq<seq<Row>>, f: Filter, k: nat)
    requires Accumulating(logs) && k < |logs| && Cursor(logs[k], f) > 0
    ensures |Matching(logs[|logs| - 1], f.(before := Cursor(logs[k], f)))| < |Matching(logs[|logs| - 1], f)|
  {
    var rows, last, cursor := Matching(logs[k], f), logs[|logs| - 1], Cursor(logs[k], f);
    var at := rows[Limit(f.limit) - 1];
    assert at in rows;
    MatchingIff(logs[k], f, at);
    MatchingIff(last, f, at);
    BelowFewer(Matching(last, f), cursor, at);
    BelowTwice(Newest(f.wanted, last), f.before, cursor);
  }

  /** Whatever order rows get visible in, following the cursor shows every row that was there at the start,
    * none twice, newest first, and beside them only rows that were there by the end. */
  lemma {:induction false} WalkLosesNone(logs: seq<seq<Row>>, f: Filter, k: nat)
    requires Accumulating(logs) && k < |logs| && |Matching(logs[|logs| - 1], f)| < |logs| - k
    ensures Shows(Walk(logs, f, k), Matching(logs[k], f), Matching(logs[|logs| - 1], f))
    decreases |logs| - k
  {
    var cursor := Cursor(logs[k], f);
    if cursor == 0 {
      LastPage(logs, f, k);
      assert Page(logs[k], f) + [] == Page(logs[k], f);
    } else {
      FewerLeft(logs, f, k);
      WalkLosesNone(logs, f.(before := cursor), k + 1);
      PageThenRest(logs, f, k, Walk(logs, f.(before := cursor), k + 1));
    }
  }
}
