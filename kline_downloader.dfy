/**
 * The backward cursor pagination of `KlineDownloader.download`.
 *
 * The exchange is a page oracle `fetch`: given a request carrying a cursor
 * `before`, it answers with a reply whose `data` (when present) is a page of
 * candle rows. The method `Download` runs the loop of the source; the function
 * `Trace` specifies, request by request, what the loop asks and receives, and
 * the lemmas below state what follows from it.
 */
module KlineDownloader {
  import opened Wrappers

  /** One candle row: its timestamp (the first column, parsed) and the remaining columns as text. */
  datatype Row = Row(ts: int, columns: seq<string>)

  /** A reply of the client as seen through `result.get("data", [])`; a transport error has no `data`. */
  datatype Reply = Reply(data: Option<seq<Row>>)

  /** The query parameters of one history-candles request. */
  datatype PageRequest = PageRequest(instId: string, bar: string, before: int, limit: int)

  /** One iteration of the loop: the request sent and the page it got back. */
  datatype Step = Step(request: PageRequest, batch: seq<Row>)

  /** What would be written to `save_path`: the header row and then the data rows. */
  datatype CsvTable = CsvTable(path: string, header: seq<string>, records: seq<Row>)

  const PageLimit: int := 100
  const CsvHeader: seq<string> := ["ts", "o", "h", "l", "c", "vol", "volCcy"]

  /** The instrument id requested for a base currency. */
  function InstId(symbol: string): string {
    symbol + "-USDT"
  }

  /** `result.get("data", [])`: a reply without data is an empty page. */
  function Batch(reply: Reply): seq<Row> {
    reply.data.GetOr([])
  }

  /** Timestamp of the oldest (last) row of a newest-first page. */
  function LastTs(rows: seq<Row>): int
    requires rows != []
  {
    rows[|rows| - 1].ts
  }

  /** A condition under which the loop ends: a non-empty page ends before its cursor. */
  ghost predicate Advances(fetch: PageRequest -> Reply) {
    forall q :: Batch(fetch(q)) != [] ==> LastTs(Batch(fetch(q))) < q.before
  }

  predicate Descending(rows: seq<Row>) {
    forall i, j :: 0 <= i < j < |rows| ==> rows[j].ts < rows[i].ts
  }

  predicate Ascending(rows: seq<Row>) {
    forall i, j :: 0 <= i < j < |rows| ==> rows[i].ts < rows[j].ts
  }

  predicate Below(rows: seq<Row>, bound: int) {
    forall k :: 0 <= k < |rows| ==> rows[k].ts < bound
  }

  /**
   * An assumption about the exchange, which the code relies on without checking:
   * each page is newest first and strictly older than its cursor.
   */
  ghost predicate NewestFirst(fetch: PageRequest -> Reply) {
    forall q :: Descending(Batch(fetch(q))) && Below(Batch(fetch(q)), q.before)
  }

  /**
   * The requests of trace `t` carry the instrument, bar and limit 100; the first
   * cursor is `cursor`, each later one the last timestamp of the previous page;
   * every cursor is above `startTs`, and each step holds exactly the page the
   * oracle answers to its request.
   */
  ghost predicate ChainedRequests(fetch: PageRequest -> Reply, t: seq<Step>, instId: string, bar: string,
                                  startTs: int, cursor: int)
  {
    && (forall i :: 0 <= i < |t| ==>
          t[i].request.instId == instId && t[i].request.bar == bar && t[i].request.limit == PageLimit
          && t[i].request.before > startTs && t[i].batch == Batch(fetch(t[i].request)))
    && (t != [] ==> t[0].request.before == cursor)
    && (forall i :: 0 <= i < |t| - 1 ==> Linked(t[i], t[i + 1]))
  }

  /** `next` is the request the loop sends after receiving `prev`'s page: its cursor is that page's last timestamp. */
  predicate Linked(prev: Step, next: Step) {
    prev.batch != [] && next.request.before == LastTs(prev.batch)
  }

  /**
   * Every page of `t` but the last is non-empty and ends after `startTs`; the
   * last one is empty or reaches `startTs`.
   */
  predicate StopsAtBoundary(t: seq<Step>, startTs: int) {
    && (forall i :: 0 <= i < |t| - 1 ==> t[i].batch != [] && LastTs(t[i].batch) > startTs)
    && (t != [] ==> t[|t| - 1].batch == [] || LastTs(t[|t| - 1].batch) <= startTs)
  }

  /** The cursors of `t` never exceed `cursor` and strictly decrease. */
  predicate CursorsDecrease(t: seq<Step>, cursor: int) {
    && (forall i :: 0 <= i < |t| ==> t[i].request.before <= cursor)
    && (forall i, j :: 0 <= i < j < |t| ==> t[j].request.before < t[i].request.before)
  }

  /**
   * The requests the loop issues from cursor `cursor` on, each with the page it
   * received, up to and including the page that stops the loop.
   */
  function Trace(fetch: PageRequest -> Reply, instId: string, bar: string, startTs: int, cursor: int): seq<Step>
    requires Advances(fetch)
    decreases cursor - startTs
  {
    if cursor <= startTs then []
    else
      var request := PageRequest(instId, bar, cursor, PageLimit);
      var batch := Batch(fetch(request));
      if batch == [] || LastTs(batch) <= startTs then [Step(request, batch)]
      else [Step(request, batch)] + Trace(fetch, instId, bar, startTs, LastTs(batch))
  }

  /** The pages of a trace concatenated in fetch order. */
  function Rows(steps: seq<Step>): seq<Row> {
    if steps == [] then [] else steps[0].batch + Rows(steps[1..])
  }

  /** Sum of the page lengths of a trace. */
  function PageTotal(steps: seq<Step>): nat {
    if steps == [] then 0 else |steps[0].batch| + PageTotal(steps[1..])
  }

  /** `list.reverse()` as a function on values. */
  function Reversed(rows: seq<Row>): seq<Row> {
    if rows == [] then [] else Reversed(rows[1..]) + [rows[0]]
  }

  /** The reversal keeps the rows and puts the k-th from the end at position k. */
  lemma {:induction false} ReversedAt(rows: seq<Row>)
    ensures |Reversed(rows)| == |rows|
    ensures forall k :: 0 <= k < |rows| ==> Reversed(rows)[k] == rows[|rows| - 1 - k]
  {
    if rows != [] {
      ReversedAt(rows[1..]);
    }
  }

  /**
   * The download loop: walk the cursor back from `endTs`, appending each page,
   * until a page is empty or reaches `startTs`; then reverse the rows.
   */
  method Download(fetch: PageRequest -> Reply, symbol: string, bar: string, startTs: int, endTs: int,
                  savePath: Option<string>)
    returns (allData: seq<Row>, written: Option<CsvTable>)
    requires Advances(fetch)
    ensures allData == Reversed(Rows(Trace(fetch, InstId(symbol), bar, startTs, endTs)))
    ensures endTs <= startTs ==> allData == []
    ensures written.Some? <==> savePath.Some? && savePath.value != ""
    ensures written.Some? ==> written.value == CsvTable(savePath.value, CsvHeader, allData)
  {
    var instId := InstId(symbol);
    allData := [];
    var currentTs := endTs;
    ghost var steps: seq<Step> := [];
    while currentTs > startTs
      invariant Trace(fetch, instId, bar, startTs, endTs) == steps + Trace(fetch, instId, bar, startTs, currentTs)
      invariant allData == Rows(steps)
      decreases currentTs - startTs
    {
      var request := PageRequest(instId, bar, currentTs, PageLimit);
      var batch := Batch(fetch(request));
      LoopStep(fetch, instId, bar, startTs, endTs, steps, request, batch);
      steps := steps + [Step(request, batch)];
      if batch == [] {
        break;
      }
      allData := allData + batch;
      var lastTs := batch[|batch| - 1].ts;
      if lastTs <= startTs {
        break;
      }
      currentTs := lastTs;
    }
    assert Trace(fetch, instId, bar, startTs, endTs) == steps;
    assert allData == Rows(Trace(fetch, instId, bar, startTs, endTs));
    allData := Reversed(allData);
    if savePath.Some? && savePath.value != "" {
      written := Some(CsvTable(savePath.value, CsvHeader, allData));
    } else {
      written := None;
    }
  }

  /** One iteration of the loop, seen on the trace: the step it records and where the trace goes on. */
  lemma LoopStep(fetch: PageRequest -> Reply, instId: string, bar: string, startTs: int, endTs: int,
                 steps: seq<Step>, request: PageRequest, batch: seq<Row>)
    requires Advances(fetch)
    requires request == PageRequest(instId, bar, request.before, PageLimit) && request.before > startTs
    requires batch == Batch(fetch(request))
    requires Trace(fetch, instId, bar, startTs, endTs) == steps + Trace(fetch, instId, bar, startTs, request.before)
    ensures Rows(steps + [Step(request, batch)]) == Rows(steps) + batch
    ensures batch == [] || LastTs(batch) <= startTs ==>
      Trace(fetch, instId, bar, startTs, endTs) == steps + [Step(request, batch)]
    ensures batch != [] && LastTs(batch) > startTs ==>
      && LastTs(batch) < request.before
      && Trace(fetch, instId, bar, startTs, endTs)
         == (steps + [Step(request, batch)]) + Trace(fetch, instId, bar, startTs, LastTs(batch))
  {
    RowsSnoc(steps, Step(request, batch));
    var here := Trace(fetch, instId, bar, startTs, request.before);
    if batch == [] || LastTs(batch) <= startTs {
      assert here == [Step(request, batch)];
    } else {
      var rest := Trace(fetch, instId, bar, startTs, LastTs(batch));
      assert here == [Step(request, batch)] + rest;
      assert steps + ([Step(request, batch)] + rest) == (steps + [Step(request, batch)]) + rest;
    }
  }

  lemma RowsSnoc(steps: seq<Step>, s: Step)
    ensures Rows(steps + [s]) == Rows(steps) + s.batch
  {
    RowsAppend(steps, [s]);
    assert Rows([s]) == s.batch + Rows([]);
  }

  lemma {:induction false} RowsAppend(a: seq<Step>, b: seq<Step>)
    ensures Rows(a + b) == Rows(a) + Rows(b)
  {
    if a == [] {
      assert a + b == b;
    } else {
      assert (a + b)[1..] == a[1..] + b;
      RowsAppend(a[1..], b);
    }
  }

  /** The number of rows returned is the sum of the page lengths. */
  lemma {:induction false} RowsLength(steps: seq<Step>)
    ensures |Rows(steps)| == |Reversed(Rows(steps))| == PageTotal(steps)
  {
    ReversedAt(Rows(steps));
    if steps != [] {
      RowsLength(steps[1..]);
    }
  }

  /** A window with `endTs <= startTs` issues no request. */
  lemma EmptyWindow(fetch: PageRequest -> Reply, instId: string, bar: string, startTs: int, endTs: int)
    requires Advances(fetch)
    requires endTs <= startTs
    ensures Trace(fetch, instId, bar, startTs, endTs) == []
    ensures Rows(Trace(fetch, instId, bar, startTs, endTs)) == []
  {
  }

  /**
   * Every request carries the instrument, bar and limit 100; the first cursor is
   * the window's end, each later one the last timestamp of the previous page;
   * each step holds exactly the page the oracle answered to its request.
   */
  lemma {:induction false} TraceRequests(fetch: PageRequest -> Reply, instId: string, bar: string, startTs: int, cursor: int)
    requires Advances(fetch)
    ensures ChainedRequests(fetch, Trace(fetch, instId, bar, startTs, cursor), instId, bar, startTs, cursor)
    decreases cursor - startTs
  {
    var t := Trace(fetch, instId, bar, startTs, cursor);
    if cursor > startTs {
      var request := PageRequest(instId, bar, cursor, PageLimit);
      var batch := Batch(fetch(request));
      if batch != [] && LastTs(batch) > startTs {
        var rest := Trace(fetch, instId, bar, startTs, LastTs(batch));
        TraceRequests(fetch, instId, bar, startTs, LastTs(batch));
        assert t == [Step(request, batch)] + rest;
        assert rest != [] && rest[0].request.before == LastTs(batch);
        forall i | 0 < i < |t|
          ensures t[i].request.instId == instId && t[i].request.bar == bar && t[i].request.limit == PageLimit
          ensures t[i].request.before > startTs && t[i].batch == Batch(fetch(t[i].request))
        {
          assert t[i] == rest[i - 1];
        }
        forall i | 0 <= i < |t| - 1
          ensures Linked(t[i], t[i + 1])
        {
          assert t[i + 1] == rest[i];
          if i > 0 {
            assert t[i] == rest[i - 1];
          }
        }
        assert ChainedRequests(fetch, t, instId, bar, startTs, cursor);
      }
    }
  }

  /**
   * The loop stops exactly at the first page that is empty or reaches
   * `startTs`, and issues nothing when the cursor starts at or below `startTs`.
   */
  lemma {:induction false} TraceStops(fetch: PageRequest -> Reply, instId: string, bar: string, startTs: int, cursor: int)
    requires Advances(fetch)
    ensures Trace(fetch, instId, bar, startTs, cursor) == [] <==> cursor <= startTs
    ensures StopsAtBoundary(Trace(fetch, instId, bar, startTs, cursor), startTs)
    decreases cursor - startTs
  {
    var t := Trace(fetch, instId, bar, startTs, cursor);
    if cursor > startTs {
      var request := PageRequest(instId, bar, cursor, PageLimit);
      var batch := Batch(fetch(request));
      if batch != [] && LastTs(batch) > startTs {
        var rest := Trace(fetch, instId, bar, startTs, LastTs(batch));
        TraceStops(fetch, instId, bar, startTs, LastTs(batch));
        assert t == [Step(request, batch)] + rest;
        forall i | 0 <= i < |t| - 1
          ensures t[i].batch != [] && LastTs(t[i].batch) > startTs
        {
          if i > 0 {
            assert t[i] == rest[i - 1];
          }
        }
      }
    }
  }

  /** Under `Advances` the cursor strictly decreases from one request to the next and never exceeds the first. */
  lemma {:induction false} CursorDecreases(fetch: PageRequest -> Reply, instId: string, bar: string, startTs: int, cursor: int)
    requires Advances(fetch)
    ensures CursorsDecrease(Trace(fetch, instId, bar, startTs, cursor), cursor)
    decreases cursor - startTs
  {
    var t := Trace(fetch, instId, bar, startTs, cursor);
    if cursor > startTs {
      var request := PageRequest(instId, bar, cursor, PageLimit);
      var batch := Batch(fetch(request));
      if batch != [] && LastTs(batch) > startTs {
        var rest := Trace(fetch, instId, bar, startTs, LastTs(batch));
        CursorDecreases(fetch, instId, bar, startTs, LastTs(batch));
        assert LastTs(batch) < cursor;
        assert t == [Step(request, batch)] + rest;
        forall i | 0 < i < |t|
          ensures t[i].request.before < cursor
        {
          assert t[i] == rest[i - 1];
          assert rest[i - 1].request.before <= LastTs(batch);
        }
        forall i, j | 0 <= i < j < |t|
          ensures t[j].request.before < t[i].request.before
        {
          assert t[j] == rest[j - 1];
          if i > 0 {
            assert t[i] == rest[i - 1];
          }
        }
      }
    }
  }

  /**
   * Only the pages matter: two oracles whose replies carry the same pages give
   * the same trace, so a reply without `data` (a transport error) behaves
   * exactly as an empty page.
   */
  lemma {:induction false} OnlyPagesMatter(f: PageRequest -> Reply, g: PageRequest -> Reply,
                                           instId: string, bar: string, startTs: int, cursor: int)
    requires Advances(f) && Advances(g)
    requires forall q :: Batch(f(q)) == Batch(g(q))
    ensures Trace(f, instId, bar, startTs, cursor) == Trace(g, instId, bar, startTs, cursor)
    decreases cursor - startTs
  {
    if cursor > startTs {
      var request := PageRequest(instId, bar, cursor, PageLimit);
      var batch := Batch(f(request));
      assert batch == Batch(g(request));
      if batch != [] && LastTs(batch) > startTs {
        OnlyPagesMatter(f, g, instId, bar, startTs, LastTs(batch));
      }
    }
  }

  lemma DescendingConcat(a: seq<Row>, b: seq<Row>)
    requires Descending(a) && Descending(b)
    requires a != [] ==> Below(b, LastTs(a))
    ensures Descending(a + b)
  {
    var c := a + b;
    forall i, j | 0 <= i < j < |c|
      ensures c[j].ts < c[i].ts
    {
      if j >= |a| && i < |a| {
        assert c[j] == b[j - |a|];
        assert c[i].ts >= LastTs(a);
      }
    }
  }

  /** Under `NewestFirst` the concatenated pages are strictly newest first and all older than the first cursor. */
  lemma {:induction false} RowsNewestFirst(fetch: PageRequest -> Reply, instId: string, bar: string, startTs: int, cursor: int)
    requires NewestFirst(fetch)
    requires Advances(fetch)
    ensures Descending(Rows(Trace(fetch, instId, bar, startTs, cursor)))
    ensures Below(Rows(Trace(fetch, instId, bar, startTs, cursor)), cursor)
    decreases cursor - startTs
  {
    var t := Trace(fetch, instId, bar, startTs, cursor);
    if cursor > startTs {
      var request := PageRequest(instId, bar, cursor, PageLimit);
      var batch := Batch(fetch(request));
      assert Descending(batch) && Below(batch, cursor);
      if batch == [] || LastTs(batch) <= startTs {
        assert t == [Step(request, batch)];
        assert Rows(t) == batch + Rows([]);
      } else {
        var rest := Trace(fetch, instId, bar, startTs, LastTs(batch));
        RowsNewestFirst(fetch, instId, bar, startTs, LastTs(batch));
        assert t == [Step(request, batch)] + rest;
        assert t[1..] == rest;
        assert Rows(t) == batch + Rows(rest);
        DescendingConcat(batch, Rows(rest));
        forall k | 0 <= k < |Rows(t)|
          ensures Rows(t)[k].ts < cursor
        {
          if k >= |batch| {
            assert Rows(t)[k] == Rows(rest)[k - |batch|];
          }
        }
      }
    }
  }

  /**
   * Under `NewestFirst` the list returned by `Download` is strictly ascending by
   * timestamp and every row is older than `endTs`.
   */
  lemma DownloadAscending(fetch: PageRequest -> Reply, symbol: string, bar: string, startTs: int, endTs: int)
    requires NewestFirst(fetch)
    requires Advances(fetch)
    ensures var r := Reversed(Rows(Trace(fetch, InstId(symbol), bar, startTs, endTs)));
      Ascending(r) && Below(r, endTs)
  {
    var rows := Rows(Trace(fetch, InstId(symbol), bar, startTs, endTs));
    RowsNewestFirst(fetch, InstId(symbol), bar, startTs, endTs);
    var r := Reversed(rows);
    ReversedAt(rows);
    forall i, j | 0 <= i < j < |r|
      ensures r[i].ts < r[j].ts
    {
      assert r[i] == rows[|rows| - 1 - i] && r[j] == rows[|rows| - 1 - j];
    }
  }

  /** `NewestFirst` is enough for the loop to end. */
  lemma NewestFirstAdvances(fetch: PageRequest -> Reply)
    requires NewestFirst(fetch)
    ensures Advances(fetch)
  {
    forall q | Batch(fetch(q)) != []
      ensures LastTs(Batch(fetch(q))) < q.before
    {
      assert Below(Batch(fetch(q)), q.before);
    }
  }

  /**
   * Under `NewestFirst`, every row of every page but the last is newer than
   * `startTs`: only the final page can reach past the start of the window.
   */
  lemma InnerPagesInWindow(fetch: PageRequest -> Reply, instId: string, bar: string, startTs: int, endTs: int)
    requires NewestFirst(fetch)
    requires Advances(fetch)
    ensures var t := Trace(fetch, instId, bar, startTs, endTs);
      forall i, k :: 0 <= i < |t| - 1 && 0 <= k < |t[i].batch| ==> t[i].batch[k].ts > startTs
  {
    var t := Trace(fetch, instId, bar, startTs, endTs);
    TraceRequests(fetch, instId, bar, startTs, endTs);
    TraceStops(fetch, instId, bar, startTs, endTs);
    forall i, k | 0 <= i < |t| - 1 && 0 <= k < |t[i].batch|
      ensures t[i].batch[k].ts > startTs
    {
      var page := t[i].batch;
      assert Descending(Batch(fetch(t[i].request)));
      assert page[k].ts >= LastTs(page);
    }
  }

  /**
   * The final page is kept whole: with a single page [5, 3] and the window
   * (4, 10], the row at 3, older than the start of the window, is returned.
   */
  lemma BoundaryPageKeptWhole()
    ensures var fetch := (q: PageRequest) =>
              if q.before > 5 then Reply(Some([Row(5, []), Row(3, [])])) else Reply(None);
      Advances(fetch) && NewestFirst(fetch)
      && Reversed(Rows(Trace(fetch, InstId("SOL"), "15m", 4, 10))) == [Row(3, []), Row(5, [])]
  {
    var fetch := (q: PageRequest) =>
      if q.before > 5 then Reply(Some([Row(5, []), Row(3, [])])) else Reply(None);
    assert Advances(fetch);
    var page := [Row(5, []), Row(3, [])];
    var request := PageRequest(InstId("SOL"), "15m", 10, PageLimit);
    assert Batch(fetch(request)) == page;
    var t := Trace(fetch, InstId("SOL"), "15m", 4, 10);
    assert t == [Step(request, page)];
    assert Rows(t) == page + Rows([]);
    ReversedAt(Rows(t));
  }
}
