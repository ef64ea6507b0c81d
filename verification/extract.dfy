/** `get_records`: routing a table's query to one paginated request or to
    merged chunk requests, and shrinking the window on a query timeout. */
module Extract {
  import opened Base
  import opened Text
  import opened Json
  import opened Errors
  import opened Clock
  import opened Tables
  import opened Query
  import opened Pagination
  import opened Merge

  /** The paginated result the service gives for a query text: the
      records delivered and the error, if any, that ended it. */
  type Server = string -> Stream

  /** Error codes that make the extractor retry over smaller windows. */
  const ShrinkableCodes: seq<Json> := [Str("QUERY_TIMEOUT"), Str("OPERATION_TOO_LARGE")]

  predicate Shrinkable(e: Exc)
  {
    e.Salesforce? && e.code in ShrinkableCodes
  }

  /** How a table's query is sent. */
  datatype Route =
    | Single(query: string)
      /** One query per field chunk, merged in lock step on the primary key. */
    | Chunked(queries: seq<string>)
      /** A chunk query would list a missing replication key. */
    | ChunkWithoutReplicationKey
    | Refused

  /** The query of each field chunk: the chunk plus both keys, over the
      same window and limit. */
  function ChunkQueries(instanceUrl: string, table: Table, fields: seq<string>, w: Window, limit: Option<int>): (qs: seq<string>)
    requires HasPrimaryKey(table) && table.replicationKey.Some?
    ensures |qs| == |ChunkFieldLists(table, fields)|
    ensures forall i :: 0 <= i < |qs| ==> qs[i] == ConstructQuery(instanceUrl, table, ChunkFieldLists(table, fields)[i], w, limit)
  {
    var lists := ChunkFieldLists(table, fields);
    seq(|lists|, i requires 0 <= i < |lists| => ConstructQuery(instanceUrl, table, lists[i], w, limit))
  }

  /** The routing at the top of `get_records`. */
  function RouteQuery(instanceUrl: string, table: Table, fields: seq<string>, w: Window, limit: Option<int>): Route
  {
    var q := ConstructQuery(instanceUrl, table, fields, w, limit);
    if |q| <= MaxQueryLength then Single(q)
    else if !HasPrimaryKey(table) then Refused
    else if table.replicationKey.Some? then Chunked(ChunkQueries(instanceUrl, table, fields, w, limit))
    else if fields == [] then Chunked([])
    else ChunkWithoutReplicationKey
  }

  /** The stream `get_records` yields from before any shrinking. */
  function Dispatch(server: Server, instanceUrl: string, table: Table, fields: seq<string>, w: Window, limit: Option<int>): Stream
  {
    match RouteQuery(instanceUrl, table, fields, w, limit)
    case Single(q) => server(q)
    case Chunked(qs) => LockStep(seq(|qs|, i requires 0 <= i < |qs| => server(qs[i])), table.primaryKey.value)
    case ChunkWithoutReplicationKey => Stream([], Some(Python(TypeError)))
    case Refused => Stream([], Some(QueryLengthExceeded(table.name)))
  }

  /** A query within the ceiling is sent as it is; a longer one is split
      into one query per field chunk when the table has a primary key (each
      selecting its chunk and both keys, with the full query's filter,
      ordering and limit, and together selecting every field), and is
      refused otherwise. */
  lemma RouteQuerySpec(instanceUrl: string, table: Table, fields: seq<string>, w: Window, limit: Option<int>)
    ensures var q := ConstructQuery(instanceUrl, table, fields, w, limit);
            var r := RouteQuery(instanceUrl, table, fields, w, limit);
            && (|q| <= MaxQueryLength <==> r.Single?)
            && (r.Single? ==> r.query == q)
            && (r.Refused? <==> |q| > MaxQueryLength && !HasPrimaryKey(table))
            && (r.ChunkWithoutReplicationKey? ==> |q| > MaxQueryLength && table.replicationKey.None? && fields != [])
    ensures var q := ConstructQuery(instanceUrl, table, fields, w, limit);
            |q| > MaxQueryLength && HasPrimaryKey(table) && table.replicationKey.Some? ==>
              var r := RouteQuery(instanceUrl, table, fields, w, limit);
              var full := PlanQuery(instanceUrl, table, fields, w, limit);
              var lists := ChunkFieldLists(table, fields);
              && r.Chunked?
              && |r.queries| == |FieldChunker(fields, ChunkBudget)|
              && (forall i :: 0 <= i < |r.queries| ==>
                    var p := PlanQuery(instanceUrl, table, lists[i], w, limit);
                    && r.queries[i] == Render(p)
                    && table.primaryKey.value in Elems(p.select)
                    && table.replicationKey.value in Elems(p.select)
                    && p.filter == full.filter && p.orderBy == full.orderBy && p.limit == full.limit)
              && (forall f :: f in fields ==>
                    exists i :: 0 <= i < |lists| && f in Elems(PlanQuery(instanceUrl, table, lists[i], w, limit).select))
  {
    if HasPrimaryKey(table) && table.replicationKey.Some? {
      ChunkPlansShareWindow(instanceUrl, table, fields, w, limit);
    }
  }

  /** Without a replication key, what is sent does not depend on the
      window. */
  lemma NoKeySameDispatch(server: Server, instanceUrl: string, table: Table, fields: seq<string>,
                          w1: Window, w2: Window, limit: Option<int>)
    requires table.replicationKey.None?
    ensures Dispatch(server, instanceUrl, table, fields, w1, limit) == Dispatch(server, instanceUrl, table, fields, w2, limit)
  {
    NoKeySameQuery(instanceUrl, table, fields, w1, w2, limit);
    assert RouteQuery(instanceUrl, table, fields, w1, limit) == RouteQuery(instanceUrl, table, fields, w2, limit);
  }

  // ---------------------------------------------------------------------
  // Window shrinking
  // ---------------------------------------------------------------------

  /** `(end - start) / factor`, in microseconds. */
  function Nth(w: Window, factor: int): real
    requires factor != 0
  {
    (w.end - w.start) as real / factor as real
  }

  /** `timedelta(seconds=i * nth)` in microseconds: `i * nth`, computed
      exactly as `i * (end - start) / factor`, rounded to whole
      microseconds as `timedelta` rounds. */
  function Offset(w: Window, factor: int, i: int): int
    requires factor != 0
  {
    RoundHalfEven((i * (w.end - w.start)) as real / factor as real)
  }

  /** `[start + i*nth, start + (i+1)*nth)`. */
  function SubWindow(w: Window, factor: int, i: int): Window
    requires factor != 0
  {
    Window(w.start + Offset(w, factor, i), w.start + Offset(w, factor, i + 1))
  }

  lemma ScaleMonotone(d: int, i: int, j: int)
    requires 0 <= d && i <= j
    ensures i * d <= j * d
  {
    assert j * d - i * d == (j - i) * d;
  }

  lemma QuotientMonotone(a: real, b: real, f: real)
    requires a <= b && 0.0 < f
    ensures a / f <= b / f
  {
    assert b / f - a / f == (b - a) / f;
  }

  /** For a forward window the offsets grow with `i`. */
  lemma OffsetMonotone(w: Window, factor: int, i: int, j: int)
    requires factor >= 1 && w.start <= w.end && i <= j
    ensures Offset(w, factor, i) <= Offset(w, factor, j)
  {
    var d := w.end - w.start;
    ScaleMonotone(d, i, j);
    QuotientMonotone((i * d) as real, (j * d) as real, factor as real);
    RoundHalfEvenMonotone((i * d) as real / factor as real, (j * d) as real / factor as real);
  }

  lemma OffsetEnds(w: Window, factor: int)
    requires factor >= 1
    ensures Offset(w, factor, 0) == 0
    ensures Offset(w, factor, factor) == w.end - w.start
  {
    var d := w.end - w.start;
    assert (0 * d) as real / factor as real == 0.0;
    RoundHalfEvenOfInteger(0);
    assert (factor * d) as real / factor as real == d as real;
    RoundHalfEvenOfInteger(d);
  }

  lemma SubWindowForward(w: Window, factor: int, i: int)
    requires factor != 0
    ensures w.start <= w.end && factor >= 1 ==> SubWindow(w, factor, i).start <= SubWindow(w, factor, i).end
  {
    if w.start <= w.end && factor >= 1 {
      OffsetMonotone(w, factor, i, i + 1);
    }
  }

  /** The sub-windows tile the window: the first starts at its start, the
      last ends at its end, and each ends where the next begins. */
  lemma SubWindowsTile(w: Window, factor: int)
    requires factor >= 1
    ensures SubWindow(w, factor, 0).start == w.start
    ensures SubWindow(w, factor, factor - 1).end == w.end
    ensures forall i :: 0 <= i < factor - 1 ==> SubWindow(w, factor, i).end == SubWindow(w, factor, i + 1).start
  {
    OffsetEnds(w, factor);
  }

  /** For a forward window, every instant of it lies in exactly one
      sub-window, and the sub-windows are in chronological order. */
  lemma SubWindowsPartition(w: Window, factor: int, v: Instant)
    requires factor >= 1 && w.start <= w.end
    ensures w.start <= v < w.end <==>
              exists i :: 0 <= i < factor && SubWindow(w, factor, i).start <= v < SubWindow(w, factor, i).end
    ensures forall i, j :: 0 <= i < j < factor ==> SubWindow(w, factor, i).end <= SubWindow(w, factor, j).start
  {
    SubWindowsTile(w, factor);
    forall i, j | 0 <= i < j < factor
      ensures SubWindow(w, factor, i).end <= SubWindow(w, factor, j).start
    {
      OffsetMonotone(w, factor, i + 1, j);
    }
    CoverPrefix(w, factor, v, factor);
  }

  /** The first `k` sub-windows cover `[start, end of sub-window k-1)`. */
  lemma {:induction false} CoverPrefix(w: Window, factor: int, v: Instant, k: int)
    requires factor >= 1 && w.start <= w.end && 1 <= k <= factor
    ensures w.start <= v < SubWindow(w, factor, k - 1).end <==>
              exists i :: 0 <= i < k && SubWindow(w, factor, i).start <= v < SubWindow(w, factor, i).end
    decreases k
  {
    OffsetEnds(w, factor);
    if k == 1 {
      OffsetMonotone(w, factor, 0, 1);
    } else {
      CoverPrefix(w, factor, v, k - 1);
      OffsetMonotone(w, factor, 0, k - 1);
      OffsetMonotone(w, factor, k - 1, k);
      var prev := SubWindow(w, factor, k - 2);
      var last := SubWindow(w, factor, k - 1);
      assert prev.end == last.start;
      if last.start <= v < last.end {
        assert exists i :: 0 <= i < k && SubWindow(w, factor, i).start <= v < SubWindow(w, factor, i).end;
      }
    }
  }

  /** The floor on the sub-window size only stops shrinking for a window
      that ends before it starts. */
  lemma FloorFires(w: Window, factor: int)
    requires factor != 0
    ensures factor >= 1 ==> (Nth(w, factor) / Second as real < OneDaySecondsField() as real <==> w.start > w.end)
  {
    if factor < 0 { return; }
    var d := (w.end - w.start) as real;
    var f := factor as real;
    if w.start > w.end {
      assert d < 0.0;
      assert d / f < 0.0;
    } else {
      assert d >= 0.0;
      assert d / f >= 0.0;
    }
  }

  /** A forward window always passes the floor test. */
  lemma FloorPasses(w: Window, factor: int)
    requires factor >= 1 && w.start <= w.end
    ensures !(Nth(w, factor) / Second as real < OneDaySecondsField() as real)
  {
    FloorFires(w, factor);
  }

  // ---------------------------------------------------------------------
  // `get_records`
  // ---------------------------------------------------------------------

  /** `get_records(table, fields, start, end, limit, factor)`: the
      dispatched stream, and on a timeout-like error the same window split
      into `factor` sub-windows, each extracted with factor `factor + 1`.
      Records yielded before the error are kept. `fuel` bounds the depth of
      the recursion, as the interpreter's recursion limit does. */
  function GetRecords(server: Server, instanceUrl: string, table: Table, fields: seq<string>,
                      w: Window, limit: Option<int>, factor: int, fuel: nat): (r: Stream)
    ensures Dispatch(server, instanceUrl, table, fields, w, limit).records <= r.records
    ensures var d := Dispatch(server, instanceUrl, table, fields, w, limit);
            d.error.None? || !Shrinkable(d.error.value) ==> r == d
    ensures factor >= 1 && w.start > w.end ==> r == Dispatch(server, instanceUrl, table, fields, w, limit)
    ensures factor >= 1 && w.start <= w.end && r.error.Some? ==> !Shrinkable(r.error.value)
    decreases fuel, 0
  {
    var d := Dispatch(server, instanceUrl, table, fields, w, limit);
    if d.error.None? || !Shrinkable(d.error.value) then d
    else if factor == 0 then Stream(d.records, Some(Python(ZeroDivisionError)))
    else
      FloorFires(w, factor);
      if Nth(w, factor) / Second as real < OneDaySecondsField() as real then d
      else if fuel == 0 then Stream(d.records, Some(Python(RecursionError)))
      else
        var rest := ShrinkLoop(server, instanceUrl, table, fields, w, limit, factor, 0, fuel - 1);
        Stream(d.records + rest.records, rest.error)
  }

  /** `for i in range(factor): yield from get_records(sub-window i, ...)`
      from `i` on; an error in one sub-window ends the loop. */
  function ShrinkLoop(server: Server, instanceUrl: string, table: Table, fields: seq<string>,
                      w: Window, limit: Option<int>, factor: int, i: nat, fuel: nat): (r: Stream)
    requires factor != 0
    ensures factor >= 1 && w.start <= w.end && r.error.Some? ==> !Shrinkable(r.error.value)
    ensures i >= factor ==> r == Stream([], None)
    decreases fuel, 1, factor - i
  {
    if i >= factor then Stream([], None)
    else
      SubWindowForward(w, factor, i);
      var a := GetRecords(server, instanceUrl, table, fields, SubWindow(w, factor, i), limit, factor + 1, fuel);
      if a.error.Some? then a
      else
        var b := ShrinkLoop(server, instanceUrl, table, fields, w, limit, factor, i + 1, fuel);
        Stream(a.records + b.records, b.error)
  }

  /** The sub-window extractions from `i` on, in order: each sub-window
      with factor `factor + 1`. */
  function SubStreams(server: Server, instanceUrl: string, table: Table, fields: seq<string>,
                      w: Window, limit: Option<int>, factor: int, i: nat, fuel: nat): (ss: seq<Stream>)
    requires factor != 0
    decreases factor - i
  {
    if i >= factor then []
    else [GetRecords(server, instanceUrl, table, fields, SubWindow(w, factor, i), limit, factor + 1, fuel)]
         + SubStreams(server, instanceUrl, table, fields, w, limit, factor, i + 1, fuel)
  }

  /** The sub-window loop yields from each sub-window's extraction in
      turn and stops at the first that raises. */
  lemma {:induction false} ShrinkLoopChains(server: Server, instanceUrl: string, table: Table, fields: seq<string>,
                                            w: Window, limit: Option<int>, factor: int, i: nat, fuel: nat)
    requires factor != 0
    ensures ShrinkLoop(server, instanceUrl, table, fields, w, limit, factor, i, fuel)
         == Chain(SubStreams(server, instanceUrl, table, fields, w, limit, factor, i, fuel))
    decreases factor - i
  {
    if i < factor {
      var ss := SubStreams(server, instanceUrl, table, fields, w, limit, factor, i, fuel);
      assert ss[0] == GetRecords(server, instanceUrl, table, fields, SubWindow(w, factor, i), limit, factor + 1, fuel);
      assert ss[1..] == SubStreams(server, instanceUrl, table, fields, w, limit, factor, i + 1, fuel);
      ShrinkLoopChains(server, instanceUrl, table, fields, w, limit, factor, i + 1, fuel);
    }
  }

  /** On a timeout or oversize error over a forward window, `get_records`
      yields what it had, then the sub-window loop from the first
      sub-window (`ShrinkLoopChains`: each sub-window's extraction in turn);
      with no depth left it raises instead (`GetRecordsAtBound`). */
  lemma GetRecordsShrinks(server: Server, instanceUrl: string, table: Table, fields: seq<string>,
                          w: Window, limit: Option<int>, factor: int, fuel: nat)
    requires factor >= 1 && w.start <= w.end && fuel > 0
    requires var d := Dispatch(server, instanceUrl, table, fields, w, limit);
             d.error.Some? && Shrinkable(d.error.value)
    ensures var d := Dispatch(server, instanceUrl, table, fields, w, limit);
            var rest := ShrinkLoop(server, instanceUrl, table, fields, w, limit, factor, 0, fuel - 1);
            GetRecords(server, instanceUrl, table, fields, w, limit, factor, fuel) == Stream(d.records + rest.records, rest.error)
  {
    FloorPasses(w, factor);
  }

  /** At the recursion bound a shrinkable error becomes a `RecursionError`
      after the records already yielded. */
  lemma GetRecordsAtBound(server: Server, instanceUrl: string, table: Table, fields: seq<string>,
                          w: Window, limit: Option<int>, factor: int)
    requires factor >= 1 && w.start <= w.end
    requires var d := Dispatch(server, instanceUrl, table, fields, w, limit);
             d.error.Some? && Shrinkable(d.error.value)
    ensures var d := Dispatch(server, instanceUrl, table, fields, w, limit);
            GetRecords(server, instanceUrl, table, fields, w, limit, factor, 0) == Stream(d.records, Some(Python(RecursionError)))
  {
    FloorPasses(w, factor);
  }

  /** For a table without a replication key every sub-window sends its
      parent's query, so a server that keeps answering it with a timeout
      or oversize error drives the shrinking to the recursion limit. */
  lemma {:induction false} NoKeyRecursionError(server: Server, instanceUrl: string, table: Table, fields: seq<string>,
                                               w: Window, limit: Option<int>, factor: int, fuel: nat)
    requires table.replicationKey.None? && factor >= 1 && w.start <= w.end
    requires var d := Dispatch(server, instanceUrl, table, fields, w, limit);
             d.error.Some? && Shrinkable(d.error.value)
    ensures GetRecords(server, instanceUrl, table, fields, w, limit, factor, fuel).error == Some(Python(RecursionError))
    decreases fuel
  {
    if fuel == 0 {
      GetRecordsAtBound(server, instanceUrl, table, fields, w, limit, factor);
    } else {
      GetRecordsShrinks(server, instanceUrl, table, fields, w, limit, factor, fuel);
      var sub := SubWindow(w, factor, 0);
      SubWindowForward(w, factor, 0);
      NoKeySameDispatch(server, instanceUrl, table, fields, sub, w, limit);
      NoKeyRecursionError(server, instanceUrl, table, fields, sub, limit, factor + 1, fuel - 1);
      var a := GetRecords(server, instanceUrl, table, fields, sub, limit, factor + 1, fuel - 1);
      assert ShrinkLoop(server, instanceUrl, table, fields, w, limit, factor, 0, fuel - 1) == a;
    }
  }
}
