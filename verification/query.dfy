/** Query planning: the SOQL text for one table and window, and the split
    of an over-long field list into chunks. */
module Query {
  import opened Base
  import opened Text
  import opened Clock
  import opened Tables

  /** Longest query sent as one request. */
  const MaxQueryLength: int := 10000
  /** Character budget of one field chunk. */
  const ChunkBudget: int := 8000

  /** One tenant whose four main tables get an extra business-unit filter. */
  const TenantFilteredInstance: string := "https://squareinc.my.salesforce.com"
  const TenantFilteredTables: seq<string> := ["Account", "Contact", "Lead", "Opportunity"]
  const TenantClause: string :=
    " AND (Business_Unit__c INCLUDES ('Afterpay') OR Business_Unit__c INCLUDES ('afterpay')) "

  /** The range predicate `key >= window.start AND key < window.end`, with
      both bounds written in whole seconds. */
  datatype Filter = Filter(key: string, window: Window, tenantClause: bool)

  /** The parts of one query, before rendering. */
  datatype Plan = Plan(
    select: seq<string>,
    from: string,
    filter: Option<Filter>,
    orderBy: seq<string>,
    limit: Option<int>)

  /** `if limit:` -- `None` and `0` both mean no limit. */
  predicate LimitTruthy(limit: Option<int>)
  {
    limit.Some? && limit.value != 0
  }

  /** The values the filter lets through: its bounds lose their
      microseconds when rendered, so the comparison is against the start
      and end of their seconds. */
  predicate Admits(f: Filter, v: Instant)
  {
    SecondFloor(f.window.start) <= v < SecondFloor(f.window.end)
  }

  /** On whole-second bounds the filter is exactly the window. */
  lemma AdmitsWholeSeconds(f: Filter, v: Instant)
    requires f.window.start % Second == 0 && f.window.end % Second == 0
    ensures Admits(f, v) <==> f.window.start <= v < f.window.end
  {
  }

  /** Starting a window at a bookmark `t` reads again every value of the
      bookmark's second up to `t`. */
  lemma AdmitsRereadsSecond(f: Filter, v: Instant)
    requires SecondFloor(f.window.start) <= v <= f.window.start < SecondFloor(f.window.end)
    ensures Admits(f, v)
  {
  }

  /** Two filters over adjacent windows `[a, b)` and `[b, c)` let through
      disjoint sets of values whose union is the whole-second range of
      `[a, c)`: splitting a window loses nothing and reads nothing twice. */
  lemma AdmitsAdjacent(key: string, a: Instant, b: Instant, c: Instant, tenant: bool, v: Instant)
    requires a <= b <= c
    ensures var f1 := Filter(key, Window(a, b), tenant);
            var f2 := Filter(key, Window(b, c), tenant);
            && !(Admits(f1, v) && Admits(f2, v))
            && (Admits(f1, v) || Admits(f2, v) <==> SecondFloor(a) <= v < SecondFloor(c))
  {
    SecondFloorMonotone(a, b);
    SecondFloorMonotone(b, c);
  }

  /** The plan `construct_query` renders. Python's `set(fields)` has no
      fixed order; the plan enumerates it in first-occurrence order (see
      `QueryLengthIgnoresSelectOrder` for why the order cannot matter to
      the length ceiling). */
  function PlanQuery(instanceUrl: string, table: Table, fields: seq<string>, w: Window, limit: Option<int>): (p: Plan)
    ensures Distinct(p.select) && Elems(p.select) == Elems(fields)
    ensures p.from == table.name
    ensures p.filter.Some? <==> table.replicationKey.Some?
    ensures p.filter.Some? ==>
              p.filter.value.key == table.replicationKey.value
              && p.filter.value.window == w
              && forall v :: Admits(p.filter.value, v) <==> SecondFloor(w.start) <= v < SecondFloor(w.end)
    ensures table.replicationKey.None? ==> p.orderBy == []
    ensures table.replicationKey.Some? ==>
              p.orderBy == [table.replicationKey.value] + (if HasPrimaryKey(table) then [table.primaryKey.value] else [])
    ensures p.limit.Some? <==> LimitTruthy(limit)
    ensures p.limit.Some? ==> p.limit == limit
  {
    var select := Dedup(fields);
    var limitPart := if LimitTruthy(limit) then limit else None;
    match table.replicationKey
    case None => Plan(select, table.name, None, [], limitPart)
    case Some(rk) =>
      var tenant := instanceUrl == TenantFilteredInstance && table.name in TenantFilteredTables;
      var order := if HasPrimaryKey(table) then [rk, table.primaryKey.value] else [rk];
      Plan(select, table.name, Some(Filter(rk, w, tenant)), order, limitPart)
  }

  /** `key >= start  AND key < end ` (two blanks: the clauses are joined
      with a leading blank). */
  function RangeText(key: string, w: Window): string
  {
    "WHERE " + key + " >= " + QueryTime(w.start) + " " + " AND " + key + " < " + QueryTime(w.end) + " "
  }

  /** For `datetime` bounds the range clause is as long as the source's,
      whose timestamps are 20 characters each, whatever the window: the
      length ceiling sees the same query length. */
  lemma RangeTextLength(key: string, w: Window)
    requires IsDatetime(w.start) && IsDatetime(w.end)
    ensures |RangeText(key, w)| == 60 + 2 * |key|
  {
    QueryTimeWidth(w.start);
    QueryTimeWidth(w.end);
  }

  function WhereText(f: Option<Filter>): string
  {
    match f
    case None => ""
    case Some(Filter(key, w, tenant)) => RangeText(key, w) + (if tenant then TenantClause else "")
  }

  function OrderText(keys: seq<string>): string
  {
    if keys == [] then ""
    else "ORDER BY " + keys[0] + " ASC " + (if |keys| > 1 then "," + keys[1] + " ASC" else "")
  }

  function LimitText(limit: Option<int>): string
  {
    if limit.Some? then "LIMIT " + IntToString(limit.value) else ""
  }

  /** `f"SELECT {...} "` followed by the separating blank and `f"FROM {table} "`
      and its separating blank. */
  function HeadText(select: seq<string>, from: string): string
  {
    "SELECT " + Join(select, ",") + " " + " " + "FROM " + from + " " + " "
  }

  /** Everything after the WHERE clause, up to and including the blank
      before the LIMIT clause. */
  function OrderPart(p: Plan): string
  {
    " " + OrderText(p.orderBy) + " "
  }

  function Render(p: Plan): string
  {
    HeadText(p.select, p.from) + WhereText(p.filter) + OrderPart(p) + LimitText(p.limit)
  }

  /** `construct_query`. */
  function ConstructQuery(instanceUrl: string, table: Table, fields: seq<string>, w: Window, limit: Option<int>): string
  {
    Render(PlanQuery(instanceUrl, table, fields, w, limit))
  }

  /** Windows whose bounds lie in the same seconds give the same query
      text: the text cannot tell them apart. */
  lemma SameSecondsSameQuery(instanceUrl: string, table: Table, fields: seq<string>, w1: Window, w2: Window, limit: Option<int>)
    requires SecondFloor(w1.start) == SecondFloor(w2.start) && SecondFloor(w1.end) == SecondFloor(w2.end)
    ensures ConstructQuery(instanceUrl, table, fields, w1, limit) == ConstructQuery(instanceUrl, table, fields, w2, limit)
  {
    SameSecondSameTime(w1.start, w2.start);
    SameSecondSameTime(w1.end, w2.end);
    var p1 := PlanQuery(instanceUrl, table, fields, w1, limit);
    var p2 := PlanQuery(instanceUrl, table, fields, w2, limit);
    assert WhereText(p1.filter) == WhereText(p2.filter);
    assert HeadText(p1.select, p1.from) == HeadText(p2.select, p2.from);
    assert OrderPart(p1) == OrderPart(p2);
    assert LimitText(p1.limit) == LimitText(p2.limit);
  }

  /** Instants in the same second render to the same query bound. */
  lemma SameSecondSameTime(a: Instant, b: Instant)
    requires SecondFloor(a) == SecondFloor(b)
    ensures QueryTime(a) == QueryTime(b)
  {
    assert a / Second == b / Second;
  }

  /** Without a replication key the query has no range clause, so every
      window gives the same text. */
  lemma NoKeySameQuery(instanceUrl: string, table: Table, fields: seq<string>, w1: Window, w2: Window, limit: Option<int>)
    requires table.replicationKey.None?
    ensures ConstructQuery(instanceUrl, table, fields, w1, limit) == ConstructQuery(instanceUrl, table, fields, w2, limit)
  {
  }

  lemma ContainsAtFront(a: string, t: string, b: string, c: string, d: string)
    ensures Contains(a + (t + b) + c + d, t)
  {
    var s := a + (t + b) + c + d;
    assert s[|a|..|a| + |t|] == t;
    assert ContainsAt(s, t, |a|);
  }

  lemma ContainsInside(a: string, b: string, t: string, c: string, d: string)
    ensures Contains(a + (b + t + c) + d, t)
  {
    var s := a + (b + t + c) + d;
    assert s[|a| + |b|..|a| + |b| + |t|] == t;
    assert ContainsAt(s, t, |a| + |b|);
  }

  /** With a replication key, the rendered query carries the half-open range
      `key >= start AND key < end`. */
  lemma ConstructQueryHasRange(instanceUrl: string, table: Table, fields: seq<string>, w: Window, limit: Option<int>)
    requires table.replicationKey.Some?
    ensures Contains(ConstructQuery(instanceUrl, table, fields, w, limit), RangeText(table.replicationKey.value, w))
  {
    var p := PlanQuery(instanceUrl, table, fields, w, limit);
    var tenant := if p.filter.value.tenantClause then TenantClause else "";
    assert WhereText(p.filter) == RangeText(table.replicationKey.value, w) + tenant;
    ContainsAtFront(HeadText(p.select, p.from), RangeText(table.replicationKey.value, w), tenant,
                    OrderPart(p), LimitText(p.limit));
  }

  /** With a replication key, the rendered query orders by it, then by the
      primary key when the table has one. */
  lemma ConstructQueryHasOrder(instanceUrl: string, table: Table, fields: seq<string>, w: Window, limit: Option<int>)
    requires table.replicationKey.Some?
    ensures var rk := table.replicationKey.value;
            Contains(ConstructQuery(instanceUrl, table, fields, w, limit),
                     "ORDER BY " + rk + " ASC " + (if HasPrimaryKey(table) then "," + table.primaryKey.value + " ASC" else ""))
  {
    var p := PlanQuery(instanceUrl, table, fields, w, limit);
    ContainsInside(HeadText(p.select, p.from) + WhereText(p.filter), " ", OrderText(p.orderBy), " ", LimitText(p.limit));
  }

  /** The query ends with `LIMIT n` exactly when the limit is truthy. */
  lemma ConstructQueryLimit(instanceUrl: string, table: Table, fields: seq<string>, w: Window, limit: Option<int>)
    ensures var p := PlanQuery(instanceUrl, table, fields, w, limit);
            var pre := HeadText(p.select, p.from) + WhereText(p.filter) + OrderPart(p);
            && (LimitTruthy(limit) ==> ConstructQuery(instanceUrl, table, fields, w, limit) == pre + "LIMIT " + IntToString(limit.value))
            && (!LimitTruthy(limit) ==> ConstructQuery(instanceUrl, table, fields, w, limit) == pre)
  {
  }

  /** Without a replication key there is neither a WHERE nor an ORDER BY
      clause: only blanks separate the table name from the limit. */
  lemma ConstructQueryUnfiltered(instanceUrl: string, table: Table, fields: seq<string>, w: Window, limit: Option<int>)
    requires table.replicationKey.None?
    ensures ConstructQuery(instanceUrl, table, fields, w, limit)
         == HeadText(Dedup(fields), table.name) + "  " + (if LimitTruthy(limit) then "LIMIT " + IntToString(limit.value) else "")
  {
    var p := PlanQuery(instanceUrl, table, fields, w, limit);
    assert WhereText(p.filter) == "";
    assert OrderPart(p) == "  ";
  }

  /** Any duplicate-free enumeration of the selected fields renders a query
      of the same length, so whether a query exceeds `MaxQueryLength` does
      not depend on the order Python happens to iterate the field set in. */
  lemma QueryLengthIgnoresSelectOrder(p: Plan, enumeration: seq<string>)
    requires Distinct(p.select) && Distinct(enumeration) && Elems(enumeration) == Elems(p.select)
    ensures |Render(p.(select := enumeration))| == |Render(p)|
  {
    SumLenOfEnumerations(p.select, enumeration);
    JoinLength(p.select, ",");
    JoinLength(enumeration, ",");
  }

  /** The loop of `field_chunker`: `chunk` is the open chunk and `length` its
      character count; a chunk is closed once its length exceeds `size` or
      when the last field has been added. */
  function ChunkFrom(fields: seq<string>, size: int, chunk: seq<string>, length: int): seq<seq<string>>
    decreases |fields|
  {
    if fields == [] then []
    else
      var chunk' := chunk + [fields[0]];
      var length' := length + |fields[0]|;
      if length' > size || |fields| == 1 then [chunk'] + ChunkFrom(fields[1..], size, [], 0)
      else ChunkFrom(fields[1..], size, chunk', length')
  }

  /** The chunks concatenate back to the open chunk followed by the
      remaining fields, and none of them is empty. */
  lemma {:induction false} ChunkFromCovers(fields: seq<string>, size: int, chunk: seq<string>, length: int)
    ensures fields == [] ==> ChunkFrom(fields, size, chunk, length) == []
    ensures fields != [] ==> Flatten(ChunkFrom(fields, size, chunk, length)) == chunk + fields
    ensures forall c :: c in ChunkFrom(fields, size, chunk, length) ==> c != []
    decreases |fields|
  {
    if fields != [] {
      var chunk' := chunk + [fields[0]];
      var length' := length + |fields[0]|;
      assert fields == [fields[0]] + fields[1..];
      if length' > size || |fields| == 1 {
        ChunkFromCovers(fields[1..], size, [], 0);
      } else {
        ChunkFromCovers(fields[1..], size, chunk', length');
      }
    }
  }

  /** Every list but the last is over budget. */
  predicate ClosedOverBudget(chunks: seq<seq<string>>, size: int)
  {
    forall i :: 0 <= i < |chunks| - 1 ==> SumLen(chunks[i]) > size
  }

  /** Every list without its last field is within budget. */
  predicate OpenWithinBudget(chunks: seq<seq<string>>, size: int)
  {
    forall i :: 0 <= i < |chunks| ==> |chunks[i]| <= 1 || SumLen(chunks[i][..|chunks[i]| - 1]) <= size
  }

  /** Every chunk but the last is over budget, and every chunk without its
      last field is within budget: the budget is checked after each field. */
  lemma {:induction false} ChunkFromBudget(fields: seq<string>, size: int, chunk: seq<string>, length: int)
    requires length == SumLen(chunk)
    requires chunk == [] || length <= size
    ensures ClosedOverBudget(ChunkFrom(fields, size, chunk, length), size)
    ensures OpenWithinBudget(ChunkFrom(fields, size, chunk, length), size)
    decreases |fields|
  {
    if fields != [] {
      var chunk' := chunk + [fields[0]];
      var length' := length + |fields[0]|;
      SumLenConcat(chunk, [fields[0]]);
      assert chunk'[..|chunk'| - 1] == chunk;
      assert SumLen([fields[0]]) == |fields[0]|;
      if length' > size || |fields| == 1 {
        var rest := ChunkFrom(fields[1..], size, [], 0);
        var chunks := [chunk'] + rest;
        assert ChunkFrom(fields, size, chunk, length) == chunks;
        ChunkFromBudget(fields[1..], size, [], 0);
        if |fields| == 1 {
          assert rest == [];
        }
        forall i | 0 <= i < |chunks| - 1 ensures SumLen(chunks[i]) > size {
          if i > 0 { assert chunks[i] == rest[i - 1]; }
        }
        forall i | 0 <= i < |chunks|
          ensures |chunks[i]| <= 1 || SumLen(chunks[i][..|chunks[i]| - 1]) <= size
        {
          if i > 0 { assert chunks[i] == rest[i - 1]; }
        }
      } else {
        var rest := ChunkFrom(fields[1..], size, chunk', length');
        assert ChunkFrom(fields, size, chunk, length) == rest;
        ChunkFromBudget(fields[1..], size, chunk', length');
      }
    }
  }

  /** `field_chunker(fields, size)`. */
  function FieldChunker(fields: seq<string>, size: int): (chunks: seq<seq<string>>)
    ensures Flatten(chunks) == fields
    ensures chunks == [] <==> fields == []
    ensures forall i :: 0 <= i < |chunks| ==> chunks[i] != []
    ensures forall i :: 0 <= i < |chunks| - 1 ==> SumLen(chunks[i]) > size
    ensures forall i :: 0 <= i < |chunks| ==>
              |chunks[i]| == 1 || SumLen(chunks[i][..|chunks[i]| - 1]) <= size
  {
    ChunkFromEmpty(fields, size);
    ChunkFrom(fields, size, [], 0)
  }

  /** Chunking from an empty open chunk: the facts `FieldChunker` promises. */
  lemma ChunkFromEmpty(fields: seq<string>, size: int)
    ensures var chunks := ChunkFrom(fields, size, [], 0);
            && Flatten(chunks) == fields
            && (chunks == [] <==> fields == [])
            && (forall i :: 0 <= i < |chunks| ==> chunks[i] != [])
            && ClosedOverBudget(chunks, size)
            && OpenWithinBudget(chunks, size)
  {
    ChunkFromCovers(fields, size, [], 0);
    ChunkFromBudget(fields, size, [], 0);
    var chunks := ChunkFrom(fields, size, [], 0);
    assert forall i :: 0 <= i < |chunks| ==> chunks[i] in chunks;
    assert [] + fields == fields;
    assert Flatten<string>([]) == [];
  }

  lemma SingleListIsWhole<T>(xss: seq<seq<T>>, xs: seq<T>)
    requires Flatten(xss) == xs
    ensures |xss| == 1 ==> xss[0] == xs
  {
    if |xss| == 1 {
      assert xss[1..] == [];
    }
  }

  /** A field list whose every field but the last already exceeds the
      budget is split into at least two chunks. */
  lemma FieldChunkerSplits(fields: seq<string>, size: int)
    requires |fields| > 1 && SumLen(fields[..|fields| - 1]) > size
    ensures |FieldChunker(fields, size)| >= 2
  {
    var chunks := FieldChunker(fields, size);
    SingleListIsWhole(chunks, fields);
  }

  /** The field list of every chunk query: the chunk, then the primary key,
      then the replication key. */
  function ChunkFieldLists(table: Table, fields: seq<string>): (lists: seq<seq<string>>)
    requires HasPrimaryKey(table) && table.replicationKey.Some?
    ensures |lists| == |FieldChunker(fields, ChunkBudget)|
    ensures forall i :: 0 <= i < |lists| ==>
              lists[i] == FieldChunker(fields, ChunkBudget)[i] + [table.primaryKey.value, table.replicationKey.value]
  {
    var chunks := FieldChunker(fields, ChunkBudget);
    seq(|chunks|, i requires 0 <= i < |chunks| => chunks[i] + [table.primaryKey.value, table.replicationKey.value])
  }

  /** Every chunk query selects its chunk plus both keys, every field of the
      table is selected by some chunk query, and all chunk queries share the
      filter, ordering and limit of the full query. */
  lemma ChunkPlansShareWindow(instanceUrl: string, table: Table, fields: seq<string>, w: Window, limit: Option<int>)
    requires HasPrimaryKey(table) && table.replicationKey.Some?
    ensures var lists := ChunkFieldLists(table, fields);
            var full := PlanQuery(instanceUrl, table, fields, w, limit);
            && (forall i :: 0 <= i < |lists| ==>
                  var p := PlanQuery(instanceUrl, table, lists[i], w, limit);
                  && table.primaryKey.value in Elems(p.select)
                  && table.replicationKey.value in Elems(p.select)
                  && p.filter == full.filter && p.orderBy == full.orderBy && p.limit == full.limit)
            && (forall f :: f in fields ==>
                  exists i :: 0 <= i < |lists| && f in Elems(PlanQuery(instanceUrl, table, lists[i], w, limit).select))
  {
    var lists := ChunkFieldLists(table, fields);
    var chunks := FieldChunker(fields, ChunkBudget);
    forall i | 0 <= i < |lists|
      ensures table.primaryKey.value in Elems(lists[i]) && table.replicationKey.value in Elems(lists[i])
    {
      assert lists[i][|chunks[i]|] == table.primaryKey.value;
      assert lists[i][|chunks[i]| + 1] == table.replicationKey.value;
    }
    forall f | f in fields
      ensures exists i :: 0 <= i < |lists| && f in Elems(PlanQuery(instanceUrl, table, lists[i], w, limit).select)
    {
      FlattenMember(chunks, f);
      var i, j :| 0 <= i < |chunks| && 0 <= j < |chunks[i]| && chunks[i][j] == f;
      assert lists[i][j] == f;
      assert f in Elems(lists[i]);
    }
  }

  lemma {:induction false} FlattenMember<T>(xss: seq<seq<T>>, x: T)
    requires x in Flatten(xss)
    ensures exists i, j :: 0 <= i < |xss| && 0 <= j < |xss[i]| && xss[i][j] == x
  {
    if x in xss[0] {
      var j :| 0 <= j < |xss[0]| && xss[0][j] == x;
      assert xss[0][j] == x;
    } else {
      FlattenMember(xss[1..], x);
      var i, j :| 0 <= i < |xss[1..]| && 0 <= j < |xss[1..][i]| && xss[1..][i][j] == x;
      assert xss[i + 1][j] == x;
    }
  }
}
