/** Reassembling full records from the per-chunk streams of a field-chunked
    query: the lock-step merge the client uses, and the key-buffered merge
    that its test script proposes instead. */
module Merge {
  import opened Base
  import opened Text
  import opened Json
  import opened Errors
  import opened Pagination

  // ---------------------------------------------------------------------
  // Aligned rows
  // ---------------------------------------------------------------------

  /** Every record carries the primary-key field. */
  predicate HasKeys(recs: seq<Record>, key: string)
  {
    forall i :: 0 <= i < |recs| ==> key in recs[i]
  }

  /** Once a truthy key has been seen, every later record repeats it. */
  predicate KeysConsistent(recs: seq<Record>, key: string)
    requires HasKeys(recs, key)
  {
    forall t, j :: 0 <= t < j < |recs| && Truthy(recs[t][key]) ==> recs[j][key] == recs[t][key]
  }

  /** The same condition, checked between neighbours only. */
  predicate AdjacentConsistent(recs: seq<Record>, key: string)
    requires HasKeys(recs, key)
  {
    forall j :: 0 < j < |recs| && Truthy(recs[j - 1][key]) ==> recs[j][key] == recs[j - 1][key]
  }

  /** The inner loop of `merge_records` from the `j`-th record on: `ref`
      is the reference key, replaced while it is falsy, and `merged` the
      union so far. */
  function MergeRowFrom(recs: seq<Record>, key: string, j: nat, ref: Json, merged: Record): (r: Result<Record>)
    requires j <= |recs|
    ensures r.Err? ==> r.error == Python(KeyError) || r.error.PrimaryKeyNotMatch?
    ensures r.Err? && HasKeys(recs, key) ==> r.error.PrimaryKeyNotMatch?
    decreases |recs| - j
  {
    if j == |recs| then Ok(merged)
    else if key !in recs[j] then Err(Python(KeyError))
    else
      var ref' := if Truthy(ref) then ref else recs[j][key];
      if ref' != recs[j][key] then Err(PrimaryKeyNotMatch(ref', recs[j][key]))
      else MergeRowFrom(recs, key, j + 1, ref', merged + recs[j])
  }

  /** One aligned row: the records at the same position of every stream. */
  function MergeRow(recs: seq<Record>, key: string): Result<Record>
  {
    MergeRowFrom(recs, key, 0, Null, map[])
  }

  lemma UnionAllSnoc(rs: seq<Record>, r: Record)
    ensures UnionAll(rs + [r]) == UnionAll(rs) + r
  {
    assert (rs + [r])[..|rs|] == rs;
  }

  /** The first `j` records carry the key and agree with their neighbours. */
  predicate PrefixConsistent(recs: seq<Record>, key: string, j: nat)
    requires j <= |recs|
  {
    && (forall i :: 0 <= i < j ==> key in recs[i])
    && (forall i :: 0 < i < j && Truthy(recs[i - 1][key]) ==> recs[i][key] == recs[i - 1][key])
  }

  lemma PrefixConsistentFull(recs: seq<Record>, key: string)
    ensures PrefixConsistent(recs, key, |recs|) <==> HasKeys(recs, key) && AdjacentConsistent(recs, key)
  {
  }

  /** After the `j`-th record has passed, the reference key is that record's key. */
  lemma {:induction false} MergeRowFromSpec(recs: seq<Record>, key: string, j: nat, merged: Record)
    requires j <= |recs|
    requires PrefixConsistent(recs, key, j)
    requires merged == UnionAll(recs[..j])
    ensures var r := MergeRowFrom(recs, key, j, if j == 0 then Null else recs[j - 1][key], merged);
            && (r.Ok? <==> HasKeys(recs, key) && AdjacentConsistent(recs, key))
            && (r.Ok? ==> r.value == UnionAll(recs))
    decreases |recs| - j
  {
    PrefixConsistentFull(recs, key);
    var ref := if j == 0 then Null else recs[j - 1][key];
    if j == |recs| {
      assert recs[..j] == recs;
    } else if key !in recs[j] {
      assert !HasKeys(recs, key);
    } else {
      var ref' := if Truthy(ref) then ref else recs[j][key];
      if ref' == recs[j][key] {
        MergeRowFromExtends(recs, key, j, merged);
        MergeRowFromSpec(recs, key, j + 1, merged + recs[j]);
      } else {
        assert 0 < j && Truthy(recs[j - 1][key]) && recs[j][key] != recs[j - 1][key];
      }
    }
  }

  /** A record that carries the key and agrees with its truthy
      predecessor extends the consistent prefix and the union. */
  lemma MergeRowFromExtends(recs: seq<Record>, key: string, j: nat, merged: Record)
    requires j < |recs| && key in recs[j]
    requires PrefixConsistent(recs, key, j)
    requires merged == UnionAll(recs[..j])
    requires j > 0 && Truthy(recs[j - 1][key]) ==> recs[j][key] == recs[j - 1][key]
    ensures PrefixConsistent(recs, key, j + 1)
    ensures merged + recs[j] == UnionAll(recs[..j + 1])
  {
    assert recs[..j + 1] == recs[..j] + [recs[j]];
    UnionAllSnoc(recs[..j], recs[j]);
  }

  lemma {:induction false} AdjacentChain(recs: seq<Record>, key: string, t: nat, j: nat)
    requires HasKeys(recs, key) && AdjacentConsistent(recs, key)
    requires t < j < |recs| && Truthy(recs[t][key])
    ensures recs[j][key] == recs[t][key]
    decreases j - t
  {
    if j > t + 1 {
      AdjacentChain(recs, key, t, j - 1);
    }
  }

  lemma ConsistentIffAdjacent(recs: seq<Record>, key: string)
    requires HasKeys(recs, key)
    ensures KeysConsistent(recs, key) <==> AdjacentConsistent(recs, key)
  {
    if AdjacentConsistent(recs, key) {
      forall t, j | 0 <= t < j < |recs| && Truthy(recs[t][key])
        ensures recs[j][key] == recs[t][key]
      {
        AdjacentChain(recs, key, t, j);
      }
    }
  }

  /** A row merges iff every record has the key and no key departs from
      the first truthy one; the merged record is the left-to-right union. */
  lemma MergeRowSpec(recs: seq<Record>, key: string)
    ensures MergeRow(recs, key).Ok? <==> HasKeys(recs, key) && KeysConsistent(recs, key)
    ensures MergeRow(recs, key).Ok? ==> MergeRow(recs, key).value == UnionAll(recs)
  {
    assert recs[..0] == [];
    MergeRowFromSpec(recs, key, 0, map[]);
    if HasKeys(recs, key) {
      ConsistentIffAdjacent(recs, key);
    }
  }

  // ---------------------------------------------------------------------
  // Lock-step merge (`merge_records`, `merge_records_old`)
  // ---------------------------------------------------------------------

  /** Every stream has a record at position `i`. */
  predicate Reaches(streams: seq<Stream>, i: nat)
  {
    forall j :: 0 <= j < |streams| ==> i < |streams[j].records|
  }

  /** The records at position `i` of every stream, in stream order. */
  function Column(streams: seq<Stream>, i: nat): (c: seq<Record>)
    requires Reaches(streams, i)
    ensures |c| == |streams|
    ensures forall j :: 0 <= j < |streams| ==> c[j] == streams[j].records[i]
  {
    if streams == [] then []
    else Column(streams[..|streams| - 1], i) + [streams[|streams| - 1].records[i]]
  }

  /** What `zip` gets when it asks every stream for its `i`-th record. */
  datatype Pulled = Row(recs: seq<Record>) | Exhausted | Raised(error: Exc)

  /** The first stream that has no record at position `i`. */
  function FirstShort(streams: seq<Stream>, i: nat): (j: nat)
    requires !Reaches(streams, i)
    ensures j < |streams| && |streams[j].records| <= i
    ensures forall t :: 0 <= t < j ==> i < |streams[t].records|
  {
    if |streams[0].records| <= i then 0 else 1 + FirstShort(streams[1..], i)
  }

  /** The first short stream is the only one all of whose predecessors reach `i`. */
  lemma FirstShortIs(streams: seq<Stream>, i: nat, j: nat)
    requires j < |streams| && |streams[j].records| <= i
    requires forall t :: 0 <= t < j ==> i < |streams[t].records|
    ensures !Reaches(streams, i) && FirstShort(streams, i) == j
  {
  }

  /** `zip` asks the streams in order; the first one without a record
      either ends the zip or raises its error. */
  function Pull(streams: seq<Stream>, i: nat): (p: Pulled)
    ensures p.Row? <==> Reaches(streams, i)
    ensures p.Row? ==> p.recs == Column(streams, i)
    ensures !p.Row? ==> p == (match streams[FirstShort(streams, i)].error
                              case Some(e) => Raised(e)
                              case None => Exhausted)
  {
    if streams == [] then Row([])
    else
      var init := streams[..|streams| - 1];
      var last := streams[|streams| - 1];
      assert forall t :: 0 <= t < |init| ==> init[t] == streams[t];
      match Pull(init, i)
      case Row(recs) =>
        if i < |last.records| then Row(recs + [last.records[i]])
        else
          FirstShortIs(streams, i, |streams| - 1);
          if last.error.Some? then Raised(last.error.value) else Exhausted
      case other =>
        FirstShortIs(streams, i, FirstShort(init, i));
        other
  }

  function LockStepFrom(streams: seq<Stream>, key: string, i: nat): Stream
    requires streams != []
    decreases |streams[0].records| - i
  {
    match Pull(streams, i)
    case Exhausted => Stream([], None)
    case Raised(e) => Stream([], Some(e))
    case Row(recs) =>
      match MergeRow(recs, key)
      case Err(e) => Stream([], Some(e))
      case Ok(m) =>
        var rest := LockStepFrom(streams, key, i + 1);
        Stream([m] + rest.records, rest.error)
  }

  /** `merge_records`: zip the streams and merge each aligned row. */
  function LockStep(streams: seq<Stream>, key: string): Stream
  {
    if streams == [] then Stream([], None) else LockStepFrom(streams, key, 0)
  }

  /** Length of the shortest stream. */
  function MinLen(streams: seq<Stream>): (n: nat)
    requires streams != []
    ensures forall j :: 0 <= j < |streams| ==> n <= |streams[j].records|
    ensures !Reaches(streams, n)
  {
    if |streams| == 1 then |streams[0].records|
    else
      var m := MinLen(streams[1..]);
      assert forall j :: 1 <= j < |streams| ==> streams[1..][j - 1] == streams[j];
      if |streams[0].records| < m then |streams[0].records| else m
  }

  /** Row `i` exists and merges into `m`. */
  predicate RowMerges(streams: seq<Stream>, key: string, i: nat, m: Record)
  {
    Reaches(streams, i) && MergeRow(Column(streams, i), key) == Ok(m)
  }

  /** Row `i` exists and fails to merge with error `e`. */
  predicate RowFails(streams: seq<Stream>, key: string, i: nat, e: Exc)
  {
    Reaches(streams, i) && MergeRow(Column(streams, i), key) == Err(e)
  }

  /** One step of the zip loop. */
  lemma LockStepFromStep(streams: seq<Stream>, key: string, i: nat)
    requires streams != [] && i <= MinLen(streams)
    ensures i == MinLen(streams) ==>
              LockStepFrom(streams, key, i) == Stream([], streams[FirstShort(streams, i)].error)
    ensures i < MinLen(streams) && MergeRow(Column(streams, i), key).Err? ==>
              LockStepFrom(streams, key, i) == Stream([], Some(MergeRow(Column(streams, i), key).error))
    ensures i < MinLen(streams) && MergeRow(Column(streams, i), key).Ok? ==>
              LockStepFrom(streams, key, i)
              == Stream([MergeRow(Column(streams, i), key).value] + LockStepFrom(streams, key, i + 1).records,
                        LockStepFrom(streams, key, i + 1).error)
  {
    if i < MinLen(streams) {
      assert Reaches(streams, i);
    }
  }

  /** Each delivered record is the merge of its row. */
  predicate ShapeRows(streams: seq<Stream>, key: string, i: nat, out: Stream)
  {
    forall t :: 0 <= t < |out.records| ==> RowMerges(streams, key, i + t, out.records[t])
  }

  /** How the delivery ends: at a failing row, or where the first shortest
      stream ends. */
  predicate ShapeEnd(streams: seq<Stream>, key: string, i: nat, out: Stream)
    requires streams != [] && i <= MinLen(streams)
  {
    && (|out.records| < MinLen(streams) - i ==> out.error.Some? && RowFails(streams, key, i + |out.records|, out.error.value))
    && (|out.records| == MinLen(streams) - i ==> out.error == streams[FirstShort(streams, MinLen(streams))].error)
  }

  /** The shape of what the zip loop delivers from row `i` on. */
  predicate LockStepShape(streams: seq<Stream>, key: string, i: nat, out: Stream)
    requires streams != [] && i <= MinLen(streams)
  {
    && |out.records| <= MinLen(streams) - i
    && ShapeRows(streams, key, i, out)
    && ShapeEnd(streams, key, i, out)
  }

  lemma {:induction false} LockStepFromSpec(streams: seq<Stream>, key: string, i: nat)
    requires streams != [] && i <= MinLen(streams)
    ensures LockStepShape(streams, key, i, LockStepFrom(streams, key, i))
    decreases MinLen(streams) - i
  {
    if i == MinLen(streams) || MergeRow(Column(streams, i), key).Err? {
      LockStepStops(streams, key, i);
    } else {
      LockStepFromSpec(streams, key, i + 1);
      LockStepContinues(streams, key, i);
    }
  }

  /** A row that merges is delivered ahead of what the loop delivers
      after it. */
  lemma LockStepContinues(streams: seq<Stream>, key: string, i: nat)
    requires streams != [] && i < MinLen(streams) && MergeRow(Column(streams, i), key).Ok?
    requires LockStepShape(streams, key, i + 1, LockStepFrom(streams, key, i + 1))
    ensures LockStepShape(streams, key, i, LockStepFrom(streams, key, i))
  {
    LockStepFromStep(streams, key, i);
    LockStepConsShape(streams, key, i, MergeRow(Column(streams, i), key).value, LockStepFrom(streams, key, i + 1));
  }

  /** The zip loop ends at the shortest stream's end or at a failing row. */
  lemma LockStepStops(streams: seq<Stream>, key: string, i: nat)
    requires streams != [] && i <= MinLen(streams)
    requires i == MinLen(streams) || MergeRow(Column(streams, i), key).Err?
    ensures LockStepShape(streams, key, i, LockStepFrom(streams, key, i))
  {
    if i == MinLen(streams) {
      LockStepEnds(streams, key, i);
    } else {
      LockStepFails(streams, key, i);
    }
  }

  lemma LockStepEnds(streams: seq<Stream>, key: string, i: nat)
    requires streams != [] && i == MinLen(streams)
    ensures LockStepShape(streams, key, i, LockStepFrom(streams, key, i))
  {
    LockStepFromStep(streams, key, i);
  }

  lemma LockStepFails(streams: seq<Stream>, key: string, i: nat)
    requires streams != [] && i < MinLen(streams) && MergeRow(Column(streams, i), key).Err?
    ensures LockStepShape(streams, key, i, LockStepFrom(streams, key, i))
  {
    var e := MergeRow(Column(streams, i), key).error;
    var out := Stream([], Some(e));
    LockStepFromStep(streams, key, i);
    assert LockStepFrom(streams, key, i) == out;
    assert ShapeRows(streams, key, i, out);
    assert RowFails(streams, key, i + |out.records|, e);
    assert ShapeEnd(streams, key, i, out);
  }

  /** Prepending a merged row `i` to a well-shaped tail from row `i + 1`. */
  lemma LockStepConsShape(streams: seq<Stream>, key: string, i: nat, m: Record, rest: Stream)
    requires streams != [] && i < MinLen(streams)
    requires RowMerges(streams, key, i, m)
    requires LockStepShape(streams, key, i + 1, rest)
    ensures LockStepShape(streams, key, i, Stream([m] + rest.records, rest.error))
  {
    ConsRows(streams, key, i, m, rest);
    ConsEnd(streams, key, i, m, rest);
  }

  lemma ConsRows(streams: seq<Stream>, key: string, i: nat, m: Record, rest: Stream)
    requires RowMerges(streams, key, i, m)
    requires ShapeRows(streams, key, i + 1, rest)
    ensures ShapeRows(streams, key, i, Stream([m] + rest.records, rest.error))
  {
    var out := Stream([m] + rest.records, rest.error);
    forall t | 0 <= t < |out.records|
      ensures RowMerges(streams, key, i + t, out.records[t])
    {
      if t > 0 {
        assert out.records[t] == rest.records[t - 1];
        assert RowMerges(streams, key, (i + 1) + (t - 1), rest.records[t - 1]);
      }
    }
  }

  lemma ConsEnd(streams: seq<Stream>, key: string, i: nat, m: Record, rest: Stream)
    requires streams != [] && i < MinLen(streams)
    requires ShapeEnd(streams, key, i + 1, rest)
    ensures ShapeEnd(streams, key, i, Stream([m] + rest.records, rest.error))
  {
    assert i + |[m] + rest.records| == (i + 1) + |rest.records|;
  }

  /** `merge_records`: the output is as long as the shortest stream unless
      a row fails; each output record is the left-to-right union of its
      aligned row, whose keys are present and consistent; the first row
      that fails stops the merge with that row's error; and when every row
      merges, the stream ends as the first shortest stream ends. */
  lemma LockStepRows(streams: seq<Stream>, key: string)
    requires streams != []
    ensures var out := LockStep(streams, key);
            && |out.records| <= MinLen(streams)
            && (forall t :: 0 <= t < |out.records| ==>
                  Reaches(streams, t) && HasKeys(Column(streams, t), key)
                  && KeysConsistent(Column(streams, t), key)
                  && out.records[t] == UnionAll(Column(streams, t)))
            && (|out.records| < MinLen(streams) ==>
                  out.error.Some? && Reaches(streams, |out.records|)
                  && !(HasKeys(Column(streams, |out.records|), key) && KeysConsistent(Column(streams, |out.records|), key)))
            && (|out.records| == MinLen(streams) ==>
                  out.error == streams[FirstShort(streams, MinLen(streams))].error)
  {
    LockStepFromSpec(streams, key, 0);
    var out := LockStep(streams, key);
    assert LockStepShape(streams, key, 0, out);
    forall t | 0 <= t < |out.records|
      ensures Reaches(streams, t) && HasKeys(Column(streams, t), key)
              && KeysConsistent(Column(streams, t), key)
              && out.records[t] == UnionAll(Column(streams, t))
    {
      assert RowMerges(streams, key, 0 + t, out.records[t]);
      MergeRowSpec(Column(streams, t), key);
    }
    if |out.records| < MinLen(streams) {
      assert RowFails(streams, key, 0 + |out.records|, out.error.value);
      MergeRowSpec(Column(streams, |out.records|), key);
    }
  }

  predicate NoErrors(streams: seq<Stream>)
  {
    forall j :: 0 <= j < |streams| ==> streams[j].error.None?
  }

  /** With error-free streams whose records all carry the key, the
      lock-step merge raises iff some aligned row has inconsistent keys,
      and what it raises is then `PrimaryKeyNotMatch`. */
  lemma LockStepMismatch(streams: seq<Stream>, key: string)
    requires streams != [] && NoErrors(streams)
    requires forall j, i :: 0 <= j < |streams| && 0 <= i < |streams[j].records| ==> key in streams[j].records[i]
    ensures LockStep(streams, key).error.Some?
        <==> exists t :: 0 <= t < MinLen(streams) && !KeysConsistent(Column(streams, t), key)
    ensures LockStep(streams, key).error.Some? ==> LockStep(streams, key).error.value.PrimaryKeyNotMatch?
  {
    LockStepRows(streams, key);
    LockStepFromSpec(streams, key, 0);
    var out := LockStep(streams, key);
    var n := MinLen(streams);
    if |out.records| < n {
      var t := |out.records|;
      assert HasKeys(Column(streams, t), key);
      assert RowFails(streams, key, 0 + t, out.error.value);
      assert MergeRow(Column(streams, t), key).Err?;
    } else {
      assert streams[FirstShort(streams, n)].error.None?;
      forall t | 0 <= t < n ensures KeysConsistent(Column(streams, t), key) {
        assert Reaches(streams, t);
      }
    }
  }

  // ---------------------------------------------------------------------
  // Key-buffered merge (`merge_records_new`)
  // ---------------------------------------------------------------------

  /** The dict from primary key to merged record, and the emission order. */
  datatype Buffer = Buffer(merged: map<Json, Record>, order: seq<Json>)

  const EmptyBuffer := Buffer(map[], [])

  /** Every record has the key and the key can index a dict. */
  predicate CleanRecords(rs: seq<Record>, key: string)
  {
    forall i :: 0 <= i < |rs| ==> key in rs[i] && Hashable(rs[i][key])
  }

  predicate OrderBuffered(b: Buffer)
  {
    forall k :: k in b.order ==> k in b.merged
  }

  /** One iteration of the inner loop of `merge_records_new`: file `rec`
      under its key, appending a new key to the emission order when
      `first` (the record comes from the first stream). */
  function AbsorbOne(b: Buffer, rec: Record, key: string, first: bool): (r: Result<Buffer>)
    ensures r.Ok? <==> key in rec && Hashable(rec[key])
    ensures r.Err? ==> r.error == Python(KeyError) || r.error == Python(TypeError)
    ensures r.Ok? ==> r.value.merged.Keys == b.merged.Keys + {rec[key]}
    ensures r.Ok? && !first ==> r.value.order == b.order
  {
    if key !in rec then Err(Python(KeyError))
    else
      var pk := rec[key];
      if !Hashable(pk) then Err(Python(TypeError))
      else if pk !in b.merged then
        Ok(Buffer(b.merged[pk := rec], if first then b.order + [pk] else b.order))
      else
        Ok(Buffer(b.merged[pk := b.merged[pk] + rec], b.order))
  }

  /** The inner loop of `merge_records_new` over one stream's records. */
  function AbsorbRecords(b: Buffer, rs: seq<Record>, key: string, first: bool): (r: Result<Buffer>)
    ensures r.Ok? <==> CleanRecords(rs, key)
    ensures r.Err? ==> r.error == Python(KeyError) || r.error == Python(TypeError)
    ensures r.Ok? && OrderBuffered(b) ==> OrderBuffered(r.value)
    ensures r.Ok? && !first ==> r.value.order == b.order
    decreases |rs|
  {
    if rs == [] then Ok(b)
    else
      var init := rs[..|rs| - 1];
      assert forall i :: 0 <= i < |init| ==> init[i] == rs[i];
      match AbsorbRecords(b, init, key, first)
      case Err(e) => Err(e)
      case Ok(b') => AbsorbOne(b', rs[|rs| - 1], key, first)
  }

  /** Every stream delivers all its records, each clean, and ends normally. */
  predicate Clean(streams: seq<Stream>, key: string)
  {
    forall j :: 0 <= j < |streams| ==> streams[j].error.None? && CleanRecords(streams[j].records, key)
  }

  /** The outer loop of `merge_records_new`: the streams in order, each
      consumed to its end (which may raise). */
  function BufferStreams(streams: seq<Stream>, key: string): (r: Result<Buffer>)
    ensures r.Ok? <==> Clean(streams, key)
    ensures r.Ok? ==> OrderBuffered(r.value)
    ensures r.Err? ==> r.error == Python(KeyError) || r.error == Python(TypeError)
                       || exists j :: 0 <= j < |streams| && streams[j].error == Some(r.error)
    decreases |streams|
  {
    if streams == [] then Ok(EmptyBuffer)
    else
      var init := streams[..|streams| - 1];
      var last := streams[|streams| - 1];
      assert forall j :: 0 <= j < |init| ==> init[j] == streams[j];
      match BufferStreams(init, key)
      case Err(e) => Err(e)
      case Ok(b) =>
        match AbsorbRecords(b, last.records, key, |streams| == 1)
        case Err(e) => Err(e)
        case Ok(b') => if last.error.Some? then Err(last.error.value) else Ok(b')
  }

  function Emit(b: Buffer): (rs: seq<Record>)
    requires OrderBuffered(b)
    ensures |rs| == |b.order|
  {
    seq(|b.order|, i requires 0 <= i < |b.order| => b.merged[b.order[i]])
  }

  /** `merge_records_new`: nothing is yielded before every stream has been
      consumed, so any error leaves the output empty. */
  function Buffered(streams: seq<Stream>, key: string): Stream
  {
    match BufferStreams(streams, key)
    case Err(e) => Stream([], Some(e))
    case Ok(b) => Stream(Emit(b), None)
  }

  /** Records of all streams, stream after stream. */
  function AllRecords(streams: seq<Stream>): seq<Record>
  {
    if streams == [] then [] else AllRecords(streams[..|streams| - 1]) + streams[|streams| - 1].records
  }

  lemma AllRecordsPair(s: Stream, t: Stream)
    ensures AllRecords([s, t]) == s.records + t.records
  {
    var one := [s];
    assert one[..0] == [];
    assert AllRecords(one) == s.records;
    assert [s, t][..1] == one;
  }

  /** The records of `rs` whose key is `k`, in order. */
  function WithKey(rs: seq<Record>, key: string, k: Json): seq<Record>
    requires HasKeys(rs, key)
  {
    if rs == [] then []
    else
      assert HasKeys(rs[..|rs| - 1], key) by {
        assert forall i :: 0 <= i < |rs| - 1 ==> rs[..|rs| - 1][i] == rs[i];
      }
      WithKey(rs[..|rs| - 1], key, k) + (if rs[|rs| - 1][key] == k then [rs[|rs| - 1]] else [])
  }

  /** The keys of `rs`, in order. */
  function Keys(rs: seq<Record>, key: string): (ks: seq<Json>)
    requires HasKeys(rs, key)
    ensures |ks| == |rs|
    ensures forall i :: 0 <= i < |rs| ==> ks[i] == rs[i][key]
  {
    if rs == [] then []
    else
      assert HasKeys(rs[..|rs| - 1], key) by {
        assert forall i :: 0 <= i < |rs| - 1 ==> rs[..|rs| - 1][i] == rs[i];
      }
      Keys(rs[..|rs| - 1], key) + [rs[|rs| - 1][key]]
  }

  /** The buffer holds, for every key seen in `seen`, the union of the
      records with that key, and nothing else. */
  ghost predicate Holds(m: map<Json, Record>, seen: seq<Record>, key: string)
    requires HasKeys(seen, key)
  {
    forall k :: (k in m <==> WithKey(seen, key, k) != [])
                && (k in m ==> m[k] == UnionAll(WithKey(seen, key, k)))
  }

  lemma HasKeysConcat(a: seq<Record>, b: seq<Record>, key: string)
    requires HasKeys(a, key) && HasKeys(b, key)
    ensures HasKeys(a + b, key)
  {
    assert forall i :: 0 <= i < |a + b| ==> (a + b)[i] == (if i < |a| then a[i] else b[i - |a|]);
  }

  lemma WithKeySnoc(seen: seq<Record>, rec: Record, key: string, k: Json)
    requires HasKeys(seen, key) && key in rec
    ensures HasKeys(seen + [rec], key)
    ensures WithKey(seen + [rec], key, k)
         == WithKey(seen, key, k) + (if rec[key] == k then [rec] else [])
  {
    HasKeysConcat(seen, [rec], key);
    assert (seen + [rec])[..|seen|] == seen;
  }

  lemma AbsorbOneHolds(b: Buffer, seen: seq<Record>, rec: Record, key: string, first: bool)
    requires HasKeys(seen, key) && key in rec && Hashable(rec[key])
    requires Holds(b.merged, seen, key)
    ensures HasKeys(seen + [rec], key)
    ensures Holds(AbsorbOne(b, rec, key, first).value.merged, seen + [rec], key)
  {
    HasKeysConcat(seen, [rec], key);
    var pk := rec[key];
    var m := AbsorbOne(b, rec, key, first).value.merged;
    assert m == if pk in b.merged then b.merged[pk := b.merged[pk] + rec] else b.merged[pk := rec];
    forall k
      ensures (k in m <==> WithKey(seen + [rec], key, k) != [])
              && (k in m ==> m[k] == UnionAll(WithKey(seen + [rec], key, k)))
    {
      WithKeySnoc(seen, rec, key, k);
      if k == pk {
        UnionAllSnoc(WithKey(seen, key, k), rec);
        if k in b.merged {
          assert b.merged[k] == UnionAll(WithKey(seen, key, k));
          assert m[k] == b.merged[k] + rec;
        } else {
          assert WithKey(seen, key, k) == [];
          UnionAllSingle(rec);
        }
      } else {
        assert WithKey(seen + [rec], key, k) == WithKey(seen, key, k);
      }
    }
  }

  lemma SplitLast<T>(a: seq<T>, b: seq<T>)
    requires b != []
    ensures a + b == (a + b[..|b| - 1]) + [b[|b| - 1]]
  {
    assert b == b[..|b| - 1] + [b[|b| - 1]];
  }

  lemma {:induction false} AbsorbHolds(b: Buffer, seen: seq<Record>, rs: seq<Record>, key: string, first: bool)
    requires HasKeys(seen, key) && CleanRecords(rs, key)
    requires Holds(b.merged, seen, key)
    ensures HasKeys(seen + rs, key)
    ensures AbsorbRecords(b, rs, key, first).Ok?
    ensures Holds(AbsorbRecords(b, rs, key, first).value.merged, seen + rs, key)
    decreases |rs|
  {
    if rs == [] {
      assert seen + rs == seen;
    } else {
      var init := rs[..|rs| - 1];
      var rec := rs[|rs| - 1];
      assert CleanRecords(init, key) by {
        assert forall i :: 0 <= i < |init| ==> init[i] == rs[i];
      }
      AbsorbHolds(b, seen, init, key, first);
      var b' := AbsorbRecords(b, init, key, first).value;
      assert AbsorbRecords(b, rs, key, first) == AbsorbOne(b', rec, key, first);
      AbsorbOneHolds(b', seen + init, rec, key, first);
      SplitLast(seen, rs);
    }
  }

  /** Over the first stream, the emission order is the keys in
      first-occurrence order and the buffer's keys are exactly those keys. */
  lemma {:induction false} AbsorbFirstOrder(rs: seq<Record>, key: string)
    requires CleanRecords(rs, key)
    ensures HasKeys(rs, key)
    ensures AbsorbRecords(EmptyBuffer, rs, key, true).Ok?
    ensures AbsorbRecords(EmptyBuffer, rs, key, true).value.order == Dedup(Keys(rs, key))
    ensures AbsorbRecords(EmptyBuffer, rs, key, true).value.merged.Keys == Elems(Keys(rs, key))
    decreases |rs|
  {
    if rs != [] {
      var init := rs[..|rs| - 1];
      assert CleanRecords(init, key) by {
        assert forall i :: 0 <= i < |init| ==> init[i] == rs[i];
      }
      AbsorbFirstOrder(init, key);
      AbsorbFirstStep(rs, key);
    }
  }

  lemma AbsorbFirstStep(rs: seq<Record>, key: string)
    requires CleanRecords(rs, key) && rs != []
    requires var init := rs[..|rs| - 1];
             && HasKeys(init, key)
             && AbsorbRecords(EmptyBuffer, init, key, true).Ok?
             && AbsorbRecords(EmptyBuffer, init, key, true).value.order == Dedup(Keys(init, key))
             && AbsorbRecords(EmptyBuffer, init, key, true).value.merged.Keys == Elems(Keys(init, key))
    ensures AbsorbRecords(EmptyBuffer, rs, key, true).Ok?
    ensures AbsorbRecords(EmptyBuffer, rs, key, true).value.order == Dedup(Keys(rs, key))
    ensures AbsorbRecords(EmptyBuffer, rs, key, true).value.merged.Keys == Elems(Keys(rs, key))
  {
    var init := rs[..|rs| - 1];
    var b := AbsorbRecords(EmptyBuffer, init, key, true).value;
    var pk := rs[|rs| - 1][key];
    var before := Keys(init, key);
    var ks := Keys(rs, key);
    assert AbsorbRecords(EmptyBuffer, rs, key, true) == AbsorbOne(b, rs[|rs| - 1], key, true);
    assert ks == before + [pk];
    DedupSnoc(before, pk);
    ElemsSnoc(before, pk);
  }



  lemma BufferStreamsHolds(streams: seq<Stream>, key: string)
    requires Clean(streams, key)
    ensures HasKeys(AllRecords(streams), key)
    ensures BufferStreams(streams, key).Ok?
    ensures Holds(BufferStreams(streams, key).value.merged, AllRecords(streams), key)
    ensures streams != [] ==>
              BufferStreams(streams, key).value.order == Dedup(Keys(streams[0].records, key))
  {
    BufferStreamsMerged(streams, key);
    if streams != [] {
      BufferStreamsOrder(streams, key);
    }
  }

  /** The dict holds, under each key, the union of all records with it. */
  lemma {:induction false} BufferStreamsMerged(streams: seq<Stream>, key: string)
    requires Clean(streams, key)
    ensures HasKeys(AllRecords(streams), key)
    ensures BufferStreams(streams, key).Ok?
    ensures Holds(BufferStreams(streams, key).value.merged, AllRecords(streams), key)
    decreases |streams|
  {
    if streams != [] {
      var init := streams[..|streams| - 1];
      var last := streams[|streams| - 1];
      assert Clean(init, key) by {
        assert forall j :: 0 <= j < |init| ==> init[j] == streams[j];
      }
      BufferStreamsMerged(init, key);
      AbsorbHolds(BufferStreams(init, key).value, AllRecords(init), last.records, key, |streams| == 1);
    }
  }

  /** The emission order is fixed by the first stream alone. */
  lemma {:induction false} BufferStreamsOrder(streams: seq<Stream>, key: string)
    requires Clean(streams, key) && streams != []
    ensures BufferStreams(streams, key).Ok?
    ensures BufferStreams(streams, key).value.order == Dedup(Keys(streams[0].records, key))
    decreases |streams|
  {
    var init := streams[..|streams| - 1];
    assert Clean(init, key) by {
      assert forall j :: 0 <= j < |init| ==> init[j] == streams[j];
    }
    if |streams| == 1 {
      AbsorbFirstOrder(streams[0].records, key);
      assert init == [];
    } else {
      BufferStreamsOrder(init, key);
      assert init[0] == streams[0];
    }
  }


  /** The key that `merge_records_new` files the `i`-th emitted record under. */
  function EmittedKeys(streams: seq<Stream>, key: string): seq<Json>
    requires streams != [] && HasKeys(streams[0].records, key)
  {
    Dedup(Keys(streams[0].records, key))
  }

  lemma UnionAllOfWithKey(rs: seq<Record>, key: string, k: Json)
    requires HasKeys(rs, key) && WithKey(rs, key, k) != []
    ensures key in UnionAll(WithKey(rs, key, k)) && UnionAll(WithKey(rs, key, k))[key] == k
  {
    WithKeyAllMatch(rs, key, k);
    UnionAllFields(WithKey(rs, key, k), key);
  }

  lemma {:induction false} WithKeyAllMatch(rs: seq<Record>, key: string, k: Json)
    requires HasKeys(rs, key)
    ensures forall i :: 0 <= i < |WithKey(rs, key, k)| ==>
              key in WithKey(rs, key, k)[i] && WithKey(rs, key, k)[i][key] == k
    decreases |rs|
  {
    if rs != [] {
      assert HasKeys(rs[..|rs| - 1], key) by {
        assert forall i :: 0 <= i < |rs| - 1 ==> rs[..|rs| - 1][i] == rs[i];
      }
      WithKeyAllMatch(rs[..|rs| - 1], key, k);
    }
  }

  /** `merge_records_new` on clean streams: it emits one record per distinct
      key of the FIRST stream, in first-occurrence order (keys only later
      streams have are dropped, a repeated key is emitted once); each
      emitted record is the union of every record with that key across all
      streams, stream after stream, later ones overriding, and carries
      that key; nothing is raised. */
  lemma BufferedSpec(streams: seq<Stream>, key: string)
    requires streams != [] && Clean(streams, key)
    ensures HasKeys(streams[0].records, key) && HasKeys(AllRecords(streams), key)
    ensures var out := Buffered(streams, key);
            var ks := EmittedKeys(streams, key);
            && out.error.None?
            && Distinct(ks)
            && Elems(ks) == Elems(Keys(streams[0].records, key))
            && |out.records| == |ks|
            && (forall i :: 0 <= i < |ks| ==>
                  out.records[i] == UnionAll(WithKey(AllRecords(streams), key, ks[i]))
                  && key in out.records[i] && out.records[i][key] == ks[i])
  {
    BufferStreamsHolds(streams, key);
    var b := BufferStreams(streams, key).value;
    var all := AllRecords(streams);
    var ks := EmittedKeys(streams, key);
    forall i | 0 <= i < |ks|
      ensures Buffered(streams, key).records[i] == UnionAll(WithKey(all, key, ks[i]))
              && key in Buffered(streams, key).records[i] && Buffered(streams, key).records[i][key] == ks[i]
    {
      assert ks[i] in b.order;
      UnionAllOfWithKey(all, key, ks[i]);
    }
  }

  /** `merge_records_new` fails exactly when some stream raises or some
      record lacks a usable key; it then yields nothing, and what it raises
      is never its own `PrimaryKeyNotMatch`. */
  lemma BufferedErrors(streams: seq<Stream>, key: string)
    ensures Buffered(streams, key).error.None? <==> Clean(streams, key)
    ensures Buffered(streams, key).error.Some? ==>
              && Buffered(streams, key).records == []
              && var e := Buffered(streams, key).error.value;
                 e == Python(KeyError) || e == Python(TypeError)
                 || exists j :: 0 <= j < |streams| && streams[j].error == Some(e)
  {
  }

  // ---------------------------------------------------------------------
  // When the two merges agree
  // ---------------------------------------------------------------------

  /** The situation the lock-step merge relies on: error-free, clean
      streams of equal length whose records at each position share one
      key, with distinct keys down the first stream. */
  predicate Aligned(streams: seq<Stream>, key: string)
  {
    && streams != []
    && Clean(streams, key)
    && (forall j :: 0 <= j < |streams| ==> |streams[j].records| == |streams[0].records|)
    && (forall j, i :: 0 <= j < |streams| && 0 <= i < |streams[0].records| ==>
          streams[j].records[i][key] == streams[0].records[i][key])
    && Distinct(Keys(streams[0].records, key))
  }

  lemma WithKeyConcat(a: seq<Record>, b: seq<Record>, key: string, k: Json)
    requires HasKeys(a, key) && HasKeys(b, key)
    ensures HasKeys(a + b, key)
    ensures WithKey(a + b, key, k) == WithKey(a, key, k) + WithKey(b, key, k)
    decreases |b|
  {
    HasKeysConcat(a, b, key);
    if b != [] {
      var init := b[..|b| - 1];
      assert HasKeys(init, key) by {
        assert forall i :: 0 <= i < |init| ==> init[i] == b[i];
      }
      WithKeyConcat(a, init, key, k);
      SplitLast(a, b);
      WithKeySnoc(a + init, b[|b| - 1], key, k);
    } else {
      assert a + b == a;
    }
  }

  /** With distinct keys, the records with the key of record `i` are just that record. */
  lemma {:induction false} WithKeyDistinct(rs: seq<Record>, key: string, i: nat, k: Json)
    requires HasKeys(rs, key) && Distinct(Keys(rs, key))
    requires i < |rs| && k == rs[i][key]
    ensures WithKey(rs, key, k) == [rs[i]]
    decreases |rs|
  {
    var init := rs[..|rs| - 1];
    assert HasKeys(init, key) && Keys(init, key) == Keys(rs, key)[..|rs| - 1] by {
      assert forall t :: 0 <= t < |init| ==> init[t] == rs[t];
    }
    if i < |rs| - 1 {
      WithKeyDistinct(init, key, i, k);
      assert Keys(rs, key)[i] != Keys(rs, key)[|rs| - 1];
    } else {
      WithKeyAbsent(init, key, k);
    }
  }

  lemma {:induction false} WithKeyAbsent(rs: seq<Record>, key: string, k: Json)
    requires HasKeys(rs, key) && k !in Keys(rs, key)
    ensures WithKey(rs, key, k) == []
    decreases |rs|
  {
    if rs != [] {
      var init := rs[..|rs| - 1];
      assert HasKeys(init, key) && Keys(init, key) == Keys(rs, key)[..|rs| - 1] by {
        assert forall t :: 0 <= t < |init| ==> init[t] == rs[t];
      }
      assert Keys(rs, key)[|rs| - 1] == rs[|rs| - 1][key];
      WithKeyAbsent(init, key, k);
    }
  }

  lemma {:induction false} AllRecordsHasKeys(streams: seq<Stream>, key: string)
    requires forall j :: 0 <= j < |streams| ==> HasKeys(streams[j].records, key)
    ensures HasKeys(AllRecords(streams), key)
    decreases |streams|
  {
    if streams != [] {
      var init := streams[..|streams| - 1];
      assert forall j :: 0 <= j < |init| ==> init[j] == streams[j];
      AllRecordsHasKeys(init, key);
      HasKeysConcat(AllRecords(init), streams[|streams| - 1].records, key);
    }
  }

  /** Streams that all list the same distinct keys `ks`: the records
      across all streams with key `ks[i]` are exactly row `i`. */
  lemma {:induction false} WithKeyIsColumn(streams: seq<Stream>, key: string, ks: seq<Json>, i: nat)
    requires Distinct(ks) && i < |ks|
    requires forall j :: 0 <= j < |streams| ==>
               HasKeys(streams[j].records, key) && Keys(streams[j].records, key) == ks
    ensures Reaches(streams, i) && HasKeys(AllRecords(streams), key)
    ensures WithKey(AllRecords(streams), key, ks[i]) == Column(streams, i)
    decreases |streams|
  {
    AllRecordsHasKeys(streams, key);
    if streams != [] {
      var init := streams[..|streams| - 1];
      var last := streams[|streams| - 1];
      assert forall j :: 0 <= j < |init| ==> init[j] == streams[j];
      WithKeyIsColumn(init, key, ks, i);
      assert Keys(last.records, key)[i] == last.records[i][key];
      WithKeyDistinct(last.records, key, i, ks[i]);
      WithKeyConcat(AllRecords(init), last.records, key, ks[i]);
    }
  }

  /** Every row of aligned streams carries one key throughout. */
  lemma AlignedColumn(streams: seq<Stream>, key: string, t: nat)
    requires Aligned(streams, key) && t < |streams[0].records|
    ensures Reaches(streams, t)
    ensures HasKeys(Column(streams, t), key) && KeysConsistent(Column(streams, t), key)
  {
    assert Reaches(streams, t);
    var c := Column(streams, t);
    forall j | 0 <= j < |c|
      ensures key in c[j] && c[j][key] == streams[0].records[t][key]
    {
      assert c[j] == streams[j].records[t];
      assert CleanRecords(streams[j].records, key);
    }
  }

  /** On aligned streams the lock-step merge delivers every row. */
  lemma LockStepOnAligned(streams: seq<Stream>, key: string)
    requires Aligned(streams, key)
    ensures var out := LockStep(streams, key);
            && out.error.None? && |out.records| == |streams[0].records|
            && forall t :: 0 <= t < |out.records| ==>
                 Reaches(streams, t) && out.records[t] == UnionAll(Column(streams, t))
  {
    var n := |streams[0].records|;
    assert MinLen(streams) == n;
    LockStepRows(streams, key);
    var out := LockStep(streams, key);
    if |out.records| < n {
      AlignedColumn(streams, key, |out.records|);
    }
    assert FirstShort(streams, n) < |streams|;
  }

  /** On aligned streams the key-buffered merge delivers every row too. */
  lemma BufferedOnAligned(streams: seq<Stream>, key: string)
    requires Aligned(streams, key)
    ensures var out := Buffered(streams, key);
            && out.error.None? && |out.records| == |streams[0].records|
            && forall t :: 0 <= t < |out.records| ==>
                 Reaches(streams, t) && out.records[t] == UnionAll(Column(streams, t))
  {
    BufferedSpec(streams, key);
    var ks := Keys(streams[0].records, key);
    DedupOfDistinct(ks);
    forall j | 0 <= j < |streams|
      ensures HasKeys(streams[j].records, key) && Keys(streams[j].records, key) == ks
    {
      assert CleanRecords(streams[j].records, key);
    }
    forall t | 0 <= t < |ks|
      ensures Reaches(streams, t) && Buffered(streams, key).records[t] == UnionAll(Column(streams, t))
    {
      WithKeyIsColumn(streams, key, ks, t);
    }
  }

  /** On aligned streams both merges succeed and deliver the same records. */
  lemma LockStepAgreesWithBuffered(streams: seq<Stream>, key: string)
    requires Aligned(streams, key)
    ensures LockStep(streams, key) == Buffered(streams, key)
  {
    LockStepOnAligned(streams, key);
    BufferedOnAligned(streams, key);
    assert LockStep(streams, key).records == Buffered(streams, key).records;
  }
}
