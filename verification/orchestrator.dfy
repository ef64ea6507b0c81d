/** The per-table driver: bookmark-advancing delivery, the retry loop on a
    merge mismatch, the weekly rule, the table-skip rules, and the exit
    status of a run. */
module Orchestrator {
  import opened Base
  import opened Json
  import opened Errors
  import opened Clock
  import opened Tables
  import opened Bookmarks
  import opened Pagination
  import opened Extract
  import opened Schedule

  /** What the tap writes: a record of a stream, or the whole bookmark state. */
  datatype Event = Emit(stream: string, record: Record) | Checkpoint(state: Bookmarks)

  /** `get_records(table, fields, start, end, limit)` with its default
      shrink factor, as the driver sees it on attempt number `k` of a
      `sync`. The attempt number lets the service answer a retried query
      differently from the first time. */
  type Fetch = (nat, Table, seq<string>, Window, Option<int>) -> Stream

  /** The extractor of one connection: the service as it answers on each
      attempt, the instance it lives on, and how deep window shrinking may
      recurse. */
  function Extractor(servers: nat -> Server, instanceUrl: string, fuel: nat): (f: Fetch)
    ensures forall k, table, fields, w, limit ::
              f(k, table, fields, w, limit)
              == GetRecords(servers(k), instanceUrl, table, fields, w, limit, InitialShrinkFactor, fuel)
  {
    (k: nat, table: Table, fields: seq<string>, w: Window, limit: Option<int>) =>
      GetRecords(servers(k), instanceUrl, table, fields, w, limit, InitialShrinkFactor, fuel)
  }

  /** What the driver is given: the extractor and the instance URL it
      talks to. */
  datatype Context = Context(fetch: Fetch, instanceUrl: string)

  /** Retries after a merge mismatch before it is raised. */
  const MaxRetries: nat := 5

  /** The tenant for which `Case` is extracted. */
  const CaseInstance: string := "https://parloagmbh.my.salesforce.com"

  /** The initial shrink factor of `get_records`. */
  const InitialShrinkFactor: int := 2

  // ---------------------------------------------------------------------
  // Delivering records
  // ---------------------------------------------------------------------

  /** `record[table.replication_key]`, parsed as a timestamp. */
  function RecordStamp(rec: Record, rk: Option<string>): (r: Result<Instant>)
    ensures r.Ok? <==> rk.Some? && rk.value in rec && rec[rk.value].Str? && Parse(rec[rk.value].s).Some?
    ensures r.Ok? ==> Parse(rec[rk.value].s) == Some(r.value)
    ensures r.Err? ==> r.error in {Python(KeyError), Python(TypeError), Python(ValueError)}
  {
    if rk.None? || rk.value !in rec then Err(Python(KeyError))
    else match rec[rk.value]
      case Str(s) =>
        (match Parse(s)
         case Some(t) => Ok(t)
         case None => Err(Python(ValueError)))
      case _ => Err(Python(TypeError))
  }

  /** The last timestamp of a list, if any. */
  function LastOf(stamps: seq<Instant>): Option<Instant>
  {
    if stamps == [] then None else Some(stamps[|stamps| - 1])
  }

  /** `after` is `before` with the table's bookmark set to `last`, or
      `before` itself when there is no `last`. */
  predicate BookmarkAfter(before: Bookmarks, table: Table, last: Option<Instant>, after: Bookmarks)
  {
    match last
    case None => after == before
    case Some(t) =>
      table.replicationKey.Some? && after == SetStreamState(before, table.name, table.replicationKey.value, Date(t))
  }

  /** Setting the bookmark twice keeps only the later value. */
  lemma BookmarkAfterTwice(st: Bookmarks, table: Table, a: Option<Instant>, mid: Bookmarks, b: Option<Instant>, fin: Bookmarks)
    requires BookmarkAfter(st, table, a, mid) && BookmarkAfter(mid, table, b, fin)
    ensures BookmarkAfter(st, table, if b.Some? then b else a, fin)
  {
    if a.Some? && b.Some? {
      SetStreamStateOverwrites(st, table.name, table.replicationKey.value, Date(a.value), Date(b.value));
    }
  }

  /** The outcome of consuming one record stream. */
  datatype Delivery = Delivery(state: Bookmarks, events: seq<Event>, stamps: seq<Instant>, error: Option<Exc>)

  /** The body of the `for record in ...` loop of `sync`: parse the
      record's timestamp, write the record, set the bookmark to it. */
  function Deliver(st: Bookmarks, table: Table, records: seq<Record>): (d: Delivery)
    ensures |d.events| == |d.stamps| <= |records|
    ensures forall i :: 0 <= i < |d.events| ==> d.events[i] == Emit(table.name, records[i])
    ensures d.error.None? <==> |d.stamps| == |records|
    decreases |records|
  {
    if records == [] then Delivery(st, [], [], None)
    else match RecordStamp(records[0], table.replicationKey)
      case Err(e) => Delivery(st, [], [], Some(e))
      case Ok(t) =>
        var st1 := SetStreamState(st, table.name, table.replicationKey.value, Date(t));
        var rest := Deliver(st1, table, records[1..]);
        Delivery(rest.state, [Emit(table.name, records[0])] + rest.events, [t] + rest.stamps, rest.error)
  }

  /** `stamps` are the readable timestamps of the leading records, and
      `error` is the error of the record right after them. */
  predicate StampsRead(rk: Option<string>, records: seq<Record>, stamps: seq<Instant>, error: Option<Exc>)
  {
    && |stamps| <= |records|
    && (forall i :: 0 <= i < |stamps| ==> RecordStamp(records[i], rk) == Ok(stamps[i]))
    && (error.Some? ==> |stamps| < |records| && RecordStamp(records[|stamps|], rk) == Err(error.value))
  }

  lemma StampsReadCons(rk: Option<string>, records: seq<Record>, t: Instant, stamps: seq<Instant>, error: Option<Exc>)
    requires records != [] && RecordStamp(records[0], rk) == Ok(t)
    requires StampsRead(rk, records[1..], stamps, error)
    ensures StampsRead(rk, records, [t] + stamps, error)
  {
    var all := [t] + stamps;
    forall i | 1 <= i < |all|
      ensures RecordStamp(records[i], rk) == Ok(all[i])
    {
      assert records[i] == records[1..][i - 1];
    }
    if error.Some? {
      assert records[|all|] == records[1..][|stamps|];
    }
  }

  /** Delivery of a record with a readable timestamp, then the rest. */
  lemma DeliverCons(st: Bookmarks, table: Table, records: seq<Record>)
    requires records != [] && RecordStamp(records[0], table.replicationKey).Ok?
    ensures var t := RecordStamp(records[0], table.replicationKey).value;
            var rest := Deliver(SetStreamState(st, table.name, table.replicationKey.value, Date(t)), table, records[1..]);
            && Deliver(st, table, records).stamps == [t] + rest.stamps
            && Deliver(st, table, records).error == rest.error
  {
  }

  /** Each delivered record carried a readable timestamp, which is the
      one recorded for it, and delivery stops at the first record that
      does not, raising that record's error. */
  lemma {:induction false} DeliverStamps(st: Bookmarks, table: Table, records: seq<Record>)
    ensures var d := Deliver(st, table, records);
            StampsRead(table.replicationKey, records, d.stamps, d.error)
    decreases |records|
  {
    if records != [] && RecordStamp(records[0], table.replicationKey).Ok? {
      var t := RecordStamp(records[0], table.replicationKey).value;
      var st1 := SetStreamState(st, table.name, table.replicationKey.value, Date(t));
      DeliverStamps(st1, table, records[1..]);
      DeliverCons(st, table, records);
      var rest := Deliver(st1, table, records[1..]);
      StampsReadCons(table.replicationKey, records, t, rest.stamps, rest.error);
    }
  }

  /** The bookmark after a delivery holds the timestamp of the last
      record delivered, and is untouched when none was. */
  lemma {:induction false} DeliverState(st: Bookmarks, table: Table, records: seq<Record>)
    ensures var d := Deliver(st, table, records);
            BookmarkAfter(st, table, LastOf(d.stamps), d.state)
    decreases |records|
  {
    if records != [] && RecordStamp(records[0], table.replicationKey).Ok? {
      var t := RecordStamp(records[0], table.replicationKey).value;
      var st1 := SetStreamState(st, table.name, table.replicationKey.value, Date(t));
      DeliverState(st1, table, records[1..]);
      var rest := Deliver(st1, table, records[1..]);
      assert BookmarkAfter(st, table, Some(t), st1);
      BookmarkAfterTwice(st, table, Some(t), st1, LastOf(rest.stamps), rest.state);
      assert LastOf(Deliver(st, table, records).stamps) == if rest.stamps != [] then LastOf(rest.stamps) else Some(t);
    }
  }

  // ---------------------------------------------------------------------
  // `sync`
  // ---------------------------------------------------------------------

  /** One attempt of `sync`: where it started, the timestamps of the
      records it delivered, and how it ended. */
  datatype AttemptLog = AttemptLog(start: Instant, stamps: seq<Instant>, error: Option<Exc>)

  datatype SyncOutcome = SyncOutcome(state: Bookmarks, events: seq<Event>, attempts: seq<AttemptLog>, error: Option<Exc>)

  /** Where the next attempt starts: the last delivered timestamp, or the
      attempt's own start when it delivered nothing. */
  function ResumePoint(a: AttemptLog): Instant
  {
    if a.stamps == [] then a.start else a.stamps[|a.stamps| - 1]
  }

  predicate IsMismatch(e: Option<Exc>)
  {
    e.Some? && e.value.PrimaryKeyNotMatch?
  }

  /** Every attempt but the last ended in a mismatch, and the next one
      resumed where it left off. */
  predicate Chained(attempts: seq<AttemptLog>)
  {
    forall k :: 0 <= k < |attempts| - 1 ==>
      IsMismatch(attempts[k].error) && attempts[k + 1].start == ResumePoint(attempts[k])
  }

  lemma ChainedCons(a: AttemptLog, rest: seq<AttemptLog>)
    requires Chained(rest) && |rest| > 0
    requires IsMismatch(a.error) && rest[0].start == ResumePoint(a)
    ensures Chained([a] + rest)
  {
    var all := [a] + rest;
    forall k | 0 <= k < |all| - 1
      ensures IsMismatch(all[k].error) && all[k + 1].start == ResumePoint(all[k])
    {
      if k > 0 {
        assert all[k] == rest[k - 1] && all[k + 1] == rest[k];
      }
    }
  }

  /** One pass of the `while True` body: extract from `start` to `end`
      and deliver what arrives. */
  function RunAttempt(ctx: Context, attempt: nat, st: Bookmarks, table: Table, fields: seq<string>,
                      start: Instant, end: Instant, limit: Option<int>): (d: Delivery)
    ensures forall i :: 0 <= i < |d.events| ==> d.events[i].Emit? && d.events[i].stream == table.name
    ensures BookmarkAfter(st, table, LastOf(d.stamps), d.state)
  {
    var s := ctx.fetch(attempt, table, fields, Window(start, end), limit);
    var d := Deliver(st, table, s.records);
    DeliverState(st, table, s.records);
    if d.error.Some? then d else d.(error := s.error)
  }

  /** An attempt delivers the fetched records in order, each written to
      the table's stream with its timestamp read, up to the first record
      without a readable timestamp. It ends with that record's error, or
      with the stream's own when every record was delivered. */
  lemma RunAttemptDelivers(ctx: Context, attempt: nat, st: Bookmarks, table: Table, fields: seq<string>,
                           start: Instant, end: Instant, limit: Option<int>)
    ensures var s := ctx.fetch(attempt, table, fields, Window(start, end), limit);
            var d := RunAttempt(ctx, attempt, st, table, fields, start, end, limit);
            && |d.events| == |d.stamps| <= |s.records|
            && (forall i :: 0 <= i < |d.events| ==> d.events[i] == Emit(table.name, s.records[i]))
            && (forall i :: 0 <= i < |d.stamps| ==> RecordStamp(s.records[i], table.replicationKey) == Ok(d.stamps[i]))
            && (|d.stamps| < |s.records| ==>
                  && RecordStamp(s.records[|d.stamps|], table.replicationKey).Err?
                  && d.error == Some(RecordStamp(s.records[|d.stamps|], table.replicationKey).error))
            && (|d.stamps| == |s.records| ==> d.error == s.error)
  {
    var s := ctx.fetch(attempt, table, fields, Window(start, end), limit);
    DeliverStamps(st, table, s.records);
  }

  /** One pass of the loop body: its attempt number, the state and the
      start time. */
  type Attempt = (nat, Bookmarks, Instant) -> Delivery

  /** The `while True` loop of `sync` from attempt number `attempt` on:
      every attempt ends with a state checkpoint, and a mismatch is retried
      from the resume point while fewer than `MaxRetries` retries have been
      made. */
  function Retry(run: Attempt, st: Bookmarks, start: Instant, attempt: nat): (r: SyncOutcome)
    requires attempt <= MaxRetries
    ensures 1 <= |r.attempts| <= MaxRetries + 1 - attempt
    ensures r.attempts[0].start == start
    ensures r.error == r.attempts[|r.attempts| - 1].error
    ensures IsMismatch(r.error) ==> |r.attempts| == MaxRetries + 1 - attempt
    ensures |r.events| > 0 && r.events[|r.events| - 1] == Checkpoint(r.state)
    decreases MaxRetries - attempt
  {
    var d := run(attempt, st, start);
    var log := AttemptLog(start, d.stamps, d.error);
    var events := d.events + [Checkpoint(d.state)];
    if IsMismatch(d.error) && attempt + 1 <= MaxRetries then
      var rest := Retry(run, d.state, ResumePoint(log), attempt + 1);
      SyncOutcome(rest.state, events + rest.events, [log] + rest.attempts, rest.error)
    else
      SyncOutcome(d.state, events, [log], d.error)
  }

  /** One turn of the loop: an attempt, its checkpoint, and either a
      retry or the end. */
  lemma RetryStep(run: Attempt, st: Bookmarks, start: Instant, attempt: nat)
    requires attempt <= MaxRetries
    ensures var d := run(attempt, st, start);
            var log := AttemptLog(start, d.stamps, d.error);
            var r := Retry(run, st, start, attempt);
            if IsMismatch(d.error) && attempt + 1 <= MaxRetries then
              var rest := Retry(run, d.state, ResumePoint(log), attempt + 1);
              && r.state == rest.state
              && r.events == d.events + [Checkpoint(d.state)] + rest.events
              && r.attempts == [log] + rest.attempts
            else
              && r.state == d.state
              && r.events == d.events + [Checkpoint(d.state)]
              && r.attempts == [log]
  {
  }

  /** A mismatch that the next attempt does not repeat is recovered from:
      `sync` ends without error after two attempts. */
  lemma RetryRecovers(run: Attempt, st: Bookmarks, start: Instant, attempt: nat)
    requires attempt + 1 <= MaxRetries
    requires var d := run(attempt, st, start);
             && IsMismatch(d.error)
             && run(attempt + 1, d.state, ResumePoint(AttemptLog(start, d.stamps, d.error))).error.None?
    ensures var r := Retry(run, st, start, attempt);
            r.error.None? && |r.attempts| == 2
  {
    var d := run(attempt, st, start);
    RetryStep(run, st, start, attempt);
    RetryStep(run, d.state, ResumePoint(AttemptLog(start, d.stamps, d.error)), attempt + 1);
  }

  /** Every attempt but the last ended in a mismatch, and each retry
      resumed where the previous attempt left off. */
  lemma {:induction false} RetryChained(run: Attempt, st: Bookmarks, start: Instant, attempt: nat)
    requires attempt <= MaxRetries
    ensures Chained(Retry(run, st, start, attempt).attempts)
    decreases MaxRetries - attempt
  {
    var d := run(attempt, st, start);
    var log := AttemptLog(start, d.stamps, d.error);
    if IsMismatch(d.error) && attempt + 1 <= MaxRetries {
      RetryChained(run, d.state, ResumePoint(log), attempt + 1);
      ChainedCons(log, Retry(run, d.state, ResumePoint(log), attempt + 1).attempts);
    }
  }

  /** `sync(sf, stream, table, fields, start_time, end_time, limit)`. */
  function Sync(ctx: Context, st: Bookmarks, table: Table, fields: seq<string>,
                start: Instant, end: Instant, limit: Option<int>): SyncOutcome
  {
    Retry((k: nat, s: Bookmarks, t: Instant) => RunAttempt(ctx, k, s, table, fields, t, end, limit), st, start, 0)
  }

  /** `get_records` is called at most six times by one `sync`, and only the
      sixth mismatch escapes. */
  lemma SyncAttemptsBounded(ctx: Context, st: Bookmarks, table: Table, fields: seq<string>,
                            start: Instant, end: Instant, limit: Option<int>)
    ensures var r := Sync(ctx, st, table, fields, start, end, limit);
            && 1 <= |r.attempts| <= 6
            && (IsMismatch(r.error) <==> |r.attempts| == 6 && IsMismatch(r.attempts[5].error))
            && (|r.attempts| < 6 ==> !IsMismatch(r.error))
  {
  }

  /** The number of checkpoints a list of events holds. */
  function Checkpoints(events: seq<Event>): nat
  {
    if events == [] then 0 else (if events[0].Checkpoint? then 1 else 0) + Checkpoints(events[1..])
  }

  lemma {:induction false} CheckpointsConcat(a: seq<Event>, b: seq<Event>)
    ensures Checkpoints(a + b) == Checkpoints(a) + Checkpoints(b)
    decreases |a|
  {
    if a == [] {
      assert a + b == b;
    } else {
      assert (a + b)[1..] == a[1..] + b;
      CheckpointsConcat(a[1..], b);
    }
  }

  lemma {:induction false} NoCheckpoints(events: seq<Event>)
    requires forall i :: 0 <= i < |events| ==> events[i].Emit?
    ensures Checkpoints(events) == 0
    decreases |events|
  {
    if events != [] {
      NoCheckpoints(events[1..]);
    }
  }

  /** An attempt that only emits records. */
  predicate EmitsOnly(d: Delivery)
  {
    forall i :: 0 <= i < |d.events| ==> d.events[i].Emit?
  }

  /** An attempt that only emits records, followed by its checkpoint. */
  lemma AttemptCheckpoints(d: Delivery)
    requires EmitsOnly(d)
    ensures Checkpoints(d.events + [Checkpoint(d.state)]) == 1
  {
    NoCheckpoints(d.events);
    CheckpointsConcat(d.events, [Checkpoint(d.state)]);
    assert Checkpoints([Checkpoint(d.state)]) == 1;
  }

  /** The state is written once per attempt, whatever the attempt's outcome. */
  lemma {:induction false} OneCheckpointPerAttempt(run: Attempt, st: Bookmarks, start: Instant, attempt: nat)
    requires attempt <= MaxRetries
    requires forall k, s, t :: EmitsOnly(run(k, s, t))
    ensures var r := Retry(run, st, start, attempt);
            Checkpoints(r.events) == |r.attempts|
    decreases MaxRetries - attempt
  {
    var d := run(attempt, st, start);
    assert EmitsOnly(d);
    var log := AttemptLog(start, d.stamps, d.error);
    if IsMismatch(d.error) && attempt + 1 <= MaxRetries {
      OneCheckpointPerAttempt(run, d.state, ResumePoint(log), attempt + 1);
    }
    OneCheckpointStep(run, st, start, attempt);
  }

  lemma OneCheckpointStep(run: Attempt, st: Bookmarks, start: Instant, attempt: nat)
    requires attempt <= MaxRetries
    requires var d := run(attempt, st, start);
             && EmitsOnly(d)
             && (IsMismatch(d.error) && attempt + 1 <= MaxRetries ==>
                   var rest := Retry(run, d.state, ResumePoint(AttemptLog(start, d.stamps, d.error)), attempt + 1);
                   Checkpoints(rest.events) == |rest.attempts|)
    ensures var r := Retry(run, st, start, attempt);
            Checkpoints(r.events) == |r.attempts|
  {
    var d := run(attempt, st, start);
    AttemptCheckpoints(d);
    var events := d.events + [Checkpoint(d.state)];
    var log := AttemptLog(start, d.stamps, d.error);
    RetryStep(run, st, start, attempt);
    if IsMismatch(d.error) && attempt + 1 <= MaxRetries {
      CheckpointsConcat(events, Retry(run, d.state, ResumePoint(log), attempt + 1).events);
    }
  }

  /** `sync` writes the state once per attempt. */
  lemma SyncCheckpoints(ctx: Context, st: Bookmarks, table: Table, fields: seq<string>,
                        start: Instant, end: Instant, limit: Option<int>)
    ensures var r := Sync(ctx, st, table, fields, start, end, limit);
            Checkpoints(r.events) == |r.attempts|
  {
    var run: Attempt := (k: nat, s: Bookmarks, t: Instant) => RunAttempt(ctx, k, s, table, fields, t, end, limit);
    forall k, s, t ensures EmitsOnly(run(k, s, t)) {
      var d := RunAttempt(ctx, k, s, table, fields, t, end, limit);
      assert forall i :: 0 <= i < |d.events| ==> d.events[i].Emit?;
    }
    OneCheckpointPerAttempt(run, st, start, 0);
  }

  /** The timestamp of the last record `sync` delivered over all attempts. */
  function LastStamp(attempts: seq<AttemptLog>): Option<Instant>
  {
    if attempts == [] then None
    else
      var last := LastOf(attempts[|attempts| - 1].stamps);
      if last.Some? then last else LastStamp(attempts[..|attempts| - 1])
  }

  /** How one timestamp is recorded in the state. */
  type Write = (Bookmarks, Instant) -> Bookmarks

  /** `after` is `before` with `last` written, or `before` itself when
      there is no `last`. */
  predicate Written(write: Write, before: Bookmarks, last: Option<Instant>, after: Bookmarks)
  {
    match last
    case None => after == before
    case Some(t) => after == write(before, t)
  }

  /** A later write replaces an earlier one. */
  ghost predicate Overwrites(write: Write)
  {
    forall s, a, b :: write(write(s, a), b) == write(s, b)
  }

  /** Retrying keeps the last timestamp delivered by any attempt, when
      every attempt keeps the last of its own and a later write replaces an
      earlier one. */
  lemma {:induction false} RetryBookmark(run: Attempt, write: Write, st: Bookmarks, start: Instant, attempt: nat)
    requires attempt <= MaxRetries
    requires Overwrites(write)
    requires forall k, s, t :: Written(write, s, LastOf(run(k, s, t).stamps), run(k, s, t).state)
    ensures var r := Retry(run, st, start, attempt);
            Written(write, st, LastStamp(r.attempts), r.state)
    decreases MaxRetries - attempt
  {
    var d := run(attempt, st, start);
    var log := AttemptLog(start, d.stamps, d.error);
    if IsMismatch(d.error) && attempt + 1 <= MaxRetries {
      RetryBookmark(run, write, d.state, ResumePoint(log), attempt + 1);
      RetryBookmarkStep(run, write, st, start, attempt);
    } else {
      RetryStep(run, st, start, attempt);
      LastStampOne(log);
      assert Written(write, st, LastOf(d.stamps), d.state);
    }
  }

  lemma RetryBookmarkStep(run: Attempt, write: Write, st: Bookmarks, start: Instant, attempt: nat)
    requires attempt + 1 <= MaxRetries
    requires Overwrites(write)
    requires var d := run(attempt, st, start);
             && IsMismatch(d.error)
             && Written(write, st, LastOf(d.stamps), d.state)
             && var rest := Retry(run, d.state, ResumePoint(AttemptLog(start, d.stamps, d.error)), attempt + 1);
                Written(write, d.state, LastStamp(rest.attempts), rest.state)
    ensures var r := Retry(run, st, start, attempt);
            Written(write, st, LastStamp(r.attempts), r.state)
  {
    var d := run(attempt, st, start);
    var log := AttemptLog(start, d.stamps, d.error);
    var rest := Retry(run, d.state, ResumePoint(log), attempt + 1);
    RetryStep(run, st, start, attempt);
    LastStampCons(log, rest.attempts);
    if LastOf(d.stamps).Some? && LastStamp(rest.attempts).Some? {
      assert write(write(st, LastOf(d.stamps).value), LastStamp(rest.attempts).value)
          == write(st, LastStamp(rest.attempts).value);
    }
  }

  /** The last timestamp of the loop: the retries' when they delivered
      one, otherwise the first attempt's. */
  lemma RetryLastStamp(run: Attempt, st: Bookmarks, start: Instant, attempt: nat)
    requires attempt <= MaxRetries
    ensures var d := run(attempt, st, start);
            var log := AttemptLog(start, d.stamps, d.error);
            var last := LastStamp(Retry(run, st, start, attempt).attempts);
            if IsMismatch(d.error) && attempt + 1 <= MaxRetries then
              var rest := LastStamp(Retry(run, d.state, ResumePoint(log), attempt + 1).attempts);
              last == if rest.Some? then rest else LastOf(d.stamps)
            else last == LastOf(d.stamps)
  {
    var d := run(attempt, st, start);
    var log := AttemptLog(start, d.stamps, d.error);
    RetryStep(run, st, start, attempt);
    if IsMismatch(d.error) && attempt + 1 <= MaxRetries {
      LastStampCons(log, Retry(run, d.state, ResumePoint(log), attempt + 1).attempts);
    } else {
      LastStampOne(log);
    }
  }

  /** Attempts that deliver nothing leave no last timestamp. */
  lemma {:induction false} RetryNoStamps(run: Attempt, st: Bookmarks, start: Instant, attempt: nat)
    requires attempt <= MaxRetries
    requires forall k, s, t :: run(k, s, t).stamps == []
    ensures LastStamp(Retry(run, st, start, attempt).attempts) == None
    decreases MaxRetries - attempt
  {
    var d := run(attempt, st, start);
    var log := AttemptLog(start, d.stamps, d.error);
    assert LastOf(d.stamps) == None;
    RetryLastStamp(run, st, start, attempt);
    if IsMismatch(d.error) && attempt + 1 <= MaxRetries {
      RetryNoStamps(run, d.state, ResumePoint(log), attempt + 1);
    }
  }

  /** Writing the table's bookmark. */
  function BookmarkWrite(table: Table): Write
  {
    (s, t) => if table.replicationKey.Some? then SetStreamState(s, table.name, table.replicationKey.value, Date(t)) else s
  }

  lemma WrittenIsBookmarkAfter(table: Table, before: Bookmarks, last: Option<Instant>, after: Bookmarks)
    requires last.Some? ==> table.replicationKey.Some?
    ensures Written(BookmarkWrite(table), before, last, after) <==> BookmarkAfter(before, table, last, after)
  {
  }

  /** After `sync`, the table's bookmark holds the timestamp of the last
      record delivered (not the largest), and is untouched when no record
      was delivered. */
  lemma SyncBookmark(ctx: Context, st: Bookmarks, table: Table, fields: seq<string>,
                     start: Instant, end: Instant, limit: Option<int>)
    ensures var r := Sync(ctx, st, table, fields, start, end, limit);
            BookmarkAfter(st, table, LastStamp(r.attempts), r.state)
  {
    var run: Attempt := (k: nat, s: Bookmarks, t: Instant) => RunAttempt(ctx, k, s, table, fields, t, end, limit);
    var write := BookmarkWrite(table);
    forall s, a, b ensures write(write(s, a), b) == write(s, b) {
      if table.replicationKey.Some? {
        SetStreamStateOverwrites(s, table.name, table.replicationKey.value, Date(a), Date(b));
      }
    }
    forall k, s, t ensures Written(write, s, LastOf(run(k, s, t).stamps), run(k, s, t).state) {
      var d := RunAttempt(ctx, k, s, table, fields, t, end, limit);
      assert BookmarkAfter(s, table, LastOf(d.stamps), d.state);
      WrittenIsBookmarkAfter(table, s, LastOf(d.stamps), d.state);
    }
    RetryBookmark(run, write, st, start, 0);
    var r := Sync(ctx, st, table, fields, start, end, limit);
    if table.replicationKey.None? {
      forall k, s, t ensures run(k, s, t).stamps == [] {
        var d := RunAttempt(ctx, k, s, table, fields, t, end, limit);
        assert BookmarkAfter(s, table, LastOf(d.stamps), d.state);
      }
      RetryNoStamps(run, st, start, 0);
    }
    WrittenIsBookmarkAfter(table, st, LastStamp(r.attempts), r.state);
  }

  lemma LastStampOne(a: AttemptLog)
    ensures LastStamp([a]) == LastOf(a.stamps)
  {
    assert [a][..0] == [];
  }

  lemma {:induction false} LastStampCons(a: AttemptLog, rest: seq<AttemptLog>)
    ensures LastStamp([a] + rest)
         == if LastStamp(rest).Some? then LastStamp(rest) else LastOf(a.stamps)
    decreases |rest|
  {
    if rest == [] {
      assert [a] + rest == [a];
      assert [a][..0] == [];
    } else {
      assert ([a] + rest)[..|rest|] == [a] + rest[..|rest| - 1];
      LastStampCons(a, rest[..|rest| - 1]);
    }
  }

  // ---------------------------------------------------------------------
  // `main_impl` and `main`
  // ---------------------------------------------------------------------

  /** `parse_exception`: `data[0]`, then its `message` and `errorCode`. */
  function ParseException(body: Json): (r: Result<(Json, Json)>)
    ensures r.Ok? <==> body.Arr? && |body.items| > 0 && body.items[0].Obj?
                       && "message" in body.items[0].fields && "errorCode" in body.items[0].fields
  {
    match body
    case Obj(_) => Err(Python(KeyError))
    case Arr(items) =>
      if items == [] then Err(Python(IndexError))
      else (match items[0]
            case Obj(m) =>
              if "message" in m && "errorCode" in m then Ok((m["message"], m["errorCode"]))
              else Err(Python(KeyError))
            case _ => Err(Python(TypeError)))
    case Str(s) => if s == "" then Err(Python(IndexError)) else Err(Python(TypeError))
    case _ => Err(Python(TypeError))
  }

  /** The `except HTTPError` handler: the body is parsed again, and the
      HTTP error is re-raised only when that parse succeeds. */
  function HandleHttpError(e: Exc): (r: Exc)
  {
    match e
    case HttpError(_, body) => (match ParseException(body) case Err(pe) => pe case Ok(_) => e)
    case _ => e
  }

  /** An HTTP error reaches the handler only when its body was not a
      Salesforce error body; the handler then re-raises it only for a list
      whose first object has a null `message` and an `errorCode`, and
      otherwise raises a Python error of its own instead. */
  lemma HttpErrorHandlerMasks(status: int, body: Json)
    requires BuildSalesforceException(status, Some(body)).None?
    ensures HandleHttpError(HttpError(status, body)) == HttpError(status, body)
        <==> body.Arr? && |body.items| > 0 && body.items[0].Obj?
             && Get(body.items[0].fields, "message") == Null && "message" in body.items[0].fields
             && "errorCode" in body.items[0].fields
    ensures HandleHttpError(HttpError(status, body)) != HttpError(status, body) ==>
              HandleHttpError(HttpError(status, body)).Python?
  {
  }

  datatype TableOutcome = TableOutcome(state: Bookmarks, events: seq<Event>, start: Option<Instant>, error: Option<Exc>)

  /** The result of syncing one table over a list of windows in order,
      stopping at the first error. */
  function SyncWindows(ctx: Context, st: Bookmarks, table: Table, fields: seq<string>, windows: seq<Window>): (r: SyncOutcome)
    ensures windows == [] ==> r.events == [] && r.error.None? && r.state == st
    decreases |windows|
  {
    if windows == [] then SyncOutcome(st, [], [], None)
    else
      var first := Sync(ctx, st, table, fields, windows[0].start, windows[0].end, None);
      if first.error.Some? then first
      else
        var rest := SyncWindows(ctx, first.state, table, fields, windows[1..]);
        SyncOutcome(rest.state, first.events + rest.events, first.attempts + rest.attempts, rest.error)
  }

  /** The last timestamp over two runs of attempts is the second run's,
      or the first's when the second delivered nothing. */
  lemma {:induction false} LastStampConcat(a: seq<AttemptLog>, b: seq<AttemptLog>)
    ensures LastStamp(a + b) == if LastStamp(b).Some? then LastStamp(b) else LastStamp(a)
    decreases |b|
  {
    if b == [] {
      assert a + b == a;
    } else {
      var ab := a + b;
      assert ab[|ab| - 1] == b[|b| - 1];
      assert ab[..|ab| - 1] == a + b[..|b| - 1];
      LastStampConcat(a, b[..|b| - 1]);
    }
  }

  /** Over a list of windows, the table's bookmark ends at the last
      timestamp delivered in any of them, and is untouched when none was. */
  lemma {:induction false} SyncWindowsBookmark(ctx: Context, st: Bookmarks, table: Table, fields: seq<string>, windows: seq<Window>)
    ensures var r := SyncWindows(ctx, st, table, fields, windows);
            BookmarkAfter(st, table, LastStamp(r.attempts), r.state)
    decreases |windows|
  {
    if windows != [] {
      var first := Sync(ctx, st, table, fields, windows[0].start, windows[0].end, None);
      SyncBookmark(ctx, st, table, fields, windows[0].start, windows[0].end, None);
      if first.error.None? {
        var rest := SyncWindows(ctx, first.state, table, fields, windows[1..]);
        SyncWindowsBookmark(ctx, first.state, table, fields, windows[1..]);
        BookmarkAfterTwice(st, table, LastStamp(first.attempts), first.state, LastStamp(rest.attempts), rest.state);
        LastStampConcat(first.attempts, rest.attempts);
      }
    }
  }

  /** The field catalog records of a table. */
  function CatalogEvents(table: Table): (es: seq<Event>)
    ensures |es| == |table.fields|
    ensures forall i :: 0 <= i < |es| ==> es[i] == Emit(table.name + "Fields", table.fields[i].raw)
  {
    seq(|table.fields|, i requires 0 <= i < |table.fields| => Emit(table.name + "Fields", table.fields[i].raw))
  }

  /** The extraction of one table from `start`: week by week under the
      weekly rule, otherwise in one `sync` up to `endTime`. */
  function TableSync(ctx: Context, st: Bookmarks, table: Table, start: Instant, endTime: Instant): SyncOutcome
  {
    if table.applyWeeklyRule then SyncWindows(ctx, st, table, FieldNames(table.fields), WeeklyWindows(start, endTime))
    else Sync(ctx, st, table, FieldNames(table.fields), start, endTime, None)
  }

  /** One iteration of the table loop of `main_impl`. */
  function ProcessTable(ctx: Context, st: Bookmarks, table: Table, configStart: Instant, endTime: Instant): TableOutcome
  {
    if table.fields == [] then TableOutcome(st, [], None, None)
    else
      var catalog := if table.shouldSyncFields then CatalogEvents(table) else [];
      if table.name == "Case" && ctx.instanceUrl != CaseInstance then TableOutcome(st, catalog, None, None)
      else match GetStreamState(st, table.name, table.replicationKey)
        case Err(e) => TableOutcome(st, catalog, None, Some(e))
        case Ok(bookmark) =>
          var start := if bookmark.Some? then bookmark.value else configStart;
          var r := TableSync(ctx, st, table, start, endTime);
          var error := if r.error.Some? then Some(HandleHttpError(r.error.value)) else None;
          TableOutcome(r.state, catalog + r.events + [Checkpoint(r.state)], Some(start), error)
  }

  /** The skip rules and the start time of one table:
      - a table without fields produces nothing;
      - the catalog is written first, and only when requested;
      - `Case` stops after the catalog on every other instance;
      - an error reading the bookmark ends the table after the catalog,
        before any extraction and without a state write;
      - otherwise the table is extracted from its bookmark, or from the
        configured start when it has none; its events follow the catalog,
        the state is written last whatever the outcome, and an escaping
        error passes through the `HTTPError` handler. */
  lemma ProcessTableSpec(ctx: Context, st: Bookmarks, table: Table, configStart: Instant, endTime: Instant)
    ensures var r := ProcessTable(ctx, st, table, configStart, endTime);
            && (table.fields == [] ==> r == TableOutcome(st, [], None, None))
            && (table.fields != [] ==>
                  var catalog := if table.shouldSyncFields then CatalogEvents(table) else [];
                  && catalog <= r.events
                  && (table.name == "Case" && ctx.instanceUrl != CaseInstance ==> r == TableOutcome(st, catalog, None, None))
                  && (!(table.name == "Case" && ctx.instanceUrl != CaseInstance) ==>
                        var got := GetStreamState(st, table.name, table.replicationKey);
                        && (got.Err? ==> r == TableOutcome(st, catalog, None, Some(got.error)))
                        && (got.Ok? ==>
                              var start := if got.value.Some? then got.value.value else configStart;
                              var inner := TableSync(ctx, st, table, start, endTime);
                              && r.start == Some(start)
                              && r.state == inner.state
                              && r.events == catalog + inner.events + [Checkpoint(inner.state)]
                              && r.error == (if inner.error.Some? then Some(HandleHttpError(inner.error.value)) else None))))
  {
  }

  /** A table extracted without error hands the next run its last
      delivered timestamp as the start: the next run resumes where this one
      stopped. */
  lemma ProcessTableResumes(ctx: Context, st: Bookmarks, table: Table, configStart: Instant, endTime: Instant,
                            ctx': Context, configStart': Instant, endTime': Instant)
    requires table.fields != [] && table.replicationKey.Some?
    requires !(table.name == "Case" && ctx.instanceUrl != CaseInstance)
    requires !(table.name == "Case" && ctx'.instanceUrl != CaseInstance)
    requires var r := ProcessTable(ctx, st, table, configStart, endTime);
             r.start.Some? && LastStamp(TableSync(ctx, st, table, r.start.value, endTime).attempts).Some?
    ensures var r := ProcessTable(ctx, st, table, configStart, endTime);
            var last := LastStamp(TableSync(ctx, st, table, r.start.value, endTime).attempts);
            ProcessTable(ctx', r.state, table, configStart', endTime').start == Some(last.value)
  {
    var r := ProcessTable(ctx, st, table, configStart, endTime);
    ProcessTableSpec(ctx, st, table, configStart, endTime);
    var inner := TableSync(ctx, st, table, r.start.value, endTime);
    if table.applyWeeklyRule {
      SyncWindowsBookmark(ctx, st, table, FieldNames(table.fields), WeeklyWindows(r.start.value, endTime));
    } else {
      SyncBookmark(ctx, st, table, FieldNames(table.fields), r.start.value, endTime, None);
    }
    var last := LastStamp(inner.attempts).value;
    assert r.state == SetStreamState(st, table.name, table.replicationKey.value, Date(last));
    GetAfterSetDate(st, table.name, table.replicationKey.value, last);
  }

  datatype RunOutcome = RunOutcome(state: Bookmarks, events: seq<Event>, error: Option<Exc>)

  /** The table loop of `main_impl`: any error ends the run, so the
      tables after a failing one are not touched. */
  function RunTables(ctx: Context, st: Bookmarks, tables: seq<Table>, configStart: Instant, endTime: Instant): (r: RunOutcome)
    ensures tables == [] ==> r == RunOutcome(st, [], None)
    ensures tables != [] ==>
              var t := ProcessTable(ctx, st, tables[0], configStart, endTime);
              && t.events <= r.events
              && (t.error.Some? ==> r == RunOutcome(t.state, t.events, t.error))
    decreases |tables|
  {
    if tables == [] then RunOutcome(st, [], None)
    else
      var t := ProcessTable(ctx, st, tables[0], configStart, endTime);
      if t.error.Some? then RunOutcome(t.state, t.events, t.error)
      else
        var rest := RunTables(ctx, t.state, tables[1..], configStart, endTime);
        RunOutcome(rest.state, t.events + rest.events, rest.error)
  }

  /** The table loop over two lists is the loop over the first, then, if
      that ended without error, the loop over the second from the state the
      first left. */
  lemma {:induction false} RunTablesAppend(ctx: Context, st: Bookmarks, a: seq<Table>, b: seq<Table>,
                                           configStart: Instant, endTime: Instant)
    ensures var ra := RunTables(ctx, st, a, configStart, endTime);
            var rb := RunTables(ctx, ra.state, b, configStart, endTime);
            RunTables(ctx, st, a + b, configStart, endTime)
              == if ra.error.Some? then ra else RunOutcome(rb.state, ra.events + rb.events, rb.error)
    decreases |a|
  {
    if a == [] {
      assert a + b == b;
    } else {
      assert (a + b)[0] == a[0];
      assert (a + b)[1..] == a[1..] + b;
      var t := ProcessTable(ctx, st, a[0], configStart, endTime);
      if t.error.None? {
        RunTablesAppend(ctx, t.state, a[1..], b, configStart, endTime);
        var rest := RunTables(ctx, t.state, a[1..], configStart, endTime);
        if rest.error.None? {
          var rb := RunTables(ctx, rest.state, b, configStart, endTime);
          assert t.events + (rest.events + rb.events) == (t.events + rest.events) + rb.events;
        }
      }
    }
  }

  /** How the process ends. */
  datatype ExitStatus = Exit(code: int) | Uncaught(error: Exc)

  /** `main`: the quota and credential subclasses are tried before the
      base class; anything else escapes. */
  function ExitStatusOf(error: Option<Exc>): (x: ExitStatus)
    ensures x == Exit(0) <==> error.None?
    ensures x.Uncaught? <==> error.Some? && !IsTapSalesforceException(error.value)
    ensures x.Uncaught? ==> x.error == error.value
    ensures error.Some? && error.value.QuotaExceeded? ==> x == Exit(2)
    ensures error == Some(InvalidCredentials) ==> x == Exit(5)
    ensures error == Some(OauthFailed) ==> x == Exit(1)
  {
    match error
    case None => Exit(0)
    case Some(QuotaExceeded(_)) => Exit(2)
    case Some(InvalidCredentials) => Exit(5)
    case Some(e) => if IsTapSalesforceException(e) then Exit(1) else Uncaught(e)
  }
}
