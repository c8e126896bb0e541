/** The ingest buffer as the source writes it: a ring that is appended to, swapped out and prepended to, and the
    multi-row INSERT built by flushNow. */
module IngestBuffer {
  import opened Projects
  import M = IngestMachine

  // Payload is Go's possibly nil []byte.
  datatype TelemetryRow = TelemetryRow(time: int, siteId: string, deviceId: string, metric: string,
                                       payload: Option<string>, raw: string, isJson: bool)

  datatype Arg = Time(t: int) | Text(s: string) | Null | Bytes(b: string)

  // One parenthesised group of the VALUES list: the numbers of the six `$n`, in column order
  // (time, site_id, device_id, metric, payload::jsonb, raw).
  datatype Group = Group(time: nat, siteId: nat, deviceId: nat, metric: nat, payload: nat, raw: nat)

  // A row of the telemetry table; payload None is NULL.
  datatype Stored = Stored(time: int, siteId: string, deviceId: string, metric: string, payload: Option<string>,
    raw: string)

  function StoredOf(r: TelemetryRow): Stored {
    Stored(r.time, r.siteId, r.deviceId, r.metric, if r.isJson then r.payload else None, r.raw)
  }

  // ---- What PostgreSQL makes of the statement ----

  function Param(args: seq<Arg>, n: nat): Option<Arg> {
    if 1 <= n <= |args| then Some(args[n - 1]) else None
  }

  function Evaluate(g: Group, args: seq<Arg>): Option<Stored> {
    match (Param(args, g.time), Param(args, g.siteId), Param(args, g.deviceId), Param(args, g.metric),
           Param(args, g.payload), Param(args, g.raw))
    case (Some(Time(t)), Some(Text(s)), Some(Text(d)), Some(Text(m)), Some(Text(p)), Some(Bytes(r))) =>
      Some(Stored(t, s, d, m, Some(p), r))
    case (Some(Time(t)), Some(Text(s)), Some(Text(d)), Some(Text(m)), Some(Null), Some(Bytes(r))) =>
      Some(Stored(t, s, d, m, None, r))
    case _ => None
  }

  function Collect(rows: seq<Option<Stored>>): Option<seq<Stored>> {
    if rows == [] then Some([])
    else match (rows[0], Collect(rows[1..]))
      case (Some(first), Some(rest)) => Some([first] + rest)
      case _ => None
  }

  // All groups evaluate, or the whole statement fails.
  function EvaluateAll(groups: seq<Group>, args: seq<Arg>): Option<seq<Stored>> {
    Collect(seq(|groups|, i requires 0 <= i < |groups| => Evaluate(groups[i], args)))
  }

  function StoredAll(rows: seq<TelemetryRow>): (r: seq<Stored>)
    ensures |r| == |rows| && forall i :: 0 <= i < |r| ==> r[i] == StoredOf(rows[i])
  {
    seq(|rows|, i requires 0 <= i < |rows| => StoredOf(rows[i]))
  }

  lemma {:induction false} CollectsTo(rows: seq<Option<Stored>>, values: seq<Stored>)
    requires |rows| == |values| && forall i :: 0 <= i < |rows| ==> rows[i] == Some(values[i])
    ensures Collect(rows) == Some(values)
  {
    if rows != [] {
      CollectsTo(rows[1..], values[1..]);
      assert values == [values[0]] + values[1..];
    }
  }

  // The arguments of row `k` stand at 6k to 6k + 5, in the order of its placeholders.
  predicate ArgsOfRow(args: seq<Arg>, k: nat, r: TelemetryRow) {
    && 6 * k + 6 <= |args|
    && args[6 * k] == Time(r.time) && args[6 * k + 1] == Text(r.siteId) && args[6 * k + 2] == Text(r.deviceId)
    && args[6 * k + 3] == Text(r.metric) && args[6 * k + 5] == Bytes(r.raw)
    && args[6 * k + 4] == (if r.isJson && r.payload.Some? then Text(r.payload.value) else Null)
  }

  function GroupOfRow(k: nat): Group {
    Group(6 * k + 1, 6 * k + 2, 6 * k + 3, 6 * k + 4, 6 * k + 5, 6 * k + 6)
  }

  lemma RowEvaluates(args: seq<Arg>, k: nat, r: TelemetryRow)
    requires ArgsOfRow(args, k, r)
    ensures Evaluate(GroupOfRow(k), args) == Some(StoredOf(r))
  {
  }

  // The stored row: the six columns of the received one, the payload NULL unless the row is JSON and has one.
  lemma StoredColumns(r: TelemetryRow)
    ensures var x := StoredOf(r);
            && x.time == r.time && x.siteId == r.siteId && x.deviceId == r.deviceId
            && x.metric == r.metric && x.raw == r.raw
            && (x.payload.None? <==> !r.isJson || r.payload.None?)
            && (x.payload.Some? ==> x.payload == r.payload)
  {
  }

  // The statement stores the batch exactly.
  lemma StatementStoresBatch(groups: seq<Group>, args: seq<Arg>, batch: seq<TelemetryRow>)
    requires |groups| == |batch|
    requires forall k :: 0 <= k < |batch| ==> groups[k] == GroupOfRow(k) && ArgsOfRow(args, k, batch[k])
    ensures EvaluateAll(groups, args) == Some(StoredAll(batch))
  {
    var rows := seq(|groups|, i requires 0 <= i < |groups| => Evaluate(groups[i], args));
    forall k | 0 <= k < |batch| ensures rows[k] == Some(StoredAll(batch)[k]) {
      RowEvaluates(args, k, batch[k]);
    }
    CollectsTo(rows, StoredAll(batch));
  }

  // The loop of flushNow. Six arguments a row, numbered in order, and a statement that stores the batch exactly.
  method BuildInsert(batch: seq<TelemetryRow>) returns (groups: seq<Group>, args: seq<Arg>)
    ensures |groups| == |batch| && |args| == 6 * |batch|
    ensures forall k :: 0 <= k < |batch| ==> groups[k] == GroupOfRow(k) && ArgsOfRow(args, k, batch[k])
    ensures EvaluateAll(groups, args) == Some(StoredAll(batch))
  {
    groups, args := [], [];
    for i := 0 to |batch|
      invariant |groups| == i && |args| == 6 * i
      invariant forall k :: 0 <= k < i ==> groups[k] == GroupOfRow(k) && ArgsOfRow(args, k, batch[k])
    {
      var r := batch[i];
      var base := i * 6;
      var payloadArg := Null;
      if r.isJson && r.payload.Some? {
        payloadArg := Text(r.payload.value);
      }
      args := args + [Time(r.time), Text(r.siteId), Text(r.deviceId), Text(r.metric), payloadArg, Bytes(r.raw)];
      groups := groups + [Group(base + 1, base + 2, base + 3, base + 4, base + 5, base + 6)];
    }
    StatementStoresBatch(groups, args, batch);
  }

  // ---- The buffer ----

  class Buffer {
    const batchSize: int
    var ring: seq<TelemetryRow>
    var table: seq<Stored>
    // The history that the machine of module IngestMachine speaks about.
    ghost var received: seq<TelemetryRow>
    ghost var persisted: seq<TelemetryRow>
    ghost var inflight: seq<seq<TelemetryRow>>

    constructor (batchSize: int)
      ensures this.batchSize == batchSize && Valid() && Abstract() == M.Init()
    {
      this.batchSize := batchSize;
      ring, table, received, persisted, inflight := [], [], [], [], [];
    }

    // The table holds what the machine counts as persisted.
    ghost predicate Valid()
      reads this
    {
      table == StoredAll(persisted)
    }

    ghost function Abstract(): M.State<TelemetryRow>
      reads this
    {
      M.State(received, persisted, inflight, ring)
    }

    // First lock region of handleMessage.
    method Append(row: TelemetryRow) returns (size: nat)
      requires Valid()
      modifies this
      ensures Valid() && Abstract() == M.Next(old(Abstract()), M.Arrive(row)) && size == |ring|
    {
      ring := ring + [row];
      size := |ring|;
      received := received + [row];
    }

    // First lock region of flushNow; None when there is nothing to flush.
    method Swap() returns (batch: Option<seq<TelemetryRow>>)
      requires Valid()
      modifies this
      ensures Valid()
      ensures if old(ring) == [] then batch.None? && Abstract() == old(Abstract())
              else batch == Some(old(ring)) && Abstract() == M.Next(old(Abstract()), M.Take)
    {
      if |ring| == 0 {
        return None;
      }
      batch := Some(ring);
      ring := [];
      inflight := inflight + [batch.value];
    }

    // Exec: the whole statement takes effect or none of it. `i` is the batch's place among those in flight.
    method Exec(groups: seq<Group>, args: seq<Arg>, dbOk: bool, ghost i: nat) returns (ok: bool)
      requires Valid() && i < |inflight| && EvaluateAll(groups, args) == Some(StoredAll(inflight[i]))
      modifies this
      ensures Valid() && ok == dbOk
      ensures Abstract() == if ok then M.Next(old(Abstract()), M.InsertOk(i)) else old(Abstract())
    {
      var rows := EvaluateAll(groups, args);
      ok := dbOk;
      if ok {
        table := table + rows.value;
        assert StoredAll(persisted + inflight[i]) == StoredAll(persisted) + StoredAll(inflight[i]);
        persisted, inflight := persisted + inflight[i], inflight[..i] + inflight[i + 1..];
      }
    }

    // Second lock region of flushNow.
    method Requeue(batch: seq<TelemetryRow>, ghost i: nat)
      requires Valid() && i < |inflight| && inflight[i] == batch
      modifies this
      ensures Valid() && Abstract() == M.Next(old(Abstract()), M.InsertFail(i))
    {
      ring := batch + ring;
      inflight := inflight[..i] + inflight[i + 1..];
    }

    // A whole flush that nothing interrupts: all of the ring is stored, or nothing has happened.
    method FlushNow(dbOk: bool)
      requires Valid()
      modifies this
      ensures Valid() && received == old(received) && inflight == old(inflight)
      ensures if dbOk
        then ring == [] && persisted == old(persisted) + old(ring) && table == old(table) + StoredAll(old(ring))
              else ring == old(ring) && persisted == old(persisted) && table == old(table)
    {
      ghost var i := |inflight|;
      var batch := Swap();
      if batch.None? {
        return;
      }
      var groups, args := BuildInsert(batch.value);
      assert inflight[i] == batch.value && inflight[..i] + inflight[i + 1..] == old(inflight);
      var ok := Exec(groups, args, dbOk, i);
      if !ok {
        Requeue(batch.value, i);
      }
    }

    // Buffer the row; flush when the batch size is reached.
    method HandleMessage(row: TelemetryRow, dbOk: bool)
      requires Valid()
      modifies this
      ensures Valid() && received == old(received) + [row] && inflight == old(inflight)
      ensures persisted + ring == old(persisted + ring) + [row]
      ensures old(|ring|) + 1 >= batchSize && dbOk ==> ring == []
      ensures old(|ring|) + 1 < batchSize ==> ring == old(ring) + [row] && table == old(table)
    {
      var size := Append(row);
      if size >= batchSize {
        FlushNow(dbOk);
      }
    }
  }

  // ---- Batch size with serial handling ----

  // The handler runs one message at a time; the ticker may take the ring at any moment; no insert fails.
  datatype Pc = Idle | Sized(size: nat)
  datatype Serial = Serial(ring: seq<TelemetryRow>, pc: Pc, batches: seq<seq<TelemetryRow>>)
  datatype Move = HandlerAppends(row: TelemetryRow) | HandlerReturns | HandlerFlushes | TickerFlushes

  predicate CanMove(s: Serial, m: Move, batchSize: int) {
    match m
    case HandlerAppends(_) => s.pc.Idle?
    case HandlerReturns => s.pc.Sized? && s.pc.size < batchSize
    case HandlerFlushes => s.pc.Sized? && s.pc.size >= batchSize
    case TickerFlushes => true
  }

  function Flushed(s: Serial, pc: Pc): Serial {
    Serial([], pc, if s.ring == [] then s.batches else s.batches + [s.ring])
  }

  function Moved(s: Serial, m: Move, batchSize: int): Serial
    requires CanMove(s, m, batchSize)
  {
    match m
    case HandlerAppends(row) => s.(ring := s.ring + [row], pc := Sized(|s.ring| + 1))
    case HandlerReturns => s.(pc := Idle)
    case HandlerFlushes => Flushed(s, Idle)
    case TickerFlushes => Flushed(s, s.pc)
  }

  function Limit(batchSize: int): nat { if batchSize < 1 then 1 else batchSize }

  predicate WithinLimit(s: Serial, batchSize: int) {
    && (s.pc.Idle? ==> |s.ring| < Limit(batchSize))
    && (s.pc.Sized? ==> |s.ring| <= s.pc.size <= Limit(batchSize))
    && forall i :: 0 <= i < |s.batches| ==> 1 <= |s.batches[i]| <= Limit(batchSize)
  }

  function Play(s: Serial, moves: seq<Move>, batchSize: int): Option<Serial>
    decreases |moves|
  {
    if moves == [] then Some(s)
    else if CanMove(s, moves[0], batchSize) then Play(Moved(s, moves[0], batchSize), moves[1..], batchSize)
    else None
  }

  // No statement ever carries more than BatchSize rows (one row when BatchSize is not positive).
  lemma {:induction false} BatchesStayWithinLimit(s: Serial, moves: seq<Move>, batchSize: int)
    requires WithinLimit(s, batchSize)
    ensures var end := Play(s, moves, batchSize); end.Some? ==> WithinLimit(end.value, batchSize)
    decreases |moves|
  {
    if moves != [] && CanMove(s, moves[0], batchSize) {
      BatchesStayWithinLimit(Moved(s, moves[0], batchSize), moves[1..], batchSize);
    }
  }
}
