/**
End-to-end delivery: one client of fabric/src/sdk.rs, a network that may lose, delay and repeat messages, and the
store of fabric/src/spindle/custody.rs, which may refuse, crash between commits and serve others.
*/
module Delivery {
  import opened Common
  import opened Custody
  import opened Sdk

  datatype Flush = Checking(target: nat) | Waiting(target: nat) | Flushed(target: nat, receipt: Option<Receipt>) | Failed(target: nat)

  datatype System = System(
    pool: Pool,
    worker: Option<Buffer>,           // the record being exchanged
    stopped: bool,                    // the worker has returned
    sent: set<seq<byte>>,             // requests ever put on the network
    replies: set<Receipt>,            // receipts ever issued, to anybody
    tables: Tables,
    flushes: map<nat, Flush>,
    log: seq<seq<byte>>               // history: the text fixed at each admission
  )

  datatype Move<D> =
    | Record(timestamp: nat, data: D)             // a call that finds the mutex taken changes nothing, and is no move
    | Take
    | Deliver(request: seq<byte>, refuse: bool)                       // the server acts on some request, late or again
    | Foreign(bytes: seq<byte>, cp: Option<Checkpoint>, refuse: bool) // another producer's submission
    | Settle(outcome: Option<Receipt>)                                // a reply, or any error at all
    | Close
    | FlushStart(id: nat)
    | FlushCheck(id: nat, expired: bool)
    | FlushWake(id: nat, timedOut: bool)

  predicate Own(c: Config, identity: Identity) {
    identity.producer == c.producer && identity.generation == c.generation
  }

  function Start(c: Config): System {
    System(Opened(c), None, false, {}, {}, Tables([], map[]), map[], [])
  }

  function Step<D>(s: System, c: Config, lib: Library<D>, decode: Decoder, move: Move<D>): System {
    match move
    case Record(timestamp, data) =>
      var (pool, r) := Recorded(s.pool, c, lib, timestamp, data);
      if r.Accepted? then
        s.(pool := pool, log := s.log + [lib.render(Identity(c.producer, c.generation, r.sequence), timestamp, data)])
      else s.(pool := pool)
    case Take =>
      if s.worker.Some? || s.stopped then s
      else if s.pool.closed then s.(stopped := true)
      else if s.pool.ready == [] then s
      else
        var (pool, buffer) := Taken(s.pool);
        if buffer.credit.len > |buffer.bytes| then s
        else s.(pool := pool, worker := Some(buffer), sent := s.sent + {buffer.Payload()})
    case Deliver(request, refuse) =>
      if request !in s.sent then s else Served(s, decode, request, None, refuse)
    case Foreign(bytes, cp, refuse) =>
      if decode(bytes).Some? && Own(c, decode(bytes).value) then s else Served(s, decode, bytes, cp, refuse)
    case Settle(outcome) =>
      if s.worker == None || (outcome.Some? && outcome.value !in s.replies) then s
      else s.(pool := Settled(s.pool, c, s.worker.value, outcome), worker := None)
    case Close => s.(pool := s.pool.(closed := true))
    case FlushStart(id) =>
      if id in s.flushes then s else s.(flushes := s.flushes[id := Checking(s.pool.accepted)])
    case FlushCheck(id, expired) =>
      if id !in s.flushes || !s.flushes[id].Checking? then s
      else
        var target := s.flushes[id].target;
        s.(flushes := s.flushes[id :=
          if Covered(s.pool.confirmed, target) then Flushed(target, s.pool.lastReceipt)
          else if expired then Failed(target) else Waiting(target)])
    case FlushWake(id, timedOut) =>
      if id !in s.flushes || !s.flushes[id].Waiting? then s
      else
        var target := s.flushes[id].target;
        s.(flushes := s.flushes[id :=
          if timedOut && s.pool.confirmed < target then Failed(target)
          else if s.pool.closed then Failed(target) else Checking(target)])
  }

  function Served(s: System, decode: Decoder, bytes: seq<byte>, cp: Option<Checkpoint>, refuse: bool): System {
    var (tables, r) := Submitted(s.tables, decode, bytes, cp, refuse);
    s.(tables := tables, replies := if r.Ok? then s.replies + {r.value} else s.replies)
  }

  function Exec<D>(s: System, c: Config, lib: Library<D>, decode: Decoder, moves: seq<Move<D>>): System
    decreases |moves|
  {
    if moves == [] then s else Exec(Step(s, c, lib, decode, moves[0]), c, lib, decode, moves[1..])
  }

  /** An encoded envelope that decodes at all decodes to the identity it was given. */
  ghost predicate Faithful<D(!new)>(lib: Library<D>, decode: Decoder) {
    forall i: Identity, t: nat, d: D :: decode(lib.render(i, t, d)).Some? ==> decode(lib.render(i, t, d)) == Some(i)
  }

  // ---------------------------------------------------------------- the client's rows

  /** The rows filed under this client's producer and generation, in the order they were committed. */
  function Mine(rows: seq<Row>, c: Config): seq<Row> {
    if rows == [] then []
    else
      var last := rows[|rows| - 1];
      Mine(rows[..|rows| - 1], c) + (if Own(c, last.identity) then [last] else [])
  }

  lemma {:induction false} MineHolds(rows: seq<Row>, c: Config)
    ensures forall k :: 0 <= k < |Mine(rows, c)| ==> Mine(rows, c)[k] in rows
    ensures forall r :: r in rows && Own(c, r.identity) ==> r in Mine(rows, c)
  {
    if rows != [] {
      var init := rows[..|rows| - 1];
      MineHolds(init, c);
      assert rows == init + [rows[|rows| - 1]];
    }
  }

  lemma MineSnoc(rows: seq<Row>, row: Row, c: Config)
    ensures Mine(rows + [row], c) == Mine(rows, c) + (if Own(c, row.identity) then [row] else [])
  {
    assert (rows + [row])[..|rows|] == rows;
  }

  // ---------------------------------------------------------------- invariant

  /** Sequence q + 1 of this client, with the text fixed when it was admitted. */
  function Admitted(s: System, c: Config, q: nat): Row
    requires q < |s.log|
  {
    Row(Identity(c.producer, c.generation, q + 1), s.log[q])
  }

  ghost predicate LogOk(s: System, c: Config, decode: Decoder) {
    && |s.log| == s.pool.accepted
    && (forall q :: 0 <= q < |s.log| && decode(s.log[q]).Some? ==> decode(s.log[q]) == Some(Admitted(s, c, q).identity))
    && (forall k :: 0 <= k < |s.pool.ready| ==>
          var b := s.pool.ready[k];
          b.credit.len <= |b.bytes| && 0 < b.sequence <= |s.log| && b.Payload() == s.log[b.sequence - 1])
  }

  ghost predicate WorkerOk(s: System, c: Config) {
    && (s.worker == None <==> s.pool.inflight == None)
    && (s.worker.Some? ==>
          var b := s.worker.value;
          Carried(s.pool, c, b) && s.pool.confirmed < |s.log| && b.Payload() == s.log[s.pool.confirmed])
  }

  /** Nothing past the record after the frontier has ever been sent. */
  ghost predicate SentOk(s: System) {
    forall bytes :: bytes in s.sent ==> exists q :: 0 <= q < |s.log| && q <= s.pool.confirmed && bytes == s.log[q]
  }

  /** The store has exactly the first c sequences, and c is the frontier or one past it. */
  ghost predicate StoredOk(s: System, c: Config) {
    var mine := Mine(s.tables.rows, c);
    && s.pool.confirmed <= |mine| <= s.pool.confirmed + 1
    && |mine| <= |s.log|
    && forall q :: 0 <= q < |mine| ==> mine[q] == Admitted(s, c, q)
  }

  ghost predicate RepliesOk(s: System) {
    forall r :: r in s.replies ==> 0 < r.id <= |s.tables.rows| && s.tables.rows[r.id - 1].identity == r.identity
  }

  ghost predicate FlushesOk(s: System) {
    forall f :: f in s.flushes && s.flushes[f].Flushed? ==> s.flushes[f].target <= s.pool.confirmed
  }

  ghost predicate Inv(s: System, c: Config, decode: Decoder) {
    && PoolOk(s.pool, c) && LogOk(s, c, decode) && WorkerOk(s, c) && SentOk(s)
    && TablesOk(s.tables, decode) && StoredOk(s, c) && RepliesOk(s) && FlushesOk(s)
  }

  lemma StartInv(c: Config, decode: Decoder)
    ensures Inv(Start(c), c, decode)
  {
    OpenedOk(c);
  }

  lemma RecordKeeps<D(!new)>(s: System, c: Config, lib: Library<D>, decode: Decoder, move: Move<D>)
    requires Inv(s, c, decode) && Faithful(lib, decode) && move.Record?
    ensures Inv(Step(s, c, lib, decode, move), c, decode)
  {
    hide PoolOk, TablesOk, Mine;
    RecordedOk(s.pool, c, lib, move.timestamp, move.data);
    var t := Step(s, c, lib, decode, move);
    RecordedPayload(s.pool, c, lib, move.timestamp, move.data);
    assert s.log <= t.log;
    assert forall q :: 0 <= q < |s.log| ==> t.log[q] == s.log[q];
  }

  lemma RecordedPayload<D>(p: Pool, c: Config, lib: Library<D>, timestamp: nat, data: D)
    requires PoolOk(p, c)
    ensures var (q, r) := Recorded(p, c, lib, timestamp, data);
            && q.confirmed == p.confirmed && q.inflight == p.inflight && q.closed == p.closed && q.lastReceipt == p.lastReceipt
            && (!r.Accepted? ==> q.ready == p.ready && q.accepted == p.accepted)
            && (r.Accepted? ==>
                  && r.sequence == q.accepted == p.accepted + 1
                  && |q.ready| == |p.ready| + 1 && q.ready[..|p.ready|] == p.ready
                  && var b := q.ready[|p.ready|];
                     b.sequence == r.sequence && b.credit.len <= |b.bytes|
                     && b.Payload() == lib.render(Identity(c.producer, c.generation, r.sequence), timestamp, data))
  {
    hide Ids, AllIds;
  }

  lemma TakeKeeps<D(!new)>(s: System, c: Config, lib: Library<D>, decode: Decoder)
    requires Inv(s, c, decode)
    ensures Inv(Step(s, c, lib, decode, Take), c, decode)
  {
    hide PoolOk, TablesOk, Mine, Taken;
    if s.worker == None && !s.stopped && !s.pool.closed && s.pool.ready != [] {
      TakenOk(s.pool, c);
      TakenFront(s.pool, c);
      assert forall k :: 0 < k < |s.pool.ready| ==> s.pool.ready[1..][k - 1] == s.pool.ready[k];
    }
  }

  lemma TakenFront(p: Pool, c: Config)
    requires PoolOk(p, c) && p.ready != [] && p.inflight == None
    ensures var (q, b) := Taken(p);
      && q == p.(ready := p.ready[1..], inflight := q.inflight) && q.inflight.Some?
      && b.bytes == p.ready[0].bytes && b.sequence == p.ready[0].sequence && b.credit.len == p.ready[0].credit.len
      && b.sequence == p.confirmed + 1 && Carried(q, c, b)
  {
    hide Ids, AllIds;
  }

  lemma ServedKeeps(s: System, c: Config, decode: Decoder, bytes: seq<byte>, cp: Option<Checkpoint>, refuse: bool)
    requires Inv(s, c, decode)
    requires decode(bytes).Some? && Own(c, decode(bytes).value) ==> bytes in s.sent
    ensures Inv(Served(s, decode, bytes, cp, refuse), c, decode)
  {
    hide PoolOk, Mine, TablesOk;
    var t := Served(s, decode, bytes, cp, refuse);
    SubmitAppends(s.tables, decode, bytes, cp, refuse);
    assert RepliesOk(t);
    if t.tables.rows != s.tables.rows {
      var row := Row(decode(bytes).value, bytes);
      assert t.tables.rows == s.tables.rows + [row];
      MineSnoc(s.tables.rows, row, c);
      if Own(c, row.identity) {
        NextStored(s, c, decode, bytes);
      }
    }
  }

  /** A fresh row of our own can only be the next sequence. */
  lemma NextStored(s: System, c: Config, decode: Decoder, bytes: seq<byte>)
    requires LogOk(s, c, decode) && SentOk(s) && StoredOk(s, c) && bytes in s.sent && decode(bytes).Some?
    requires Find(s.tables.rows, decode(bytes).value) == None
    ensures var q := |Mine(s.tables.rows, c)|;
            q <= s.pool.confirmed && q < |s.log| && Row(decode(bytes).value, bytes) == Admitted(s, c, q)
  {
    hide Mine, Find;
    var mine := Mine(s.tables.rows, c);
    var q :| 0 <= q < |s.log| && q <= s.pool.confirmed && bytes == s.log[q];
    MineHolds(s.tables.rows, c);
    forall k {:trigger mine[k]} | 0 <= k < |mine|
      ensures k != q
    {
      assert mine[k] in s.tables.rows;
    }
  }

  lemma SettleKeeps<D(!new)>(s: System, c: Config, lib: Library<D>, decode: Decoder, outcome: Option<Receipt>)
    requires Inv(s, c, decode)
    ensures Inv(Step(s, c, lib, decode, Settle(outcome)), c, decode)
  {
    hide Inv;
    var t := Step(s, c, lib, decode, Settle(outcome));
    if t != s {
      if Matches(s.pool, c, s.worker.value, outcome) {
        ConfirmKeeps(s, c, lib, decode, outcome);
      } else {
        RetryKeeps(s, c, lib, decode, outcome);
      }
    }
  }

  lemma ConfirmKeeps<D(!new)>(s: System, c: Config, lib: Library<D>, decode: Decoder, outcome: Option<Receipt>)
    requires Inv(s, c, decode) && s.worker.Some? && outcome.Some? && outcome.value in s.replies
    requires Matches(s.pool, c, s.worker.value, outcome)
    ensures Inv(Step(s, c, lib, decode, Settle(outcome)), c, decode)
  {
    hide Ids, AllIds, Mine, TablesOk, PoolOk;
    SettledOk(s.pool, c, s.worker.value, outcome);
    ReceiptStored(s, c, decode, outcome.value);
  }

  lemma RetryKeeps<D(!new)>(s: System, c: Config, lib: Library<D>, decode: Decoder, outcome: Option<Receipt>)
    requires Inv(s, c, decode) && s.worker.Some? && (outcome.Some? ==> outcome.value in s.replies)
    requires !Matches(s.pool, c, s.worker.value, outcome)
    ensures Inv(Step(s, c, lib, decode, Settle(outcome)), c, decode)
  {
    hide Ids, AllIds, Mine, TablesOk, PoolOk;
    var t := Step(s, c, lib, decode, Settle(outcome));
    SettledOk(s.pool, c, s.worker.value, outcome);
    assert t.pool.ready[1..] == s.pool.ready;
    assert forall k :: 0 < k < |t.pool.ready| ==> t.pool.ready[k] == s.pool.ready[k - 1];
  }

  /** A receipt names a row that is there. */
  lemma ReceiptStored(s: System, c: Config, decode: Decoder, r: Receipt)
    requires RepliesOk(s) && StoredOk(s, c) && r in s.replies && Own(c, r.identity)
    ensures 0 < r.identity.sequence <= |Mine(s.tables.rows, c)|
  {
    hide Mine;
    MineHolds(s.tables.rows, c);
    var row := s.tables.rows[r.id - 1];
    assert row in Mine(s.tables.rows, c);
  }

  lemma StepKeeps<D(!new)>(s: System, c: Config, lib: Library<D>, decode: Decoder, move: Move<D>)
    requires Inv(s, c, decode) && Faithful(lib, decode)
    ensures Inv(Step(s, c, lib, decode, move), c, decode)
  {
    hide Ids, AllIds, Mine, TablesOk, Recorded, Submitted, Settled, Taken;
    match move
    case Record(_, _) => RecordKeeps(s, c, lib, decode, move);
    case Take => TakeKeeps(s, c, lib, decode);
    case Deliver(request, refuse) => if request in s.sent { ServedKeeps(s, c, decode, request, None, refuse); }
    case Foreign(bytes, cp, refuse) =>
      if !(decode(bytes).Some? && Own(c, decode(bytes).value)) { ServedKeeps(s, c, decode, bytes, cp, refuse); }
    case Settle(outcome) => SettleKeeps(s, c, lib, decode, outcome);
    case Close =>
    case FlushStart(_) =>
    case FlushCheck(_, _) =>
    case FlushWake(_, _) =>
  }

  lemma {:induction false} ExecKeeps<D(!new)>(s: System, c: Config, lib: Library<D>, decode: Decoder, moves: seq<Move<D>>)
    requires Inv(s, c, decode) && Faithful(lib, decode)
    ensures Inv(Exec(s, c, lib, decode, moves), c, decode)
    decreases |moves|
  {
    hide Inv, Step;
    if moves != [] {
      StepKeeps(s, c, lib, decode, moves[0]);
      ExecKeeps(Step(s, c, lib, decode, moves[0]), c, lib, decode, moves[1..]);
    }
  }

  // ---------------------------------------------------------------- what a run guarantees

  function Run<D>(c: Config, lib: Library<D>, decode: Decoder, moves: seq<Move<D>>): System {
    Exec(Start(c), c, lib, decode, moves)
  }

  lemma RunInv<D(!new)>(c: Config, lib: Library<D>, decode: Decoder, moves: seq<Move<D>>)
    requires Faithful(lib, decode)
    ensures Inv(Run(c, lib, decode, moves), c, decode)
  {
    hide Inv;
    StartInv(c, decode);
    ExecKeeps(Start(c), c, lib, decode, moves);
  }

  /**
  Whatever is lost, repeated, delayed or refused: the store holds exactly the sequences 1..n of this client, once
  each, with the text fixed at admission, and n is the confirmed frontier or one past it; and no request of this
  client that is or ever was on the network can be answered with an identity conflict.
  */
  lemma EndToEnd<D(!new)>(c: Config, lib: Library<D>, decode: Decoder, moves: seq<Move<D>>)
    requires Faithful(lib, decode)
    ensures var s := Run(c, lib, decode, moves);
            var mine := Mine(s.tables.rows, c);
            && |s.log| == s.pool.accepted
            && s.pool.confirmed <= |mine| <= Min(s.pool.confirmed + 1, s.pool.accepted)
            && (forall q :: 0 <= q < |mine| ==> mine[q] == Row(Identity(c.producer, c.generation, q + 1), s.log[q]))
            && (forall bytes, cp, refuse :: bytes in s.sent ==>
                  Submitted(s.tables, decode, bytes, cp, refuse).1 != Err(Conflict))
  {
    hide PoolOk, TablesOk, Mine;
    RunInv(c, lib, decode, moves);
    var s := Run(c, lib, decode, moves);
    forall bytes, cp, refuse | bytes in s.sent
      ensures Submitted(s.tables, decode, bytes, cp, refuse).1 != Err(Conflict)
    {
      if decode(bytes).Some? {
        NeverConflicts(s, c, decode, bytes);
      }
    }
  }

  lemma NeverConflicts(s: System, c: Config, decode: Decoder, bytes: seq<byte>)
    requires LogOk(s, c, decode) && SentOk(s) && StoredOk(s, c) && bytes in s.sent && decode(bytes).Some?
    ensures var k := Find(s.tables.rows, decode(bytes).value);
            k.Some? ==> s.tables.rows[k.value].payload == bytes
  {
    hide Mine;
    MineHolds(s.tables.rows, c);
    var q :| 0 <= q < |s.log| && q <= s.pool.confirmed && bytes == s.log[q];
    var k := Find(s.tables.rows, decode(bytes).value);
    if k.Some? {
      assert s.tables.rows[k.value] in Mine(s.tables.rows, c);
    }
  }

  /** At every moment each buffer is in one place and the window accounts for every accepted record. */
  lemma PoolConserved<D(!new)>(c: Config, lib: Library<D>, decode: Decoder, moves: seq<Move<D>>)
    requires Faithful(lib, decode)
    ensures var p := Run(c, lib, decode, moves).pool;
            && Ids(p.free) + Ids(p.ready) + Flight(p.inflight) == AllIds(c.slots)
            && p.accepted - p.confirmed == |p.ready| + |Flight(p.inflight)| <= c.slots
            && (p.free == [] <==> p.accepted - p.confirmed == c.slots)
            && (forall k :: 0 <= k < |p.ready| ==> p.ready[k].sequence == p.confirmed + 1 + |Flight(p.inflight)| + k)
  {
    hide Ids, AllIds;
    RunInv(c, lib, decode, moves);
    FreeIsTheRest(Run(c, lib, decode, moves).pool, c);
  }

  lemma StepGrows<D>(s: System, c: Config, lib: Library<D>, decode: Decoder, move: Move<D>)
    ensures var t := Step(s, c, lib, decode, move);
            && s.tables.rows <= t.tables.rows && s.log <= t.log
            && (forall f :: f in s.flushes ==> f in t.flushes && t.flushes[f].target == s.flushes[f].target)
  {
    hide Recorded, Settled, Taken;
  }

  lemma {:induction false} ExecGrows<D>(s: System, c: Config, lib: Library<D>, decode: Decoder, moves: seq<Move<D>>)
    ensures var t := Exec(s, c, lib, decode, moves);
            && s.tables.rows <= t.tables.rows && s.log <= t.log
            && (forall f :: f in s.flushes ==> f in t.flushes && t.flushes[f].target == s.flushes[f].target)
    decreases |moves|
  {
    hide Step;
    if moves != [] {
      StepGrows(s, c, lib, decode, moves[0]);
      ExecGrows(Step(s, c, lib, decode, moves[0]), c, lib, decode, moves[1..]);
    }
  }

  lemma {:induction false} ExecJoin<D>(s: System, c: Config, lib: Library<D>, decode: Decoder, m1: seq<Move<D>>, m2: seq<Move<D>>)
    ensures Exec(s, c, lib, decode, m1 + m2) == Exec(Exec(s, c, lib, decode, m1), c, lib, decode, m2)
    decreases |m1|
  {
    hide Step;
    if m1 == [] {
      assert m1 + m2 == m2;
    } else {
      assert (m1 + m2)[1..] == m1[1..] + m2;
      ExecJoin(Step(s, c, lib, decode, m1[0]), c, lib, decode, m1[1..], m2);
    }
  }

  /**
  A flush that returns Ok: every record accepted before the flush was called is in the store, under its own
  sequence and with the text fixed when it was accepted, however many more were admitted meanwhile.
  */
  lemma FlushIsDurable<D(!new)>(c: Config, lib: Library<D>, decode: Decoder, before: seq<Move<D>>, id: nat, after: seq<Move<D>>)
    requires Faithful(lib, decode) && id !in Run(c, lib, decode, before).flushes
    ensures var s, t := Run(c, lib, decode, before), Run(c, lib, decode, before + [FlushStart(id)] + after);
            id in t.flushes && (t.flushes[id].Flushed? ==>
              && |s.log| == s.pool.accepted <= |Mine(t.tables.rows, c)|
              && forall q :: 0 <= q < s.pool.accepted ==>
                   Mine(t.tables.rows, c)[q] == Row(Identity(c.producer, c.generation, q + 1), s.log[q]))
  {
    hide PoolOk, TablesOk, Mine;
    var s := Run(c, lib, decode, before);
    var start: seq<Move<D>> := [FlushStart(id)];
    ExecJoin(Start(c), c, lib, decode, before, start);
    ExecJoin(Start(c), c, lib, decode, before + start, after);
    var u := Step(s, c, lib, decode, FlushStart(id));
    assert start[1..] == [];
    assert Exec(s, c, lib, decode, start) == u;
    ExecGrows(u, c, lib, decode, after);
    RunInv(c, lib, decode, before);
    RunInv(c, lib, decode, before + start + after);
  }

  /**
  What the client checks before it admits is what the server checks when it decodes: the nesting of the text, the
  data, and, when the client was made, the rest of the envelope.
  */
  ghost predicate Receives<D(!new)>(c: Config, lib: Library<D>, decode: Decoder) {
    forall q: nat, t: nat, d: D :: var text := lib.render(Identity(c.producer, c.generation, q), t, d);
      0 < q <= U64_MAX && lib.valid(d) && lib.shallow(text) && |text| <= c.maxRecord ==> decode(text).Some?
  }

  /** So everything ever admitted decodes at the server. */
  lemma {:induction false} LogDecodes<D(!new)>(c: Config, lib: Library<D>, decode: Decoder, moves: seq<Move<D>>)
    requires Faithful(lib, decode) && Receives(c, lib, decode)
    ensures forall q :: 0 <= q < |Run(c, lib, decode, moves).log| ==> decode(Run(c, lib, decode, moves).log[q]).Some?
    decreases |moves|
  {
    if moves != [] {
      var init, last := moves[..|moves| - 1], moves[|moves| - 1];
      assert moves == init + [last];
      LogDecodes(c, lib, decode, init);
      RunInv(c, lib, decode, init);
      ExecJoin(Start(c), c, lib, decode, init, [last]);
      var s := Run(c, lib, decode, init);
      assert [last][1..] == [];
      assert Exec(s, c, lib, decode, [last]) == Step(s, c, lib, decode, last);
      hide Exec, Run;
      LogStep(s, c, lib, decode, last);
    }
  }

  lemma LogStep<D(!new)>(s: System, c: Config, lib: Library<D>, decode: Decoder, move: Move<D>)
    requires Receives(c, lib, decode) && PoolOk(s.pool, c) && forall q :: 0 <= q < |s.log| ==> decode(s.log[q]).Some?
    ensures var t := Step(s, c, lib, decode, move); forall q :: 0 <= q < |t.log| ==> decode(t.log[q]).Some?
  {
    hide Taken, Settled, Submitted;
    if move.Record? {
      RecordedText(s.pool, c, lib, move.timestamp, move.data);
    }
    hide Recorded;
  }

  /** An accepted record was valid, shallow, and fitted its buffer. */
  lemma RecordedText<D>(p: Pool, c: Config, lib: Library<D>, timestamp: nat, data: D)
    requires PoolOk(p, c)
    ensures var r := Recorded(p, c, lib, timestamp, data).1;
      r.Accepted? ==>
        var text := lib.render(Identity(c.producer, c.generation, r.sequence), timestamp, data);
        0 < r.sequence <= U64_MAX && lib.valid(data) && lib.shallow(text) && |text| <= c.maxRecord
  {
    hide Ids, AllIds;
  }

  /** The receipt the server gives for the request in flight, if it takes it. */
  function Answer(s: System, decode: Decoder): Option<Receipt>
    requires s.worker.Some? && s.worker.value.credit.len <= |s.worker.value.bytes|
  {
    var (_, reply) := Submitted(s.tables, decode, s.worker.value.Payload(), None, false);
    if reply.Ok? then Some(reply.value) else None
  }

  /** A state of a run in which everything admitted decodes at the server. */
  ghost predicate Running(s: System, c: Config, decode: Decoder) {
    && Inv(s, c, decode) && (s.stopped ==> s.pool.closed)
    && (s.worker.Some? ==> s.worker.value.credit.len <= |s.worker.value.bytes| && s.worker.value.Payload() in s.sent)
    && forall q :: 0 <= q < |s.log| ==> decode(s.log[q]).Some?
  }

  lemma RunRuns<D(!new)>(c: Config, lib: Library<D>, decode: Decoder, moves: seq<Move<D>>)
    requires Faithful(lib, decode) && Receives(c, lib, decode)
    ensures Running(Run(c, lib, decode, moves), c, decode)
  {
    hide Inv, Receives, Run;
    RunInv(c, lib, decode, moves);
    WorkerSends(c, lib, decode, moves);
    LogDecodes(c, lib, decode, moves);
    RunFlags(c, lib, decode, moves);
  }

  /** Only a closed client stops, and no flush waits for what has not been accepted. */
  lemma {:induction false} RunFlags<D(!new)>(c: Config, lib: Library<D>, decode: Decoder, moves: seq<Move<D>>)
    ensures var s := Run(c, lib, decode, moves);
      (s.stopped ==> s.pool.closed) && forall f :: f in s.flushes ==> s.flushes[f].target <= s.pool.accepted
    decreases |moves|
  {
    if moves != [] {
      var init, last := moves[..|moves| - 1], moves[|moves| - 1];
      assert moves == init + [last];
      RunFlags(c, lib, decode, init);
      ExecJoin(Start(c), c, lib, decode, init, [last]);
      ExecOne(Run(c, lib, decode, init), c, lib, decode, last);
      hide Exec, Step;
      StepFlags(Run(c, lib, decode, init), c, lib, decode, last);
    }
  }

  lemma StepFlags<D>(s: System, c: Config, lib: Library<D>, decode: Decoder, move: Move<D>)
    requires (s.stopped ==> s.pool.closed) && forall f :: f in s.flushes ==> s.flushes[f].target <= s.pool.accepted
    ensures var t := Step(s, c, lib, decode, move);
      (t.stopped ==> t.pool.closed) && forall f :: f in t.flushes ==> t.flushes[f].target <= t.pool.accepted
  {
    hide Submitted, Recorded, Taken, Settled;
    PoolSteps(s.pool, c, lib, move);
  }

  lemma PoolSteps<D>(p: Pool, c: Config, lib: Library<D>, move: Move<D>)
    ensures p.ready != [] ==> Taken(p).0.accepted == p.accepted && Taken(p).0.closed == p.closed
    ensures forall b, outcome :: Settled(p, c, b, outcome).accepted == p.accepted && Settled(p, c, b, outcome).closed == p.closed
    ensures move.Record? ==>
      var q := Recorded(p, c, lib, move.timestamp, move.data).0; q.accepted >= p.accepted && q.closed == p.closed
  {
  }

  /** The server takes the request in flight, and its own receipt is the one the client is waiting for. */
  lemma AnswerMatches(s: System, c: Config, decode: Decoder)
    requires Running(s, c, decode) && s.worker.Some?
    ensures var answer := Answer(s, decode);
      && answer.Some? && Matches(s.pool, c, s.worker.value, answer)
      && Settled(s.pool, c, s.worker.value, answer).confirmed == s.pool.confirmed + 1
      && answer.value in Served(s, decode, s.worker.value.Payload(), None, false).replies
  {
    hide PoolOk, TablesOk, Mine;
    var bytes := s.worker.value.Payload();
    assert decode(bytes) == Some(Admitted(s, c, s.pool.confirmed).identity);
    NeverConflicts(s, c, decode, bytes);
    AnswerIdentity(s.tables, decode, bytes);
    MatchingReceiptAdvances(s.pool, c, s.worker.value, Answer(s, decode).value);
  }

  lemma AnswerIdentity(t: Tables, decode: Decoder, bytes: seq<byte>)
    requires TablesOk(t, decode) && decode(bytes).Some?
    requires var k := Find(t.rows, decode(bytes).value); k.Some? ==> t.rows[k.value].payload == bytes
    ensures var r := Submitted(t, decode, bytes, None, false).1; r.Ok? && r.value.identity == decode(bytes).value
  {
  }

  /**
  An exchange that goes through confirms: if the server takes the request in flight and its answer comes back, the
  frontier advances, whether the record was new or a retry of one already stored.
  */
  lemma ExchangeConfirms<D(!new)>(c: Config, lib: Library<D>, decode: Decoder, moves: seq<Move<D>>)
    requires Faithful(lib, decode) && Receives(c, lib, decode)
    ensures var s := Run(c, lib, decode, moves);
            s.worker.Some? ==>
              && s.worker.value.credit.len <= |s.worker.value.bytes|
              && var u := Step(s, c, lib, decode, Deliver(s.worker.value.Payload(), false));
                 && Answer(s, decode).Some? && Answer(s, decode).value in u.replies
                 && Step(u, c, lib, decode, Settle(Answer(s, decode))).pool.confirmed == s.pool.confirmed + 1
  {
    hide Receives, Inv, Run, Answer, Settled, Submitted;
    RunRuns(c, lib, decode, moves);
    var s := Run(c, lib, decode, moves);
    if s.worker.Some? {
      AnswerMatches(s, c, decode);
    }
  }

  predicate Ended(f: Flush) {
    f.Flushed? || f.Failed?
  }

  /** A flush that has returned is not touched again. */
  lemma {:induction false} ExecEnds<D>(s: System, c: Config, lib: Library<D>, decode: Decoder, moves: seq<Move<D>>, id: nat)
    requires id in s.flushes && Ended(s.flushes[id])
    ensures var t := Exec(s, c, lib, decode, moves); id in t.flushes && t.flushes[id] == s.flushes[id]
    decreases |moves|
  {
    if moves != [] {
      StepEnds(s, c, lib, decode, moves[0], id);
      hide Step;
      ExecEnds(Step(s, c, lib, decode, moves[0]), c, lib, decode, moves[1..], id);
    }
  }

  lemma StepEnds<D>(s: System, c: Config, lib: Library<D>, decode: Decoder, move: Move<D>, id: nat)
    requires id in s.flushes && Ended(s.flushes[id])
    ensures var t := Step(s, c, lib, decode, move); id in t.flushes && t.flushes[id] == s.flushes[id]
  {
    hide Recorded, Taken, Settled, Submitted;
  }

  // ---------------------------------------------------------------- a closed client

  lemma ClosedStep<D>(s: System, c: Config, lib: Library<D>, decode: Decoder, move: Move<D>)
    requires s.pool.closed
    ensures var t := Step(s, c, lib, decode, move);
      && t.pool.closed && t.log == s.log && t.pool.accepted == s.pool.accepted
      && t.sent == s.sent && (s.worker == None ==> t.worker == None && t.pool.confirmed == s.pool.confirmed)
  {
    hide Submitted;
  }

  lemma {:induction false} ClosedExec<D>(s: System, c: Config, lib: Library<D>, decode: Decoder, moves: seq<Move<D>>)
    requires s.pool.closed
    ensures var t := Exec(s, c, lib, decode, moves);
      && t.pool.closed && t.log == s.log && t.pool.accepted == s.pool.accepted
      && t.sent == s.sent && (s.worker == None ==> t.worker == None && t.pool.confirmed == s.pool.confirmed)
    decreases |moves|
  {
    hide Step;
    if moves != [] {
      ClosedStep(s, c, lib, decode, moves[0]);
      ClosedExec(Step(s, c, lib, decode, moves[0]), c, lib, decode, moves[1..]);
    }
  }

  /**
  Once closed, whatever happens: nothing is admitted and nothing new is sent; and with nothing in flight the frontier
  stands for good.
  */
  lemma ClosedIsFinal<D(!new)>(c: Config, lib: Library<D>, decode: Decoder, before: seq<Move<D>>, after: seq<Move<D>>)
    ensures var s, t := Run(c, lib, decode, before), Run(c, lib, decode, before + [Close] + after);
      && t.pool.closed && t.log == s.log && t.pool.accepted == s.pool.accepted && t.sent == s.sent
      && (s.worker == None ==> t.pool.confirmed == s.pool.confirmed)
  {
    var s := Run(c, lib, decode, before);
    ExecJoin(Start(c), c, lib, decode, before, [Close]);
    ExecJoin(Start(c), c, lib, decode, before + [Close], after);
    ExecOne(s, c, lib, decode, Close);
    ClosedExec(Step(s, c, lib, decode, Close), c, lib, decode, after);
  }

  // ---------------------------------------------------------------- how a flush ends

  /** A receipt of this client's for sequence n or a later one. */
  predicate Covers(s: System, c: Config, receipt: Option<Receipt>, n: nat) {
    && receipt.Some? && receipt.value in s.replies
    && Own(c, receipt.value.identity) && n <= receipt.value.identity.sequence <= s.pool.confirmed
  }

  ghost predicate ReceiptsOk(s: System, c: Config) {
    && (s.pool.confirmed > 0 ==> Covers(s, c, s.pool.lastReceipt, s.pool.confirmed))
    && forall f :: f in s.flushes && s.flushes[f].Flushed? && s.flushes[f].target > 0 ==>
         Covers(s, c, s.flushes[f].receipt, s.flushes[f].target)
  }

  lemma SettleReceipts<D(!new)>(s: System, c: Config, lib: Library<D>, decode: Decoder, outcome: Option<Receipt>)
    requires Inv(s, c, decode) && ReceiptsOk(s, c)
    ensures ReceiptsOk(Step(s, c, lib, decode, Settle(outcome)), c)
  {
    hide PoolOk, TablesOk, Mine, LogOk, SentOk, StoredOk;
  }

  lemma QuietReceipts<D>(s: System, c: Config, lib: Library<D>, decode: Decoder, move: Move<D>)
    requires ReceiptsOk(s, c) && !move.Settle? && !move.Record?
    ensures ReceiptsOk(Step(s, c, lib, decode, move), c)
  {
    hide Submitted;
  }

  lemma RecordReceipts<D(!new)>(s: System, c: Config, lib: Library<D>, decode: Decoder, move: Move<D>)
    requires Inv(s, c, decode) && ReceiptsOk(s, c) && move.Record?
    ensures ReceiptsOk(Step(s, c, lib, decode, move), c)
  {
    RecordedPayload(s.pool, c, lib, move.timestamp, move.data);
    hide Recorded, Inv;
  }

  lemma {:induction false} RunReceipts<D(!new)>(c: Config, lib: Library<D>, decode: Decoder, moves: seq<Move<D>>)
    requires Faithful(lib, decode)
    ensures ReceiptsOk(Run(c, lib, decode, moves), c)
    decreases |moves|
  {
    hide Inv, Step, Exec, Faithful, ReceiptsOk;
    if moves == [] {
      NoReceipts(c, lib, decode);
    } else {
      var init, last := moves[..|moves| - 1], moves[|moves| - 1];
      assert moves == init + [last];
      RunReceipts(c, lib, decode, init);
      RunInv(c, lib, decode, init);
      ExecJoin(Start(c), c, lib, decode, init, [last]);
      var s := Run(c, lib, decode, init);
      ExecOne(s, c, lib, decode, last);
      if last.Settle? {
        SettleReceipts(s, c, lib, decode, last.outcome);
      } else if last.Record? {
        RecordReceipts(s, c, lib, decode, last);
      } else {
        QuietReceipts(s, c, lib, decode, last);
      }
    }
  }

  lemma NoReceipts<D>(c: Config, lib: Library<D>, decode: Decoder)
    ensures ReceiptsOk(Run(c, lib, decode, []), c)
  {
  }

  /**
  A flush that returned Ok for a frontier above 0 came back with a receipt: the server's own, for a sequence of this client
  no earlier than that frontier, and the row it names is in the store with the text fixed at admission.
  */
  lemma FlushReceipt<D(!new)>(c: Config, lib: Library<D>, decode: Decoder, moves: seq<Move<D>>, id: nat)
    requires Faithful(lib, decode) && id in Run(c, lib, decode, moves).flushes
    requires Run(c, lib, decode, moves).flushes[id].Flushed? && Run(c, lib, decode, moves).flushes[id].target > 0
    ensures var s := Run(c, lib, decode, moves);
      && s.flushes[id].receipt.Some?
      && var r := s.flushes[id].receipt.value;
         && r in s.replies && s.flushes[id].target <= r.identity.sequence <= |s.log| && 0 < r.id <= |s.tables.rows|
         && s.tables.rows[r.id - 1] == Row(Identity(c.producer, c.generation, r.identity.sequence), s.log[r.identity.sequence - 1])
  {
    hide PoolOk, TablesOk, Mine, SentOk, LogOk;
    RunReceipts(c, lib, decode, moves);
    RunInv(c, lib, decode, moves);
    FrontierBounds(Run(c, lib, decode, moves), c, decode);
    var s := Run(c, lib, decode, moves);
    var r := s.flushes[id].receipt.value;
    MineHolds(s.tables.rows, c);
    var mine, row := Mine(s.tables.rows, c), s.tables.rows[r.id - 1];
    assert row in mine;
    var q :| 0 <= q < |mine| && mine[q] == row;
    assert row == Admitted(s, c, q);
    assert |s.log| == s.pool.accepted by { LogLength(s, c, decode); }
  }

  lemma LogLength(s: System, c: Config, decode: Decoder)
    requires Inv(s, c, decode)
    ensures |s.log| == s.pool.accepted
  {
    hide PoolOk, TablesOk, Mine;
  }

  /**
  How a flush ends: at a look at the frontier, Ok exactly if it has been reached, and otherwise in failure exactly if time
  is up; at a wake-up, in failure exactly if time ran out before the frontier was reached or the client was closed.
  */
  lemma FlushEnds<D>(s: System, c: Config, lib: Library<D>, decode: Decoder, id: nat, late: bool)
    requires id in s.flushes
    ensures var flush, t := s.flushes[id], Step(s, c, lib, decode, FlushCheck(id, late));
      id in t.flushes && (flush.Checking? ==>
        && (t.flushes[id] == Flushed(flush.target, s.pool.lastReceipt) <==> flush.target <= s.pool.confirmed)
        && (t.flushes[id] == Failed(flush.target) <==> flush.target > s.pool.confirmed && late)
        && (t.flushes[id] == Waiting(flush.target) <==> flush.target > s.pool.confirmed && !late))
    ensures var flush, t := s.flushes[id], Step(s, c, lib, decode, FlushWake(id, late));
      id in t.flushes && (flush.Waiting? ==>
        && (t.flushes[id] == Failed(flush.target) <==> s.pool.closed || (late && flush.target > s.pool.confirmed))
        && (t.flushes[id] == Checking(flush.target) <==> !(s.pool.closed || (late && flush.target > s.pool.confirmed))))
  {
  }

  // ---------------------------------------------------------------- the window drains

  /** One undisturbed exchange: the worker takes a record unless it has one, the server serves it, the answer arrives. */
  function Exchange<D>(s: System, c: Config, lib: Library<D>, decode: Decoder): seq<Move<D>> {
    var u := Step(s, c, lib, decode, Take);
    if u.worker.Some? && u.worker.value.credit.len <= |u.worker.value.bytes| then
      [Take, Deliver(u.worker.value.Payload(), false), Settle(Answer(u, decode))]
    else [Take]
  }

  function Exchanges<D>(s: System, c: Config, lib: Library<D>, decode: Decoder, n: nat): seq<Move<D>>
    decreases n
  {
    if n == 0 then []
    else Exchange(s, c, lib, decode) + Exchanges(Exec(s, c, lib, decode, Exchange(s, c, lib, decode)), c, lib, decode, n - 1)
  }

  /** Nothing but the exchange itself has changed. */
  predicate SameClients(s: System, t: System) {
    t.log == s.log && t.flushes == s.flushes && t.pool.accepted == s.pool.accepted && t.pool.closed == s.pool.closed
  }

  /** An open client with something unconfirmed has something to carry. */
  lemma TakesFront<D(!new)>(s: System, c: Config, lib: Library<D>, decode: Decoder)
    requires Running(s, c, decode) && !s.pool.closed
    ensures var u := Step(s, c, lib, decode, Take);
      && Running(u, c, decode) && SameClients(s, u) && u.pool.confirmed == s.pool.confirmed
      && (u.worker.Some? <==> s.pool.confirmed < s.pool.accepted)
      && (u.worker == None ==> u == s)
  {
    TakeKeeps(s, c, lib, decode);
    hide Ids, AllIds, TablesOk, Mine, SentOk, RepliesOk, FlushesOk, StoredOk;
    assert s.worker.Some? ==> s.pool.confirmed < s.pool.accepted;
    var u := Step(s, c, lib, decode, Take);
    if s.worker == None && s.pool.ready != [] {
      TakenFront(s.pool, c);
    }
  }

  lemma Exec3<D>(s: System, c: Config, lib: Library<D>, decode: Decoder, m1: Move<D>, m2: Move<D>, m3: Move<D>)
    ensures Exec(s, c, lib, decode, [m1, m2, m3])
         == Step(Step(Step(s, c, lib, decode, m1), c, lib, decode, m2), c, lib, decode, m3)
  {
    hide Step;
    assert [m1, m2, m3][1..] == [m2, m3] && [m2, m3][1..] == [m3];
    ExecOne(Step(Step(s, c, lib, decode, m1), c, lib, decode, m2), c, lib, decode, m3);
  }

  /** Delivered and settled, the record in flight is confirmed. */
  lemma CarriedConfirms<D(!new)>(u: System, c: Config, lib: Library<D>, decode: Decoder)
    requires Running(u, c, decode) && Faithful(lib, decode) && u.worker.Some?
    ensures var v := Step(u, c, lib, decode, Deliver(u.worker.value.Payload(), false));
      var t := Step(v, c, lib, decode, Settle(Answer(u, decode)));
      Running(t, c, decode) && SameClients(u, t) && t.worker == None && t.pool.confirmed == u.pool.confirmed + 1
  {
    hide Inv, Submitted, Answer, Settled, Matches;
    AnswerMatches(u, c, decode);
    var v := Step(u, c, lib, decode, Deliver(u.worker.value.Payload(), false));
    StepKeeps(u, c, lib, decode, Deliver(u.worker.value.Payload(), false));
    StepKeeps(v, c, lib, decode, Settle(Answer(u, decode)));
    SettledRest(u.pool, c, u.worker.value, Answer(u, decode));
  }

  lemma SettledRest(p: Pool, c: Config, b: Buffer, outcome: Option<Receipt>)
    ensures var q := Settled(p, c, b, outcome); q.accepted == p.accepted && q.closed == p.closed
  {
  }

  lemma ExchangeAdvances<D(!new)>(s: System, c: Config, lib: Library<D>, decode: Decoder)
    requires Running(s, c, decode) && Faithful(lib, decode) && !s.pool.closed
    ensures var t := Exec(s, c, lib, decode, Exchange(s, c, lib, decode));
      && Running(t, c, decode) && SameClients(s, t)
      && t.pool.confirmed == Min(s.pool.confirmed + 1, s.pool.accepted)
  {
    hide Inv, Step, Answer, Exec;
    TakesFront(s, c, lib, decode);
    FrontierBounds(s, c, decode);
    var u := Step(s, c, lib, decode, Take);
    if u.worker.Some? {
      CarriedConfirms(u, c, lib, decode);
      Exec3(s, c, lib, decode, Take, Deliver(u.worker.value.Payload(), false), Settle(Answer(u, decode)));
    } else {
      ExecOne(s, c, lib, decode, Take);
    }
  }

  lemma ExecOne<D>(s: System, c: Config, lib: Library<D>, decode: Decoder, m: Move<D>)
    ensures Exec(s, c, lib, decode, [m]) == Step(s, c, lib, decode, m)
  {
    hide Step;
    assert [m][1..] == [];
  }

  lemma FrontierBounds(s: System, c: Config, decode: Decoder)
    requires Inv(s, c, decode)
    ensures s.pool.confirmed <= s.pool.accepted
  {
    hide Ids, AllIds;
  }

  lemma {:induction false} ExchangesAdvance<D(!new)>(s: System, c: Config, lib: Library<D>, decode: Decoder, n: nat)
    requires Running(s, c, decode) && Faithful(lib, decode) && !s.pool.closed
    ensures var t := Exec(s, c, lib, decode, Exchanges(s, c, lib, decode, n));
      && Running(t, c, decode) && SameClients(s, t)
      && t.pool.confirmed == Min(s.pool.confirmed + n, s.pool.accepted)
    decreases n
  {
    hide Running, Step, Exchange;
    FrontierBounds(s, c, decode) by {
      StillInv(s, c, decode);
    }
    if n > 0 {
      var first := Exchange(s, c, lib, decode);
      var u := Exec(s, c, lib, decode, first);
      ExchangeAdvances(s, c, lib, decode);
      ExchangesAdvance(u, c, lib, decode, n - 1);
      ExecJoin(s, c, lib, decode, first, Exchanges(u, c, lib, decode, n - 1));
    }
  }

  lemma StillInv(s: System, c: Config, decode: Decoder)
    requires Running(s, c, decode)
    ensures Inv(s, c, decode)
  {
  }

  /**
  After any run that has not closed the client, n undisturbed exchanges confirm n more records, or all that are left;
  and then every record accepted so far is in the store.
  */
  lemma WindowDrains<D(!new)>(c: Config, lib: Library<D>, decode: Decoder, moves: seq<Move<D>>, n: nat)
    requires Faithful(lib, decode) && Receives(c, lib, decode) && !Run(c, lib, decode, moves).pool.closed
    ensures var s := Run(c, lib, decode, moves);
      var t := Run(c, lib, decode, moves + Exchanges(s, c, lib, decode, n));
      && t.pool.accepted == s.pool.accepted && t.pool.confirmed == Min(s.pool.confirmed + n, s.pool.accepted)
      && (n >= s.pool.accepted - s.pool.confirmed ==>
            && t.pool.ready == [] && t.pool.inflight == None && |Mine(t.tables.rows, c)| == s.pool.accepted == |s.log|
            && forall q :: 0 <= q < |s.log| ==> Mine(t.tables.rows, c)[q] == Admitted(s, c, q))
  {
    var s := Run(c, lib, decode, moves);
    RunRuns(c, lib, decode, moves);
    ExchangesAdvance(s, c, lib, decode, n);
    ExecJoin(Start(c), c, lib, decode, moves, Exchanges(s, c, lib, decode, n));
    var t := Run(c, lib, decode, moves + Exchanges(s, c, lib, decode, n));
    FrontierBounds(s, c, decode);
    hide Mine, TablesOk, Ids, AllIds, Exchanges, Exec, Receives;
  }

  /**
  So a waiting flush is decided by the client being open: once woken it returns Ok, whatever its clock says, and only a
  client closed in the meantime turns it away, although all it waited for is stored.
  */
  lemma FlushReturns<D(!new)>(
    c: Config, lib: Library<D>, decode: Decoder, moves: seq<Move<D>>, id: nat, n: nat, closing: bool, timedOut: bool, expired: bool)
    requires Faithful(lib, decode) && Receives(c, lib, decode)
    requires var s := Run(c, lib, decode, moves);
      !s.pool.closed && id in s.flushes && s.flushes[id].Waiting? && n >= s.pool.accepted - s.pool.confirmed
    ensures var s := Run(c, lib, decode, moves);
      var t := Run(c, lib, decode, moves + Exchanges(s, c, lib, decode, n) + Ending(id, closing, timedOut, expired));
      && id in t.flushes && (t.flushes[id].Flushed? <==> !closing)
      && s.flushes[id].target <= s.pool.accepted == t.pool.confirmed
  {
    hide Receives, Exec, Step, Running, Inv;
    var s := Run(c, lib, decode, moves);
    var drain, ending := Exchanges(s, c, lib, decode, n), Ending<D>(id, closing, timedOut, expired);
    RunRuns(c, lib, decode, moves);
    RunFlags(c, lib, decode, moves);
    ExchangesAdvance(s, c, lib, decode, n);
    ExecJoin(Start(c), c, lib, decode, moves, drain);
    ExecJoin(Start(c), c, lib, decode, moves + drain, ending);
    FrontierBounds(s, c, decode) by {
      StillInv(s, c, decode);
    }
    EndingDecides(Exec(s, c, lib, decode, drain), c, lib, decode, id, closing, timedOut, expired);
  }

  /** A wake-up and a look at the frontier, the client closed just before or not. */
  function Ending<D>(id: nat, closing: bool, timedOut: bool, expired: bool): seq<Move<D>> {
    if closing then [Close, FlushWake(id, timedOut), FlushCheck(id, expired)] else [FlushWake(id, timedOut), FlushCheck(id, expired)]
  }

  lemma EndingDecides<D>(
    s: System, c: Config, lib: Library<D>, decode: Decoder, id: nat, closing: bool, timedOut: bool, expired: bool)
    requires id in s.flushes && s.flushes[id].Waiting? && s.flushes[id].target <= s.pool.confirmed && !s.pool.closed
    ensures var t := Exec(s, c, lib, decode, Ending(id, closing, timedOut, expired));
      id in t.flushes && (t.flushes[id].Flushed? <==> !closing) && t.pool.confirmed == s.pool.confirmed
  {
    var wake, look: Move<D> := FlushWake(id, timedOut), FlushCheck(id, expired);
    if closing {
      Exec3(s, c, lib, decode, Close, wake, look);
    } else {
      assert [wake, look][1..] == [look];
      ExecOne(Step(s, c, lib, decode, wake), c, lib, decode, look);
    }
  }

  /** What the worker carries has been sent. */
  lemma {:induction false} WorkerSends<D(!new)>(c: Config, lib: Library<D>, decode: Decoder, moves: seq<Move<D>>)
    requires Faithful(lib, decode)
    ensures var s := Run(c, lib, decode, moves);
            s.worker.Some? ==> s.worker.value.credit.len <= |s.worker.value.bytes| && s.worker.value.Payload() in s.sent
    decreases |moves|
  {
    if moves != [] {
      var init, last := moves[..|moves| - 1], moves[|moves| - 1];
      assert moves == init + [last];
      WorkerSends(c, lib, decode, init);
      ExecJoin(Start(c), c, lib, decode, init, [last]);
      var s := Run(c, lib, decode, init);
      assert [last][1..] == [];
      assert Exec(s, c, lib, decode, [last]) == Step(s, c, lib, decode, last);
    }
  }
}
