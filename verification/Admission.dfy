/**
The concurrent admission queue, fabric/src/admission/queue.rs, as a transition system.

Every call in progress is an actor with a program counter; a step does the work between two
synchronization operations. A schedule is any list of labels, so a statement about
`Exec(.., labels)` for all labels is a statement about every interleaving.
A lease is an actor too: it outlives the call that made it, and its drop takes steps of its own.
*/
module Admission {
  import opened Common
  import opened Kernel

  // ---------------------------------------------------------------- data

  /** What admission sees of a record: the verdict of its validation and the writes its serializer issues. */
  datatype Observation = Observation(valid: bool, chunks: seq<seq<byte>>, fails: bool)

  datatype Buffer = Buffer(bytes: seq<byte>, credit: Slot) {
    predicate Ok(id: nat, limit: nat) {
      |bytes| == limit && credit.capacity == limit && credit.id == id && credit.Valid()
    }
    function Payload(): seq<byte>
      requires credit.len <= |bytes|
    {
      bytes[..credit.len]
    }
  }

  datatype Verdict = Accepted | Invalid | TooLarge | Full | Contended | Closed | Poisoned | Exhausted

  datatype Outcome =
    | Admitted(verdict: Verdict)   // try_record
    | Nothing                      // try_dequeue: Ok(None)
    | Refused(verdict: Verdict)    // try_dequeue or shutdown: Err
    | Stopped                      // shutdown: Ok
    | Returned                     // a lease was dropped

  datatype Lease = Lease(buffer: Buffer, ticket: nat, index: nat)

  /** A live reservation: the slot it came from and its buffer. */
  datatype Held = Held(index: nat, buffer: Buffer)

  datatype End = Finished(outcome: Outcome) | AsLease(lease: Lease)

  datatype Op = Record(observation: Observation) | Dequeue | Shutdown

  datatype Pc =
    // record_with_probe
    | RecordStart(o: Observation)
    | FetchProbe(o: Observation)
    | Probing(o: Observation, start: nat, offset: nat, contended: bool)
    | CellLocked(o: Observation, start: nat, offset: nat, contended: bool)
    | Encoding(o: Observation, res: Held)
    | Publishing(o: Observation, res: Held, len: nat)
    | Committing(o: Observation, res: Held, len: nat)
    // reject
    | Rejecting(reason: Verdict, held: Option<Held>)
    | Counting(reason: Verdict, held: Option<Held>)
    // try_dequeue
    | DequeueStart
    | DequeueLock
    | Peeking
    | Taking(index: nat, ticket: nat)
    // shutdown
    | ShutdownStart
    | Closing
    // a lease, and its drop
    | Live(lease: Lease)
    | DropSlot(lease: Lease)
    | DropState(lease: Lease)
    | Dropping(lease: Lease)
    // guards leaving scope
    | Unwind(state: bool, slot: Option<nat>, slotFirst: bool, restore: Option<Buffer>, end: End)
    | Done(outcome: Outcome)

  /** A committed record: who recorded it and the bytes fixed at commit. */
  datatype Entry = Entry(actor: nat, bytes: seq<byte>)

  datatype State = State(
    limit: nat,                       // bytes in each buffer
    cells: seq<Option<Buffer>>,
    slotLock: seq<Option<nat>>,       // the actor holding each slot mutex
    stateLock: Option<nat>,           // the actor holding the state mutex
    ready: seq<(nat, nat)>,           // (slot, ticket)
    order: Fifo,
    closed: bool,
    rejected: nat,
    leased: nat,
    fault: bool,
    probe: nat,
    actors: map<nat, Pc>,
    // history: not in the program
    ops: map<nat, Op>,                // what each call was asked to do
    log: seq<Entry>,                  // commits, in order
    taken: seq<nat>                   // the actors that dequeued, in order
  )

  datatype Label = Invoke(actor: nat, op: Op) | Advance(actor: nat) | Drop(actor: nat)

  // ---------------------------------------------------------------- encoding

  datatype Filled = Filled(bytes: seq<byte>, used: nat, full: bool)

  /** The serializer's writes, up to the first one that does not fit. */
  function Fill(bytes: seq<byte>, used: nat, chunks: seq<seq<byte>>): (r: Filled)
    requires used <= |bytes|
    ensures |r.bytes| == |bytes| && used <= r.used <= |bytes|
    decreases chunks
  {
    if chunks == [] then Filled(bytes, used, false)
    else match Charge(|bytes|, used, |chunks[0]|)
      case None => Filled(bytes, used, true)
      case Some(end) => Fill(bytes[..used] + chunks[0] + bytes[end..], end, chunks[1..])
  }

  function Encode(bytes: seq<byte>, o: Observation): (seq<byte>, Result<nat, Verdict>) {
    var f := Fill(bytes, 0, o.chunks);
    (f.bytes, if f.full then Err(TooLarge) else if o.fails then Err(Invalid) else Ok(f.used))
  }

  lemma {:induction false} FillMeaning(bytes: seq<byte>, used: nat, chunks: seq<seq<byte>>)
    requires used <= |bytes|
    ensures var f := Fill(bytes, used, chunks);
            && (f.full <==> used + |Concat(chunks)| > |bytes|)
            && (!f.full ==> f.used == used + |Concat(chunks)|
                            && f.bytes[..f.used] == bytes[..used] + Concat(chunks))
    decreases chunks
  {
    if chunks != [] {
      match Charge(|bytes|, used, |chunks[0]|)
      case None =>
        assert |Concat(chunks)| >= |chunks[0]|;
      case Some(end) =>
        var next := bytes[..used] + chunks[0] + bytes[end..];
        FillMeaning(next, end, chunks[1..]);
        assert next[..end] == bytes[..used] + chunks[0];
    } else {
      assert bytes[..used] + Concat(chunks) == bytes[..used];
    }
  }

  /** Encoding succeeds exactly when the serializer does and the whole text fits; it then leaves that text. */
  lemma EncodeMeaning(bytes: seq<byte>, o: Observation)
    ensures var (written, r) := Encode(bytes, o);
            && |written| == |bytes|
            && (r.Ok? <==> |Concat(o.chunks)| <= |bytes| && !o.fails)
            && (r.Err? ==> r.error == if |Concat(o.chunks)| > |bytes| then TooLarge else Invalid)
            && (r.Ok? ==> r.value <= |bytes| && written[..r.value] == Concat(o.chunks))
  {
    FillMeaning(bytes, 0, o.chunks);
  }

  /** The same in place, one bounded write at a time. */
  method EncodeInPlace(a: array<byte>, o: Observation) returns (r: Result<nat, Verdict>)
    modifies a
    ensures (a[..], r) == Encode(old(a[..]), o)
  {
    var used: nat := 0;
    var i := 0;
    assert o.chunks[0..] == o.chunks;
    while i < |o.chunks|
      invariant 0 <= i <= |o.chunks| && used <= a.Length
      invariant Fill(old(a[..]), 0, o.chunks) == Fill(a[..], used, o.chunks[i..])
    {
      var chunk := o.chunks[i];
      var end := Charge(a.Length, used, |chunk|);
      if end == None {
        return Err(TooLarge);
      }
      ghost var before := a[..];
      for k := 0 to |chunk|
        invariant a[..used] == before[..used] && a[end.value..] == before[end.value..]
        invariant a[used..used + k] == chunk[..k]
      {
        a[used + k] := chunk[k];
      }
      assert a[..] == before[..used] + chunk + before[end.value..];
      assert o.chunks[i..][1..] == o.chunks[i + 1..];
      used := end.value;
      i := i + 1;
    }
    r := if o.fails then Err(Invalid) else Ok(used);
  }

  // ---------------------------------------------------------------- steps

  function Init(slots: nat, limit: nat): State {
    State(limit,
          seq(slots, i requires 0 <= i < slots => Some(Buffer(seq(limit, _ => 0), Slot(i, limit, 0, Free)))),
          seq(slots, _ => None), None, [], Fifo(0, 0), false, 0, 0, false, 0, map[], map[], [], [])
  }

  function To(s: State, a: nat, pc: Pc): State {
    s.(actors := s.actors[a := pc])
  }

  function ProbedSlot(n: nat, start: nat, offset: nat): (i: nat)
    requires start < n && offset < n
    ensures i < n
  {
    if offset < n - start then start + offset else offset - (n - start)
  }

  function NextProbe(s: State, o: Observation, start: nat, offset: nat, contended: bool): Pc {
    if offset < |s.cells| then Probing(o, start, offset, contended)
    else if contended then Unwind(false, None, false, None, Finished(Admitted(Contended)))
    else Rejecting(Full, None)
  }

  /** Leaving record_with_probe: the state guard goes first, then the reservation, then the slot guard. */
  function Leave(verdict: Verdict, state: bool, held: Option<Held>): Pc {
    match held
    case None => Unwind(state, None, false, None, Finished(Admitted(verdict)))
    case Some(h) => Unwind(state, Some(h.index), false, Some(h.buffer), Finished(Admitted(verdict)))
  }

  function LockSlot(s: State, i: nat, a: nat): State
    requires i < |s.slotLock|
  {
    s.(slotLock := s.slotLock[i := Some(a)])
  }

  function Fail(s: State): State {
    s.(fault := true)
  }

  /** Slot numbers in range; every counter a schedule leads to is. */
  predicate PcShaped(s: State, pc: Pc) {
    var n := |s.cells|;
    match pc
    case Probing(_, start, offset, _) => start < n && offset < n
    case CellLocked(_, start, offset, _) => start < n && offset < n
    case Encoding(_, h) => h.index < n
    case Publishing(_, h, _) => h.index < n
    case Committing(_, h, _) => h.index < n
    case Rejecting(_, held) => held.Some? ==> held.value.index < n
    case Counting(_, held) => held.Some? ==> held.value.index < n
    case Taking(i, _) => i < n
    case Live(l) => l.index < n
    case DropSlot(l) => l.index < n
    case DropState(l) => l.index < n
    case Dropping(l) => l.index < n
    case Unwind(_, slot, _, restore, _) => (slot.Some? ==> slot.value < n) && (restore.Some? ==> slot.Some?)
    case _ => true
  }

  /** The counter of one actor fits the shared state. */
  predicate Fit(s: State, a: nat) {
    a in s.actors && 0 < |s.cells| == |s.slotLock| && PcShaped(s, s.actors[a])
  }

  function Step(s: State, move: Label): State
  {
    match move
    case Invoke(a, op) =>
      if a in s.actors then s
      else
        var pc := match op
          case Record(o) => RecordStart(o)
          case Dequeue => DequeueStart
          case Shutdown => ShutdownStart;
        To(s, a, pc).(ops := s.ops[a := op])
    case Drop(a) =>
      if a in s.actors && s.actors[a].Live? then To(s, a, DropSlot(s.actors[a].lease)) else s
    case Advance(a) =>
      if !Fit(s, a) then s
      else match s.actors[a]
        case RecordStart(_) => AdvanceRecord(s, a)
        case FetchProbe(_) => AdvanceRecord(s, a)
        case Probing(_, _, _, _) => AdvanceRecord(s, a)
        case CellLocked(_, _, _, _) => AdvanceRecord(s, a)
        case Encoding(_, _) => AdvanceCommit(s, a)
        case Publishing(_, _, _) => AdvanceCommit(s, a)
        case Committing(_, _, _) => AdvanceCommit(s, a)
        case Rejecting(_, _) => AdvanceReject(s, a)
        case Counting(_, _) => AdvanceReject(s, a)
        case DequeueStart => AdvanceDequeue(s, a)
        case DequeueLock => AdvanceDequeue(s, a)
        case Peeking => AdvanceDequeue(s, a)
        case Taking(_, _) => AdvanceDequeue(s, a)
        case ShutdownStart => AdvanceShutdown(s, a)
        case Closing => AdvanceShutdown(s, a)
        case DropSlot(_) => AdvanceDrop(s, a)
        case DropState(_) => AdvanceDrop(s, a)
        case Dropping(_) => AdvanceDrop(s, a)
        case Unwind(_, _, _, _, _) => AdvanceUnwind(s, a)
        case Live(_) => s
        case Done(_) => s
  }

  function AdvanceRecord(s: State, a: nat): State
    requires Fit(s, a)
  {
    match s.actors[a]
    case RecordStart(o) =>
      if s.fault then To(s, a, Leave(Poisoned, false, None))
      else if !o.valid then To(s, a, Rejecting(Invalid, None))
      else To(s, a, FetchProbe(o))
    case FetchProbe(o) =>
      To(s, a, Probing(o, s.probe % |s.cells|, 0, false)).(probe := (s.probe + 1) % (U64_MAX + 1))
    case Probing(o, start, offset, contended) =>
      var i := ProbedSlot(|s.cells|, start, offset);
      if s.slotLock[i].Some? then To(s, a, NextProbe(s, o, start, offset + 1, true))
      else To(LockSlot(s, i, a), a, CellLocked(o, start, offset, contended))
    case CellLocked(o, start, offset, contended) =>
      var i := ProbedSlot(|s.cells|, start, offset);
      if s.cells[i].Some? && s.cells[i].value.credit.Reserve().Some? then
        var b := s.cells[i].value;
        To(s, a, Encoding(o, Held(i, b.(credit := b.credit.Reserve().value)))).(cells := s.cells[i := None])
      else
        To(s, a, NextProbe(s, o, start, offset + 1, contended)).(slotLock := s.slotLock[i := None])
    case _ => s
  }

  function AdvanceCommit(s: State, a: nat): State
    requires Fit(s, a)
  {
    match s.actors[a]
    case Encoding(o, h) =>
      var (bytes, r) := Encode(h.buffer.bytes, o);
      var h' := h.(buffer := h.buffer.(bytes := bytes));
      (match r
       case Ok(len) => To(s, a, Publishing(o, h', len))
       case Err(reason) => To(s, a, Rejecting(reason, Some(h'))))
    case Publishing(o, h, len) =>
      if s.stateLock.Some? then To(s, a, Leave(Contended, false, Some(h)))
      else To(s, a, Committing(o, h, len)).(stateLock := Some(a))
    case Committing(o, h, len) =>
      if s.fault then To(s, a, Leave(Poisoned, true, Some(h)))
      else if s.closed then To(s, a, Leave(Closed, true, Some(h)))
      else (match s.order.Enqueue()
        case None => To(s, a, Leave(Exhausted, true, Some(h)))
        case Some(order) =>
          match h.buffer.credit.Publish(len)
          case None => To(Fail(s), a, Leave(Poisoned, true, Some(h))).(order := order)
          case Some(credit) =>
            var b := h.buffer.(credit := credit);
            To(s, a, Unwind(true, Some(h.index), false, None, Finished(Admitted(Accepted)))).(
              order := order,
              cells := s.cells[h.index := Some(b)],
              ready := s.ready + [(h.index, s.order.next)],
              log := s.log + [Entry(a, b.bytes[..Min(len, |b.bytes|)])]))
    case _ => s
  }

  function AdvanceReject(s: State, a: nat): State
    requires Fit(s, a)
  {
    match s.actors[a]
    case Rejecting(reason, held) =>
      if s.stateLock.Some? then To(s, a, Leave(Contended, false, held))
      else To(s, a, Counting(reason, held)).(stateLock := Some(a))
    case Counting(reason, held) =>
      var charged := |s.ready| + s.leased;
      if s.fault then To(s, a, Leave(Poisoned, true, held))
      else if s.closed then To(s, a, Leave(Closed, true, held))
      else if reason == Full && charged > |s.cells| then To(Fail(s), a, Leave(Poisoned, true, held))
      else if reason == Full && charged < |s.cells| then To(s, a, Leave(Contended, true, held))
      else To(s, a, Leave(reason, true, held)).(rejected := SaturatingAdd(s.rejected, 1))
    case _ => s
  }

  function AdvanceDequeue(s: State, a: nat): State
    requires Fit(s, a)
  {
    match s.actors[a]
    case DequeueStart =>
      if s.fault then To(s, a, Unwind(false, None, true, None, Finished(Refused(Poisoned))))
      else To(s, a, DequeueLock)
    case DequeueLock =>
      if s.stateLock.Some? then To(s, a, Unwind(false, None, true, None, Finished(Refused(Contended))))
      else To(s, a, Peeking).(stateLock := Some(a))
    case Peeking =>
      if s.ready == [] then To(s, a, Unwind(true, None, true, None, Finished(Nothing)))
      else
        var (i, ticket) := s.ready[0];
        if i >= |s.cells| then Fail(s)     // an index panic; there is none
        else if s.slotLock[i].Some? then To(s, a, Unwind(true, None, true, None, Finished(Refused(Contended))))
        else To(LockSlot(s, i, a), a, Taking(i, ticket))
    case Taking(i, ticket) =>
      var broken := Unwind(true, Some(i), true, None, Finished(Refused(Poisoned)));
      if s.leased >= |s.cells| then To(Fail(s), a, broken)
      else (match s.cells[i]
        case None => To(Fail(s), a, broken)
        case Some(b) =>
          match s.order.Dequeue(ticket)
          case None => To(Fail(s), a, broken).(cells := s.cells[i := None])
          case Some(order) =>
            match b.credit.Lease()
            case None => To(Fail(s), a, broken).(cells := s.cells[i := None], order := order)
            case Some(credit) =>
              var lease := Lease(b.(credit := credit), ticket, i);
              To(s, a, Unwind(true, Some(i), true, None, AsLease(lease))).(
                cells := s.cells[i := None],
                order := order,
                ready := if s.ready == [] then [] else s.ready[1..],
                leased := s.leased + 1,
                taken := s.taken + [a]))
    case _ => s
  }

  function AdvanceShutdown(s: State, a: nat): State
    requires Fit(s, a)
  {
    match s.actors[a]
    case ShutdownStart =>
      if s.stateLock.Some? then To(s, a, Unwind(false, None, true, None, Finished(Refused(Contended))))
      else To(s, a, Closing).(stateLock := Some(a))
    case Closing =>
      if s.fault then To(s, a, Unwind(true, None, true, None, Finished(Refused(Poisoned))))
      else To(s, a, Unwind(true, None, true, None, Finished(Stopped))).(closed := true)
    case _ => s
  }

  /** Lease::drop, the one place that blocks: on the slot, then on the state. */
  function AdvanceDrop(s: State, a: nat): State
    requires Fit(s, a)
  {
    match s.actors[a]
    case DropSlot(l) =>
      if s.slotLock[l.index].Some? then s else To(LockSlot(s, l.index, a), a, DropState(l))
    case DropState(l) =>
      if s.stateLock.Some? then s else To(s, a, Dropping(l)).(stateLock := Some(a))
    case Dropping(l) =>
      var after := Unwind(true, Some(l.index), false, None, Finished(Returned));
      if s.cells[l.index].Some? || s.leased == 0 || l.buffer.credit.Release() == None then To(Fail(s), a, after)
      else
        var b := l.buffer.(credit := l.buffer.credit.Release().value);
        To(s, a, after).(leased := s.leased - 1, cells := s.cells[l.index := Some(b)])
    case _ => s
  }

  function AdvanceUnwind(s: State, a: nat): State
    requires Fit(s, a)
  {
    match s.actors[a]
    case Unwind(state, slot, slotFirst, restore, end) =>
      if state && (!slotFirst || slot == None) then
        To(s, a, Unwind(false, slot, slotFirst, restore, end)).(stateLock := None)
      else if restore.Some? then
        var b := restore.value;
        var cancelled := b.credit.Cancel();
        var back := if cancelled.Some? then b.(credit := cancelled.value) else b;
        To(if cancelled.Some? then s else Fail(s), a, Unwind(state, slot, slotFirst, None, end)).(
          cells := s.cells[slot.value := Some(back)])
      else if slot.Some? then
        To(s, a, Unwind(state, None, slotFirst, None, end)).(slotLock := s.slotLock[slot.value := None])
      else
        To(s, a, match end case Finished(outcome) => Done(outcome) case AsLease(l) => Live(l))
    case _ => s
  }

  /** The state a schedule leads to. */
  function Exec(s: State, moves: seq<Label>): State
    decreases |moves|
  {
    if moves == [] then s else Exec(Step(s, moves[0]), moves[1..])
  }

  function Run(slots: nat, limit: nat, moves: seq<Label>): State {
    Exec(Init(slots, limit), moves)
  }
}
