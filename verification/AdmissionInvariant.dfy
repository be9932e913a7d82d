/** What every step of the admission queue keeps. */
module AdmissionInvariant {
  import opened Common
  import opened Kernel
  import opened Admission

  /** The slot mutex a call holds. */
  function HeldSlot(n: nat, pc: Pc): Option<nat> {
    match pc
    case CellLocked(_, start, offset, _) =>
      if start < n && offset < n then Some(ProbedSlot(n, start, offset)) else None
    case Encoding(_, h) => Some(h.index)
    case Publishing(_, h, _) => Some(h.index)
    case Committing(_, h, _) => Some(h.index)
    case Rejecting(_, held) => if held.Some? then Some(held.value.index) else None
    case Counting(_, held) => if held.Some? then Some(held.value.index) else None
    case Taking(i, _) => Some(i)
    case DropState(l) => Some(l.index)
    case Dropping(l) => Some(l.index)
    case Unwind(_, slot, _, _, _) => slot
    case _ => None
  }

  /** Whether a call holds the state mutex. */
  predicate HoldsState(pc: Pc) {
    match pc
    case Committing(_, _, _) => true
    case Counting(_, _) => true
    case Peeking => true
    case Taking(_, _) => true
    case Closing => true
    case Dropping(_) => true
    case Unwind(state, _, _, _, _) => state
    case _ => false
  }

  /** The lease an actor is, if it is one. */
  function LeaseOf(pc: Pc): Option<Lease> {
    match pc
    case Live(l) => Some(l)
    case DropSlot(l) => Some(l)
    case DropState(l) => Some(l)
    case Dropping(l) => Some(l)
    case Unwind(_, _, _, _, AsLease(l)) => Some(l)
    case _ => None
  }

  /** The reservation a call holds. */
  function Reservation(pc: Pc): Option<Held> {
    match pc
    case Encoding(_, h) => Some(h)
    case Publishing(_, h, _) => Some(h)
    case Committing(_, h, _) => Some(h)
    case Rejecting(_, held) => held
    case Counting(_, held) => held
    case Unwind(_, Some(i), _, Some(b), _) => Some(Held(i, b))
    case _ => None
  }

  /** The slot whose buffer is with this actor rather than in its cell. */
  function Owned(pc: Pc): Option<nat> {
    if LeaseOf(pc).Some? then Some(LeaseOf(pc).value.index)
    else if Reservation(pc).Some? then Some(Reservation(pc).value.index)
    else None
  }

  predicate Committed(pc: Pc) {
    match pc
    case Unwind(_, _, _, _, Finished(Admitted(Accepted))) => true
    case Done(Admitted(Accepted)) => true
    case _ => false
  }

  predicate LeaseReturned(pc: Pc) {
    match pc
    case Unwind(_, _, _, _, Finished(Returned)) => true
    case Done(Returned) => true
    case _ => false
  }

  /** Mutexes and program counters agree on who holds what. */
  ghost predicate SlotLocksAgree(s: State) {
    && (forall i, a :: 0 <= i < |s.slotLock| && s.slotLock[i] == Some(a)
          ==> a in s.actors && HeldSlot(|s.cells|, s.actors[a]) == Some(i))
    && (forall a :: a in s.actors && HeldSlot(|s.cells|, s.actors[a]).Some?
          ==> HeldSlot(|s.cells|, s.actors[a]).value < |s.slotLock|
              && s.slotLock[HeldSlot(|s.cells|, s.actors[a]).value] == Some(a))
  }

  ghost predicate StateLockAgrees(s: State) {
    && (forall a :: s.stateLock == Some(a) ==> a in s.actors && HoldsState(s.actors[a]))
    && (forall a :: a in s.actors && HoldsState(s.actors[a]) ==> s.stateLock == Some(a))
  }

  ghost predicate LocksAgree(s: State) {
    SlotLocksAgree(s) && StateLockAgrees(s)
  }

  /** A buffer is in its cell, or with exactly one actor. */
  ghost predicate BuffersOwned(s: State) {
    && (forall a :: a in s.actors && Owned(s.actors[a]).Some? ==> Owned(s.actors[a]).value < |s.cells|)
    && (forall a :: a in s.actors && Owned(s.actors[a]).Some? ==> s.cells[Owned(s.actors[a]).value] == None)
    && (forall a, b :: a in s.actors && b in s.actors && Owned(s.actors[a]).Some? && Owned(s.actors[a]) == Owned(s.actors[b])
          ==> a == b)
    && (forall i :: 0 <= i < |s.cells| && s.cells[i] == None
          ==> exists a :: a in s.actors && Owned(s.actors[a]) == Some(i))
  }

  ghost predicate CellsOk(s: State) {
    forall i :: 0 <= i < |s.cells| && s.cells[i].Some?
      ==> && s.cells[i].value.Ok(i, s.limit)
          && s.cells[i].value.credit.phase in {Free, Ready}
          && (s.cells[i].value.credit.phase == Ready <==> exists k :: 0 <= k < |s.ready| && s.ready[k].0 == i)
  }

  /** Ready entries carry consecutive tickets and the bytes that were committed under them. */
  ghost predicate ReadyOk(s: State) {
    && s.order.head + |s.ready| == s.order.next == |s.log|
    && s.order.next <= U64_MAX
    && (forall j, k :: 0 <= j < k < |s.ready| ==> s.ready[j].0 != s.ready[k].0)
    && (forall k :: 0 <= k < |s.ready|
          ==> && s.ready[k].1 == s.order.head + k
              && s.ready[k].0 < |s.cells|
              && s.cells[s.ready[k].0].Some?
              && s.cells[s.ready[k].0].value.Ok(s.ready[k].0, s.limit)
              && s.cells[s.ready[k].0].value.Payload() == s.log[s.order.head + k].bytes)
  }

  /** The log lists the calls that were accepted, each once, with the whole text of its record. */
  ghost predicate LogOk(s: State) {
    && (forall k :: 0 <= k < |s.log|
          ==> && s.log[k].actor in s.actors && s.log[k].actor in s.ops
              && Committed(s.actors[s.log[k].actor])
              && FitsOp(s.ops[s.log[k].actor], s.log[k].bytes, s.limit))
    && (forall j, k :: 0 <= j < k < |s.log| ==> s.log[j].actor != s.log[k].actor)
    && (forall a :: a in s.actors && Committed(s.actors[a])
          ==> exists k :: 0 <= k < |s.log| && s.log[k].actor == a)
  }

  predicate FitsOp(op: Op, bytes: seq<byte>, limit: nat) {
    op.Record? && op.observation.valid && !op.observation.fails
    && bytes == Concat(op.observation.chunks) && |bytes| <= limit
  }

  ghost predicate TakenOk(s: State) {
    && |s.taken| == s.order.head
    && (forall k :: 0 <= k < |s.taken|
          ==> && s.taken[k] in s.actors && s.taken[k] in s.ops && s.ops[s.taken[k]] == Dequeue
              && (LeaseReturned(s.actors[s.taken[k]])
                  || (LeaseOf(s.actors[s.taken[k]]).Some? && LeaseOf(s.actors[s.taken[k]]).value.ticket == k)))
    && (forall j, k :: 0 <= j < k < |s.taken| ==> s.taken[j] != s.taken[k])
  }

  ghost predicate PcOk(s: State, a: nat, pc: Pc) {
    && a in s.ops
    && (Reservation(pc).Some? ==> var h := Reservation(pc).value;
          h.buffer.Ok(h.index, s.limit) && h.buffer.credit.phase == Reserved)
    && (LeaseOf(pc).Some? ==> var l := LeaseOf(pc).value;
          && s.ops[a] == Dequeue
          && l.buffer.Ok(l.index, s.limit) && l.buffer.credit.phase == Leased
          && l.ticket < |s.taken| && s.taken[l.ticket] == a
          && l.ticket < |s.log| && l.buffer.Payload() == s.log[l.ticket].bytes)
    && match pc
       case RecordStart(o) => s.ops[a] == Record(o)
       case FetchProbe(o) => s.ops[a] == Record(o) && o.valid
       case Probing(o, start, offset, _) => s.ops[a] == Record(o) && o.valid && start < |s.cells| && offset < |s.cells|
       case CellLocked(o, start, offset, _) => s.ops[a] == Record(o) && o.valid && start < |s.cells| && offset < |s.cells|
       case Encoding(o, h) => s.ops[a] == Record(o) && o.valid && h.index < |s.cells|
       case Publishing(o, h, len) => h.index < |s.cells| && Encoded(s, a, o, h, len)
       case Committing(o, h, len) => h.index < |s.cells| && Encoded(s, a, o, h, len)
       case Rejecting(reason, held) => RejectOk(s, a, reason, held)
       case Counting(reason, held) => RejectOk(s, a, reason, held)
       case DequeueStart => s.ops[a] == Dequeue
       case DequeueLock => s.ops[a] == Dequeue
       case Peeking => s.ops[a] == Dequeue
       case Taking(i, ticket) => s.ops[a] == Dequeue && i < |s.cells| && s.ready != [] && s.ready[0] == (i, ticket)
       case ShutdownStart => s.ops[a] == Shutdown
       case Closing => s.ops[a] == Shutdown
       case DropSlot(l) => l.index < |s.cells|
       case DropState(l) => l.index < |s.cells|
       case Dropping(l) => l.index < |s.cells|
       case Live(l) => l.index < |s.cells|
       case Unwind(_, slot, slotFirst, restore, end) =>
         && (slot.Some? ==> slot.value < |s.cells| && slotFirst == (s.ops[a] == Dequeue && end != Finished(Returned)))
         && (restore.Some? ==> slot.Some? && end.Finished?)
         && (end.Finished? ==> end.outcome != Admitted(Poisoned) && end.outcome != Refused(Poisoned))
       case Done(outcome) => outcome != Admitted(Poisoned) && outcome != Refused(Poisoned)
  }

  ghost predicate Encoded(s: State, a: nat, o: Observation, h: Held, len: nat) {
    && a in s.ops && s.ops[a] == Record(o)
    && len <= |h.buffer.bytes| && FitsOp(Record(o), h.buffer.bytes[..len], s.limit)
  }

  /** When a record is refused on its own account, or for want of a slot. */
  predicate RefusalJust(o: Observation, reason: Verdict, limit: nat) {
    || (reason == Invalid && (!o.valid || (o.fails && |Concat(o.chunks)| <= limit)))
    || (reason == TooLarge && o.valid && |Concat(o.chunks)| > limit)
    || (reason == Full && o.valid)
  }

  ghost predicate RejectOk(s: State, a: nat, reason: Verdict, held: Option<Held>) {
    && a in s.ops && s.ops[a].Record?
    && RefusalJust(s.ops[a].observation, reason, s.limit)
    && (reason == Full ==> held == None)
    && (held.Some? ==> held.value.index < |s.cells|)
  }

  function Leases(s: State): set<nat> {
    set a | a in s.actors && LeaseOf(s.actors[a]).Some?
  }

  ghost predicate Inv(s: State) {
    && |s.cells| > 0 && |s.slotLock| == |s.cells|
    && !s.fault
    && LocksAgree(s) && BuffersOwned(s) && CellsOk(s) && ReadyOk(s) && LogOk(s) && TakenOk(s)
    && (forall a :: a in s.actors ==> PcOk(s, a, s.actors[a]))
    && s.leased == |Leases(s)|
  }

  // ---------------------------------------------------------------- kept by every move

  lemma InitInv(slots: nat, limit: nat)
    requires slots > 0
    ensures Inv(Init(slots, limit))
  {
    assert Leases(Init(slots, limit)) == {};
  }

  /** What one step of one actor does to the shared storage. */
  datatype Effect = Quiet | Reserves(i: nat) | Restores(i: nat) | Commits(i: nat) | Takes(i: nat) | Releases(i: nat)

  predicate SlotLockMoved(s: State, t: State, a: nat, p: Pc, q: Pc) {
    var h, h' := HeldSlot(|s.cells|, p), HeldSlot(|s.cells|, q);
    && |s.slotLock| == |s.cells| == |t.cells|
    && if h == h' then t.slotLock == s.slotLock
       else if h == None then
         h'.value < |s.slotLock| && s.slotLock[h'.value] == None && t.slotLock == s.slotLock[h'.value := Some(a)]
       else h' == None && h.value < |s.slotLock| && t.slotLock == s.slotLock[h.value := None]
  }

  predicate StateLockMoved(s: State, t: State, a: nat, p: Pc, q: Pc) {
    if HoldsState(p) == HoldsState(q) then t.stateLock == s.stateLock
    else if HoldsState(q) then s.stateLock == None && t.stateLock == Some(a)
    else t.stateLock == None
  }

  predicate StorageMoved(s: State, t: State, a: nat, p: Pc, q: Pc, e: Effect) {
    match e
    case Quiet =>
      t.cells == s.cells && Owned(q) == Owned(p) && Reservation(q).Some? == Reservation(p).Some?
      && t.ready == s.ready && t.order == s.order && t.log == s.log
      && t.taken == s.taken && t.leased == s.leased
      && Committed(q) == Committed(p) && LeaseReturned(q) == LeaseReturned(p) && LeaseOf(p) == LeaseOf(q)
    case Reserves(i) =>
      && i < |s.cells| && s.cells[i].Some? && s.cells[i].value.credit.phase == Free
      && t.cells == s.cells[i := None] && Owned(p) == None && Owned(q) == Some(i)
      && t.ready == s.ready && t.order == s.order && t.log == s.log
      && t.taken == s.taken && t.leased == s.leased
      && !Committed(q) && !Committed(p) && !LeaseReturned(q) && !LeaseReturned(p) && LeaseOf(p) == LeaseOf(q) == None
    case Restores(i) =>
      && i < |s.cells| && i < |t.cells| && t.cells[i].Some? && t.cells[i].value.Ok(i, s.limit) && t.cells[i].value.credit.phase == Free
      && t.cells == s.cells[i := t.cells[i]] && Owned(p) == Some(i) && Owned(q) == None
      && t.ready == s.ready && t.order == s.order && t.log == s.log
      && t.taken == s.taken && t.leased == s.leased
      && Committed(q) == Committed(p) && LeaseReturned(q) == LeaseReturned(p) && LeaseOf(p) == LeaseOf(q) == None
    case Commits(i) =>
      && i < |s.cells| && i < |t.cells| && t.cells[i].Some? && t.cells[i].value.Ok(i, s.limit) && t.cells[i].value.credit.phase == Ready
      && t.cells == s.cells[i := t.cells[i]] && Owned(p) == Some(i) && Owned(q) == None && HoldsState(p)
      && t.ready == s.ready + [(i, s.order.next)] && t.order == Fifo(s.order.head, s.order.next + 1)
      && s.order.next < U64_MAX
      && t.log == s.log + [Entry(a, t.cells[i].value.Payload())]
      && a in s.ops && FitsOp(s.ops[a], t.cells[i].value.Payload(), s.limit)
      && t.taken == s.taken && t.leased == s.leased
      && Committed(q) && !Committed(p) && !LeaseReturned(p) && !LeaseReturned(q) && LeaseOf(p) == LeaseOf(q) == None
    case Takes(i) =>
      && i < |s.cells| && s.cells[i].Some? && s.ready != [] && s.ready[0] == (i, s.order.head)
      && t.cells == s.cells[i := None] && Owned(p) == None && Owned(q) == Some(i) && HoldsState(p)
      && t.ready == s.ready[1..] && t.order == Fifo(s.order.head + 1, s.order.next) && t.log == s.log
      && t.taken == s.taken + [a] && t.leased == s.leased + 1
      && a in s.ops && s.ops[a] == Dequeue
      && !Committed(q) && !Committed(p) && !LeaseReturned(p) && LeaseOf(p) == None
      && LeaseOf(q).Some? && LeaseOf(q).value.ticket == s.order.head
    case Releases(i) =>
      && i < |s.cells| && i < |t.cells| && t.cells[i].Some? && t.cells[i].value.Ok(i, s.limit) && t.cells[i].value.credit.phase == Free
      && t.cells == s.cells[i := t.cells[i]] && Owned(p) == Some(i) && Owned(q) == None
      && t.ready == s.ready && t.order == s.order && t.log == s.log
      && t.taken == s.taken && s.leased > 0 && t.leased == s.leased - 1
      && !Committed(q) && !Committed(p) && LeaseOf(p).Some? && LeaseReturned(q) && LeaseOf(q) == None
  }

  /** One actor took one step, with this effect, and its own counter is in order again. */
  ghost predicate Moved(s: State, t: State, a: nat, e: Effect) {
    && a in s.actors && a in t.actors && t.actors == s.actors[a := t.actors[a]]
    && t.ops == s.ops && t.limit == s.limit && |t.cells| == |s.cells| && !t.fault
    && SlotLockMoved(s, t, a, s.actors[a], t.actors[a])
    && StateLockMoved(s, t, a, s.actors[a], t.actors[a])
    && StorageMoved(s, t, a, s.actors[a], t.actors[a], e)
    && PcOk(t, a, t.actors[a])
  }

  lemma SlotLocksKept(s: State, t: State, a: nat, e: Effect)
    requires SlotLocksAgree(s) && Moved(s, t, a, e)
    ensures SlotLocksAgree(t)
  {
    hide Moved, HeldSlot, SlotLocksAgree;
    MovedSizes(s, t, a, e);
    forall i, b | 0 <= i < |t.slotLock| && t.slotLock[i] == Some(b)
      ensures b in t.actors && HeldSlot(|t.cells|, t.actors[b]) == Some(i)
    {
      HolderHolds(s, t, a, e, i, b);
    }
    forall b | b in t.actors && HeldSlot(|t.cells|, t.actors[b]).Some?
      ensures HeldSlot(|t.cells|, t.actors[b]).value < |t.slotLock| && t.slotLock[HeldSlot(|t.cells|, t.actors[b]).value] == Some(b)
    {
      HeldIsLocked(s, t, a, e, b);
    }
    SlotLocksFrom(t);
  }

  lemma SlotLocksFrom(t: State)
    requires forall i, b :: 0 <= i < |t.slotLock| && t.slotLock[i] == Some(b)
               ==> b in t.actors && HeldSlot(|t.cells|, t.actors[b]) == Some(i)
    requires forall b :: b in t.actors && HeldSlot(|t.cells|, t.actors[b]).Some?
               ==> HeldSlot(|t.cells|, t.actors[b]).value < |t.slotLock| && t.slotLock[HeldSlot(|t.cells|, t.actors[b]).value] == Some(b)
    ensures SlotLocksAgree(t)
  {
    hide HeldSlot;
  }

  lemma MovedSizes(s: State, t: State, a: nat, e: Effect)
    requires Moved(s, t, a, e)
    ensures |t.cells| == |s.cells| && |t.slotLock| == |s.slotLock|
  {
    hide HeldSlot, PcOk, StorageMoved, StateLockMoved;
  }

  lemma HolderHolds(s: State, t: State, a: nat, e: Effect, i: nat, b: nat)
    requires SlotLocksAgree(s) && Moved(s, t, a, e) && i < |t.slotLock| && t.slotLock[i] == Some(b)
    ensures b in t.actors && HeldSlot(|s.cells|, t.actors[b]) == Some(i)
  {
    hide HeldSlot, PcOk, StorageMoved, StateLockMoved;
    var n := |s.cells|;
    if s.slotLock[i] == Some(b) {
      assert b in s.actors && HeldSlot(n, s.actors[b]) == Some(i);
    }
  }

  lemma HeldIsLocked(s: State, t: State, a: nat, e: Effect, b: nat)
    requires SlotLocksAgree(s) && Moved(s, t, a, e) && b in t.actors && HeldSlot(|s.cells|, t.actors[b]).Some?
    ensures HeldSlot(|s.cells|, t.actors[b]).value < |t.slotLock| && t.slotLock[HeldSlot(|s.cells|, t.actors[b]).value] == Some(b)
  {
    hide HeldSlot, PcOk, StorageMoved, StateLockMoved;
    var n := |s.cells|;
    if b != a {
      assert b in s.actors && t.actors[b] == s.actors[b];
      assert s.slotLock[HeldSlot(n, s.actors[b]).value] == Some(b);
    } else if HeldSlot(n, s.actors[a]) == HeldSlot(n, t.actors[a]) {
      assert s.slotLock[HeldSlot(n, s.actors[a]).value] == Some(a);
    }
  }

  lemma StateLockKept(s: State, t: State, a: nat, e: Effect)
    requires StateLockAgrees(s) && Moved(s, t, a, e)
    ensures StateLockAgrees(t)
  {
    hide HoldsState, PcOk, StorageMoved, SlotLockMoved;
  }

  lemma OwnersKept(s: State, t: State, a: nat, e: Effect)
    requires BuffersOwned(s) && Moved(s, t, a, e)
    ensures BuffersOwned(t)
  {
    hide HeldSlot, HoldsState, Owned, LeaseOf, Reservation, Committed, LeaseReturned, FitsOp, PcOk, SlotLockMoved, StateLockMoved;
    forall i | 0 <= i < |t.cells| && t.cells[i] == None
      ensures exists b :: b in t.actors && Owned(t.actors[b]) == Some(i)
    {
      if s.cells[i] == None {
        var b :| b in s.actors && Owned(s.actors[b]) == Some(i);
        assert b in t.actors && Owned(t.actors[b]) == Some(i);
      } else {
        assert Owned(t.actors[a]) == Some(i);
      }
    }
  }

  lemma CellsKept(s: State, t: State, a: nat, e: Effect)
    requires CellsOk(s) && ReadyOk(s) && Moved(s, t, a, e)
    requires Owned(s.actors[a]).Some? ==> Owned(s.actors[a]).value < |s.cells| && s.cells[Owned(s.actors[a]).value] == None
    ensures CellsOk(t)
  {
    hide HeldSlot, HoldsState, Owned, LeaseOf, Reservation, Committed, LeaseReturned, FitsOp, PcOk,
      SlotLockMoved, StateLockMoved;
    forall j | 0 <= j < |t.cells| && t.cells[j].Some?
      ensures t.cells[j].value.Ok(j, t.limit) && t.cells[j].value.credit.phase in {Free, Ready}
      ensures t.cells[j].value.credit.phase == Ready <==> exists k :: 0 <= k < |t.ready| && t.ready[k].0 == j
    {
      CellKept(s, t, a, e, j);
    }
  }

  lemma CellKept(s: State, t: State, a: nat, e: Effect, j: nat)
    requires CellsOk(s) && ReadyOk(s) && Moved(s, t, a, e)
    requires Owned(s.actors[a]).Some? ==> Owned(s.actors[a]).value < |s.cells| && s.cells[Owned(s.actors[a]).value] == None
    requires j < |t.cells| && t.cells[j].Some?
    ensures t.cells[j].value.Ok(j, t.limit) && t.cells[j].value.credit.phase in {Free, Ready}
    ensures t.cells[j].value.credit.phase == Ready <==> exists k :: 0 <= k < |t.ready| && t.ready[k].0 == j
  {
    hide HeldSlot, HoldsState, Owned, LeaseOf, Reservation, Committed, LeaseReturned, FitsOp, PcOk,
      SlotLockMoved, StateLockMoved;
    if e.Commits? {
      assert t.ready[|s.ready|] == (e.i, s.order.next);
      assert forall k :: 0 <= k < |s.ready| ==> t.ready[k] == s.ready[k];
    } else if e.Takes? {
      assert forall k :: 0 <= k < |t.ready| ==> t.ready[k] == s.ready[k + 1];
      assert forall k :: 0 < k < |s.ready| ==> t.ready[k - 1] == s.ready[k];
    }
  }

  lemma ReadyKept(s: State, t: State, a: nat, e: Effect)
    requires CellsOk(s) && ReadyOk(s) && Moved(s, t, a, e)
    requires Owned(s.actors[a]).Some? ==> Owned(s.actors[a]).value < |s.cells| && s.cells[Owned(s.actors[a]).value] == None
    ensures ReadyOk(t)
  {
    hide Moved, ReadyOk;
    ReadyElsewhere(s, t, a, e);
    hide CellsOk, Owned;
    match e
    case Commits(_) => ReadyCommits(s, t, a, e);
    case Takes(_) => ReadyTakes(s, t, a, e);
    case _ => ReadyStill(s, t, a, e);
  }

  /** The cell a step touches is not one of the ready ones, the front of a take aside. */
  lemma ReadyElsewhere(s: State, t: State, a: nat, e: Effect)
    requires CellsOk(s) && ReadyOk(s) && Moved(s, t, a, e)
    requires Owned(s.actors[a]).Some? ==> Owned(s.actors[a]).value < |s.cells| && s.cells[Owned(s.actors[a]).value] == None
    ensures !e.Quiet? ==> forall k :: 0 <= k < |s.ready| && !(e.Takes? && k == 0) ==> s.ready[k].0 != e.i
  {
    hide HeldSlot, HoldsState, Owned, LeaseOf, Reservation, Committed, LeaseReturned, FitsOp, PcOk, SlotLockMoved, StateLockMoved,
      CellsOk;
    if e.Reserves? {
      assert s.cells[e.i].value.credit.phase != Ready;
      NotReady(s, e.i);
    }
  }

  lemma ReadyStill(s: State, t: State, a: nat, e: Effect)
    requires ReadyOk(s) && Moved(s, t, a, e)
    requires !e.Quiet? ==> forall k :: 0 <= k < |s.ready| && !(e.Takes? && k == 0) ==> s.ready[k].0 != e.i
    requires !e.Commits? && !e.Takes?
    ensures ReadyOk(t)
  {
    hide HeldSlot, HoldsState, Owned, LeaseOf, Reservation, Committed, LeaseReturned, FitsOp, PcOk, SlotLockMoved, StateLockMoved;
  }

  lemma ReadyCommits(s: State, t: State, a: nat, e: Effect)
    requires ReadyOk(s) && Moved(s, t, a, e)
    requires !e.Quiet? ==> forall k :: 0 <= k < |s.ready| && !(e.Takes? && k == 0) ==> s.ready[k].0 != e.i
    requires e.Commits?
    ensures ReadyOk(t)
  {
    hide HeldSlot, HoldsState, Owned, LeaseOf, Reservation, Committed, LeaseReturned, FitsOp, PcOk, SlotLockMoved, StateLockMoved;
  }

  lemma ReadyTakes(s: State, t: State, a: nat, e: Effect)
    requires ReadyOk(s) && Moved(s, t, a, e)
    requires !e.Quiet? ==> forall k :: 0 <= k < |s.ready| && !(e.Takes? && k == 0) ==> s.ready[k].0 != e.i
    requires e.Takes?
    ensures ReadyOk(t)
  {
    hide HeldSlot, HoldsState, Owned, LeaseOf, Reservation, Committed, LeaseReturned, FitsOp, PcOk, SlotLockMoved, StateLockMoved;
    assert forall k :: 0 <= k < |t.ready| ==> t.ready[k] == s.ready[k + 1];
  }

  lemma NotReady(s: State, i: nat)
    requires CellsOk(s) && i < |s.cells| && s.cells[i].Some? && s.cells[i].value.credit.phase != Ready
    ensures forall k :: 0 <= k < |s.ready| ==> s.ready[k].0 != i
  {
  }

  lemma LogKept(s: State, t: State, a: nat, e: Effect)
    requires LogOk(s) && ReadyOk(s) && Moved(s, t, a, e)
    ensures LogOk(t)
  {
    hide HeldSlot, HoldsState, Owned, LeaseOf, Reservation, Committed, LeaseReturned, FitsOp, PcOk,
      SlotLockMoved, StateLockMoved;
    assert forall k :: 0 <= k < |s.log| ==> t.log[k] == s.log[k];
    forall b | b in t.actors && Committed(t.actors[b])
      ensures exists k :: 0 <= k < |t.log| && t.log[k].actor == b
    {
      CommittedKept(s, t, a, e, b);
    }
  }

  lemma CommittedKept(s: State, t: State, a: nat, e: Effect, b: nat)
    requires LogOk(s) && Moved(s, t, a, e) && b in t.actors && Committed(t.actors[b])
    ensures exists k :: 0 <= k < |t.log| && t.log[k].actor == b
  {
    hide HeldSlot, HoldsState, Owned, LeaseOf, Reservation, Committed, LeaseReturned, FitsOp, PcOk, SlotLockMoved, StateLockMoved;
    if b == a && e.Commits? {
      assert t.log[|s.log|].actor == b;
    } else {
      var k :| 0 <= k < |s.log| && s.log[k].actor == b;
      assert t.log[k] == s.log[k];
    }
  }

  lemma TakenKept(s: State, t: State, a: nat, e: Effect)
    requires TakenOk(s) && Moved(s, t, a, e)
    ensures TakenOk(t)
  {
    hide HeldSlot, HoldsState, Owned, LeaseOf, Reservation, Committed, LeaseReturned, FitsOp, PcOk,
      SlotLockMoved, StateLockMoved;
    assert forall k :: 0 <= k < |s.taken| ==> t.taken[k] == s.taken[k];
  }

  /** What a counter relies on is out of reach of the other actors. */
  lemma OtherPcKept(s: State, t: State, a: nat, e: Effect, b: nat)
    requires StateLockAgrees(s) && ReadyOk(s) && |s.taken| == s.order.head && Moved(s, t, a, e)
    requires b in s.actors && b != a && PcOk(s, b, s.actors[b])
    ensures PcOk(t, b, s.actors[b])
  {
    hide HeldSlot, LeaseOf, Reservation, Owned, Committed, LeaseReturned, FitsOp, SlotLockMoved, StateLockMoved;
    assert t.log[..|s.log|] == s.log && t.taken[..|s.taken|] == s.taken;
    if s.actors[b].Taking? {
      assert HoldsState(s.actors[b]) && s.stateLock == Some(b);
      assert !HoldsState(s.actors[a]);
    }
  }

  lemma PcsKept(s: State, t: State, a: nat, e: Effect)
    requires StateLockAgrees(s) && ReadyOk(s) && TakenOk(s) && Moved(s, t, a, e)
    requires forall b :: b in s.actors ==> PcOk(s, b, s.actors[b])
    ensures forall b :: b in t.actors ==> PcOk(t, b, t.actors[b])
  {
    hide PcOk, StorageMoved, StateLockMoved, SlotLockMoved;
    forall b | b in t.actors && b != a
      ensures PcOk(t, b, t.actors[b])
    {
      OtherPcKept(s, t, a, e, b);
    }
  }

  lemma LeasedKept(s: State, t: State, a: nat, e: Effect)
    requires s.leased == |Leases(s)| && Moved(s, t, a, e)
    ensures t.leased == |Leases(t)|
  {
    hide HeldSlot, HoldsState, Owned, LeaseOf, Reservation, Committed, LeaseReturned, FitsOp, PcOk;
    if e.Takes? {
      assert Leases(t) == Leases(s) + {a};
    } else if e.Releases? {
      assert Leases(t) == Leases(s) - {a};
    } else {
      assert Leases(t) == Leases(s);
    }
  }

  lemma OwnerFacts(s: State, a: nat)
    requires BuffersOwned(s) && a in s.actors
    ensures Owned(s.actors[a]).Some? ==> Owned(s.actors[a]).value < |s.cells| && s.cells[Owned(s.actors[a]).value] == None
  {
    hide Owned;
  }

  lemma MoveFrame(s: State, t: State, a: nat, e: Effect)
    requires Moved(s, t, a, e)
    ensures a in s.actors && |t.cells| == |s.cells| == |t.slotLock| && !t.fault
  {
    hide PcOk, StorageMoved, StateLockMoved;
  }

  lemma MoveKeepsInv(s: State, t: State, a: nat, e: Effect)
    requires Inv(s) && Moved(s, t, a, e)
    ensures Inv(t)
  {
    hide Moved, SlotLocksAgree, StateLockAgrees, BuffersOwned, CellsOk, LogOk, PcOk;
    MoveFrame(s, t, a, e);
    SlotLocksKept(s, t, a, e);
    StateLockKept(s, t, a, e);
    OwnersKept(s, t, a, e);
    OwnerFacts(s, a);
    CellsKept(s, t, a, e);
    ReadyKept(s, t, a, e);
    LogKept(s, t, a, e);
    TakenKept(s, t, a, e);
    PcsKept(s, t, a, e);
    LeasedKept(s, t, a, e);
  }

  // ---------------------------------------------------------------- counting slots

  function LeaseSlots(s: State): map<nat, nat> {
    map a | a in s.actors && LeaseOf(s.actors[a]).Some? :: LeaseOf(s.actors[a]).value.index
  }

  function ReadySlots(s: State): map<nat, nat> {
    map k | 0 <= k < |s.ready| :: s.ready[k].0
  }

  lemma OwnedAlone(s: State, a: nat, b: nat)
    requires BuffersOwned(s) && a in s.actors && b in s.actors
    requires Owned(s.actors[a]).Some? && Owned(s.actors[a]) == Owned(s.actors[b])
    ensures a == b
  {
    hide Owned;
  }

  /** Live leases are charged to different slots, none of them in its cell. */
  lemma LeasesCharged(s: State)
    requires Inv(s)
    ensures |LeaseSlots(s).Values| == s.leased
    ensures forall i :: i in LeaseSlots(s).Values ==> i < |s.cells| && s.cells[i] == None
  {
    hide Inv, LeaseOf, Reservation, BuffersOwned, PcOk, Owned;
    InvOwners(s);
    var l := LeaseSlots(s);
    assert l.Keys == Leases(s);
    assert |l| == |l.Keys|;
    forall a | a in l
      ensures Owned(s.actors[a]) == Some(l[a]) && l[a] < |s.cells| && s.cells[l[a]] == None
    {
      LeaseOwned(s, a);
    }
    forall a, b | a in l && b in l && l[a] == l[b]
      ensures a == b
    {
      OwnedAlone(s, a, b);
    }
    InjectiveImageSize(l);
  }

  lemma InvOwners(s: State)
    requires Inv(s)
    ensures BuffersOwned(s) && s.leased == |Leases(s)|
  {
  }

  lemma LeaseOwned(s: State, a: nat)
    requires BuffersOwned(s) && a in s.actors && LeaseOf(s.actors[a]).Some?
    ensures var i := LeaseOf(s.actors[a]).value.index;
            Owned(s.actors[a]) == Some(i) && i < |s.cells| && s.cells[i] == None
  {
    hide LeaseOf, Reservation;
  }

  /** Ready entries are charged to different slots, each holding its record. */
  lemma ReadyCharged(s: State)
    requires CellsOk(s) && ReadyOk(s)
    ensures |ReadySlots(s).Values| == |s.ready|
    ensures forall i :: i in ReadySlots(s).Values
              ==> i < |s.cells| && s.cells[i].Some? && s.cells[i].value.credit.phase == Ready
  {
    ReadyDiffer(s);
    var r := ReadySlots(s);
    assert r.Keys == Below(|s.ready|);
    hide CellsOk, ReadyOk, ReadySlots;
    assert |r| == |r.Keys|;
    InjectiveImageSize(r);
  }

  lemma ReadyDiffer(s: State)
    requires CellsOk(s) && ReadyOk(s)
    ensures var r := ReadySlots(s); forall j, k :: j in r && k in r && r[j] == r[k] ==> j == k
    ensures forall i :: i in ReadySlots(s).Values
              ==> i < |s.cells| && s.cells[i].Some? && s.cells[i].value.credit.phase == Ready
  {
  }

  /** Charges never exceed the slots; when they reach them, every slot is ready or leased. */
  lemma ChargesBounded(s: State)
    requires Inv(s)
    ensures |s.ready| + s.leased <= |s.cells|
    ensures |s.ready| + s.leased == |s.cells| ==> AllCharged(s)
  {
    hide Inv, LeaseOf, LeaseSlots, ReadySlots;
    var l, r := ChargedSlots(s);
    SubsetSize(l + r, Below(|s.cells|));
    if |s.ready| + s.leased == |s.cells| {
      forall i | 0 <= i < |s.cells|
        ensures Charged(s, i)
      {
        assert i in l + r;
        ChargedMeaning(s, i);
      }
    }
  }

  lemma ChargedMeaning(s: State, i: nat)
    requires Inv(s) && i < |s.cells|
    requires i in LeaseSlots(s).Values || i in ReadySlots(s).Values
    ensures Charged(s, i)
  {
    hide Inv, LeaseOf;
    if i in LeaseSlots(s).Values {
      var a :| a in LeaseSlots(s) && LeaseSlots(s)[a] == i;
      assert a in s.actors && LeaseOf(s.actors[a]).Some? && LeaseOf(s.actors[a]).value.index == i;
    } else {
      InvStorage(s);
      ReadyCharged(s);
    }
  }

  lemma InvStorage(s: State)
    requires Inv(s)
    ensures CellsOk(s) && ReadyOk(s)
  {
  }

  lemma ChargedSlots(s: State) returns (l: set<nat>, r: set<nat>)
    requires Inv(s)
    ensures l == LeaseSlots(s).Values && r == ReadySlots(s).Values
    ensures l !! r && l + r <= Below(|s.cells|) && |l + r| == s.leased + |s.ready|
    ensures forall i :: i in l ==> s.cells[i] == None
    ensures forall i :: i in r ==> s.cells[i].Some?
  {
    hide Inv, LeaseSlots, ReadySlots;
    LeasesCharged(s);
    InvStorage(s);
    hide CellsOk, ReadyOk;
    ReadyCharged(s);
    l, r := LeaseSlots(s).Values, ReadySlots(s).Values;
  }

  /** While a reservation is out, some slot is neither ready nor leased. */
  lemma ReservationUncharged(s: State, a: nat)
    requires Inv(s) && a in s.actors && Reservation(s.actors[a]).Some? && LeaseOf(s.actors[a]) == None
    ensures |s.ready| + s.leased < |s.cells|
  {
    hide Inv, LeaseOf, Reservation, BuffersOwned;
    var l, r := ChargedSlots(s);
    InvOwners(s);
    var i := Reservation(s.actors[a]).value.index;
    OwnerFacts(s, a);
    assert i !in l + r by {
      if i in l {
        var b :| b in LeaseSlots(s) && LeaseSlots(s)[b] == i;
        LeaseOwned(s, b);
        OwnedAlone(s, a, b);
      }
    }
    SubsetSize(l + r + {i}, Below(|s.cells|));
  }

  ghost predicate AllCharged(s: State) {
    forall i :: 0 <= i < |s.cells| ==> Charged(s, i)
  }

  /** A slot whose record waits in the queue or is out on a lease. */
  ghost predicate Charged(s: State, i: nat)
    requires i < |s.cells|
  {
    || (s.cells[i].Some? && s.cells[i].value.credit.phase == Ready)
    || exists a :: a in s.actors && LeaseOf(s.actors[a]).Some? && LeaseOf(s.actors[a]).value.index == i
  }

  // ---------------------------------------------------------------- one actor's view

  /** What the invariant says about one actor, its locks and the head of the queue, without quantifiers. */
  ghost predicate Local(s: State, a: nat) {
    && Fit(s, a) && a in s.ops && !s.fault && PcOk(s, a, s.actors[a])
    && (var h := HeldSlot(|s.cells|, s.actors[a]);
        h.Some? ==> h.value < |s.slotLock| && s.slotLock[h.value] == Some(a)
                    && (s.cells[h.value].Some? ==> CellOk(s, h.value)))
    && (HoldsState(s.actors[a]) ==> s.stateLock == Some(a))
    && (var o := Owned(s.actors[a]); o.Some? ==> o.value < |s.cells| && s.cells[o.value] == None)
    && s.order.head + |s.ready| == s.order.next == |s.log| <= U64_MAX && |s.taken| == s.order.head
    && |s.ready| + s.leased <= |s.cells|
    && (LeaseOf(s.actors[a]).Some? ==> s.leased > 0)
    && (Reservation(s.actors[a]).Some? && LeaseOf(s.actors[a]) == None ==> |s.ready| + s.leased < |s.cells|)
    && (s.ready != [] ==> HeadOk(s))
  }

  predicate CellOk(s: State, i: nat)
    requires i < |s.cells| && s.cells[i].Some?
  {
    s.cells[i].value.Ok(i, s.limit) && s.cells[i].value.credit.phase in {Free, Ready}
  }

  predicate HeadOk(s: State)
    requires s.ready != []
  {
    var (i, ticket) := s.ready[0];
    && ticket == s.order.head < |s.log| && i < |s.cells| && s.cells[i].Some? && s.cells[i].value.Ok(i, s.limit)
    && s.cells[i].value.credit.phase == Ready && s.cells[i].value.Payload() == s.log[ticket].bytes
  }

  lemma LockFacts(s: State, a: nat)
    requires LocksAgree(s) && a in s.actors
    ensures var h := HeldSlot(|s.cells|, s.actors[a]);
            h.Some? ==> h.value < |s.slotLock| && s.slotLock[h.value] == Some(a)
    ensures HoldsState(s.actors[a]) ==> s.stateLock == Some(a)
  {
    hide HeldSlot, HoldsState;
  }

  lemma HeadHolds(s: State)
    requires CellsOk(s) && ReadyOk(s) && s.ready != []
    ensures HeadOk(s)
  {
    assert s.cells[s.ready[0].0].value.credit.phase == Ready;
  }

  lemma PcFits(s: State, a: nat)
    requires 0 < |s.cells| == |s.slotLock| && a in s.actors && PcOk(s, a, s.actors[a])
    ensures Fit(s, a)
  {
  }

  lemma LocalHolds(s: State, a: nat)
    requires Inv(s) && a in s.actors
    ensures Local(s, a)
  {
    hide HeldSlot, HoldsState, Owned, LeaseOf, Reservation, PcOk, HeadOk, Fit, LogOk, BuffersOwned;
    PcFits(s, a);
    LockFacts(s, a);
    OwnerFacts(s, a);
    ChargesBounded(s);
    assert LeaseOf(s.actors[a]).Some? ==> a in Leases(s);
    if Reservation(s.actors[a]).Some? && LeaseOf(s.actors[a]) == None {
      ReservationUncharged(s, a);
    }
    if s.ready != [] {
      HeadHolds(s);
    }
    assert a in s.ops by { PcCalled(s, a, s.actors[a]); }
  }

  lemma PcCalled(s: State, a: nat, pc: Pc)
    requires PcOk(s, a, pc)
    ensures a in s.ops
  {
  }

  // ---------------------------------------------------------------- the steps, one by one

  lemma Conclude(s: State, t: State, a: nat, e: Effect)
    requires a in s.actors && a in t.actors && t.actors == s.actors[a := t.actors[a]]
    requires t.ops == s.ops && t.limit == s.limit && |t.cells| == |s.cells| && !t.fault
    requires SlotLockMoved(s, t, a, s.actors[a], t.actors[a])
    requires StateLockMoved(s, t, a, s.actors[a], t.actors[a])
    requires StorageMoved(s, t, a, s.actors[a], t.actors[a], e)
    requires PcOk(t, a, t.actors[a])
    ensures Moved(s, t, a, e)
  {
    hide SlotLockMoved, StateLockMoved, StorageMoved, PcOk;
  }

  lemma RecordMoves(s: State, a: nat) returns (e: Effect)
    requires Local(s, a)
    requires s.actors[a].RecordStart? || s.actors[a].FetchProbe? || s.actors[a].Probing?
    ensures Moved(s, AdvanceRecord(s, a), a, e)
  {
    hide Moved;
    e := Quiet;
    var t := AdvanceRecord(s, a);
    Conclude(s, t, a, e);
  }

  lemma ProbeMoves(s: State, a: nat) returns (e: Effect)
    requires Local(s, a) && s.actors[a].CellLocked?
    ensures Moved(s, AdvanceRecord(s, a), a, e)
  {
    hide Moved;
    e := Quiet;
    var i := ProbedSlot(|s.cells|, s.actors[a].start, s.actors[a].offset);
    if s.cells[i].Some? && s.cells[i].value.credit.Reserve().Some? {
      e := Reserves(i);
    }
    var t := AdvanceRecord(s, a);
    Conclude(s, t, a, e);
  }

  lemma EncodeMoves(s: State, a: nat) returns (e: Effect)
    requires Local(s, a) && s.actors[a].Encoding?
    ensures Moved(s, AdvanceCommit(s, a), a, e)
  {
    hide Moved, Encode;
    var o, h := s.actors[a].o, s.actors[a].res;
    EncodeMeaning(h.buffer.bytes, o);
    var (bytes, r) := Encode(h.buffer.bytes, o);
    var t := AdvanceCommit(s, a);
    var p, q := s.actors[a], t.actors[a];
    e := Quiet;
    if r.Ok? {
      assert Encoded(t, a, o, q.res, q.len);
    } else {
      assert RejectOk(t, a, q.reason, q.held);
    }
    Conclude(s, t, a, e);
  }

  lemma PublishMoves(s: State, a: nat) returns (e: Effect)
    requires Local(s, a) && s.actors[a].Publishing?
    ensures Moved(s, AdvanceCommit(s, a), a, e)
  {
    hide Moved;
    e := Quiet;
    var t := AdvanceCommit(s, a);
    Conclude(s, t, a, e);
  }

  lemma CommitMoves(s: State, a: nat) returns (e: Effect)
    requires Local(s, a) && s.actors[a].Committing?
    ensures Moved(s, AdvanceCommit(s, a), a, e)
  {
    hide Moved, AdvanceCommit, CellOk, HeadOk, PcOk, HeldSlot, Owned, LeaseOf, Reservation;
    if !s.closed && s.order.next < U64_MAX {
      e := Commits(s.actors[a].res.index);
      CommitPublishes(s, a);
    } else {
      e := Quiet;
      CommitRefuses(s, a);
    }
  }

  lemma CommitPublishes(s: State, a: nat)
    requires Local(s, a) && s.actors[a].Committing? && !s.closed && s.order.next < U64_MAX
    ensures Moved(s, AdvanceCommit(s, a), a, Commits(s.actors[a].res.index))
  {
    hide Moved, CellOk, HeadOk;
    Conclude(s, AdvanceCommit(s, a), a, Commits(s.actors[a].res.index));
  }

  lemma CommitRefuses(s: State, a: nat)
    requires Local(s, a) && s.actors[a].Committing? && (s.closed || s.order.next >= U64_MAX)
    ensures Moved(s, AdvanceCommit(s, a), a, Quiet)
  {
    hide Moved, CellOk, HeadOk;
    Conclude(s, AdvanceCommit(s, a), a, Quiet);
  }

  lemma RejectMoves(s: State, a: nat) returns (e: Effect)
    requires Local(s, a) && s.actors[a].Rejecting?
    ensures Moved(s, AdvanceReject(s, a), a, e)
  {
    hide Moved;
    e := Quiet;
    if s.stateLock.Some? {
      RejectContended(s, a);
    } else {
      RejectAcquires(s, a);
    }
  }

  lemma RejectContended(s: State, a: nat)
    requires Local(s, a) && s.actors[a].Rejecting? && s.stateLock.Some?
    ensures Moved(s, AdvanceReject(s, a), a, Quiet)
  {
    hide Moved, CellOk, HeadOk, FitsOp;
    Conclude(s, AdvanceReject(s, a), a, Quiet);
  }

  lemma RejectAcquires(s: State, a: nat)
    requires Local(s, a) && s.actors[a].Rejecting? && s.stateLock == None
    ensures Moved(s, AdvanceReject(s, a), a, Quiet)
  {
    hide Moved, CellOk, HeadOk, FitsOp;
    Conclude(s, AdvanceReject(s, a), a, Quiet);
  }

  lemma CountMoves(s: State, a: nat) returns (e: Effect)
    requires Local(s, a) && s.actors[a].Counting?
    ensures Moved(s, AdvanceReject(s, a), a, e)
  {
    hide Moved, SlotLockMoved, StateLockMoved, StorageMoved;
    e := Quiet;
    var t := AdvanceReject(s, a);
    CountLocks(s, a);
    hide CellOk, HeadOk, FitsOp;
    Conclude(s, t, a, e);
  }

  lemma CountLocks(s: State, a: nat)
    requires Local(s, a) && s.actors[a].Counting?
    ensures var t := AdvanceReject(s, a);
      && a in t.actors && SlotLockMoved(s, t, a, s.actors[a], t.actors[a])
      && StateLockMoved(s, t, a, s.actors[a], t.actors[a]) && StorageMoved(s, t, a, s.actors[a], t.actors[a], Quiet)
  {
    hide CellOk, HeadOk, FitsOp;
  }

  lemma EnterMoves(s: State, a: nat) returns (e: Effect)
    requires Local(s, a) && (s.actors[a].DequeueStart? || s.actors[a].DequeueLock?)
    ensures Moved(s, AdvanceDequeue(s, a), a, e)
  {
    hide Moved;
    e := Quiet;
    Conclude(s, AdvanceDequeue(s, a), a, e);
  }

  lemma PeekMoves(s: State, a: nat) returns (e: Effect)
    requires Local(s, a) && s.actors[a].Peeking?
    ensures Moved(s, AdvanceDequeue(s, a), a, e)
  {
    hide Moved;
    e := Quiet;
    Conclude(s, AdvanceDequeue(s, a), a, e);
  }

  lemma TakeMoves(s: State, a: nat) returns (e: Effect)
    requires Local(s, a) && s.actors[a].Taking?
    ensures Moved(s, AdvanceDequeue(s, a), a, e)
  {
    hide Moved;
    e := Takes(s.actors[a].index);
    Conclude(s, AdvanceDequeue(s, a), a, e);
  }

  lemma ShutdownMoves(s: State, a: nat) returns (e: Effect)
    requires Local(s, a) && s.actors[a].ShutdownStart?
    ensures Moved(s, AdvanceShutdown(s, a), a, e)
  {
    hide Moved;
    e := Quiet;
    Conclude(s, AdvanceShutdown(s, a), a, e);
  }

  lemma ClosingMoves(s: State, a: nat) returns (e: Effect)
    requires Local(s, a) && s.actors[a].Closing?
    ensures Moved(s, AdvanceShutdown(s, a), a, e)
  {
    hide Moved;
    e := Quiet;
    Conclude(s, AdvanceShutdown(s, a), a, e);
  }

  lemma DropMoves(s: State, a: nat) returns (e: Effect)
    requires Local(s, a) && (s.actors[a].DropSlot? || s.actors[a].DropState?)
    ensures AdvanceDrop(s, a) == s || Moved(s, AdvanceDrop(s, a), a, e)
  {
    hide Moved;
    e := Quiet;
    if AdvanceDrop(s, a) != s {
      Conclude(s, AdvanceDrop(s, a), a, e);
    }
  }

  lemma ReturnMoves(s: State, a: nat) returns (e: Effect)
    requires Local(s, a) && s.actors[a].Dropping?
    ensures Moved(s, AdvanceDrop(s, a), a, e)
  {
    hide Moved;
    e := Releases(s.actors[a].lease.index);
    Conclude(s, AdvanceDrop(s, a), a, e);
  }

  lemma UnwindMoves(s: State, a: nat) returns (e: Effect)
    requires Local(s, a) && s.actors[a].Unwind?
    ensures Moved(s, AdvanceUnwind(s, a), a, e)
  {
    hide Moved;
    var pc := s.actors[a];
    var t := AdvanceUnwind(s, a);
    if pc.restore.Some? && !(pc.state && (!pc.slotFirst || pc.slot == None)) {
      e := Restores(pc.slot.value);
      RestoreMoves(s, a);
    } else {
      e := Quiet;
      if pc.state && (!pc.slotFirst || pc.slot == None) {
        StateGuardMoves(s, a);
      } else {
        SlotGuardMoves(s, a);
      }
    }
  }

  lemma RestoreMoves(s: State, a: nat)
    requires Local(s, a) && s.actors[a].Unwind?
    requires var pc := s.actors[a]; pc.restore.Some? && !(pc.state && (!pc.slotFirst || pc.slot == None))
    ensures Moved(s, AdvanceUnwind(s, a), a, Restores(s.actors[a].slot.value))
  {
    hide Moved;
    var t := AdvanceUnwind(s, a);
    var p, q := s.actors[a], t.actors[a];
    Conclude(s, t, a, Restores(p.slot.value));
  }

  lemma StateGuardMoves(s: State, a: nat)
    requires Local(s, a) && s.actors[a].Unwind?
    requires s.actors[a].state && (!s.actors[a].slotFirst || s.actors[a].slot == None)
    ensures Moved(s, AdvanceUnwind(s, a), a, Quiet)
  {
    hide Moved, CellOk, HeadOk, FitsOp;
    Conclude(s, AdvanceUnwind(s, a), a, Quiet);
  }

  lemma SlotGuardMoves(s: State, a: nat)
    requires Local(s, a) && s.actors[a].Unwind?
    requires !(s.actors[a].state && (!s.actors[a].slotFirst || s.actors[a].slot == None))
    requires s.actors[a].restore == None
    ensures Moved(s, AdvanceUnwind(s, a), a, Quiet)
  {
    hide Moved, AdvanceUnwind, PcOk, CellOk, HeadOk, HeldSlot, Owned, LeaseOf, Reservation;
    if s.actors[a].slot.Some? {
      SlotUnlocks(s, a);
    } else {
      CallEnds(s, a);
    }
  }

  lemma SlotUnlocks(s: State, a: nat)
    requires Local(s, a) && s.actors[a].Unwind? && s.actors[a].restore == None && s.actors[a].slot.Some?
    requires !(s.actors[a].state && !s.actors[a].slotFirst)
    ensures Moved(s, AdvanceUnwind(s, a), a, Quiet)
  {
    hide Moved, CellOk, HeadOk, FitsOp;
    Conclude(s, AdvanceUnwind(s, a), a, Quiet);
  }

  lemma CallEnds(s: State, a: nat)
    requires Local(s, a) && s.actors[a].Unwind? && s.actors[a].restore == None && s.actors[a].slot == None && !s.actors[a].state
    ensures Moved(s, AdvanceUnwind(s, a), a, Quiet)
  {
    hide Moved, CellOk, HeadOk, FitsOp;
    Conclude(s, AdvanceUnwind(s, a), a, Quiet);
  }

  // ---------------------------------------------------------------- every schedule

  lemma InvokeKeeps(s: State, a: nat, op: Op)
    requires Inv(s)
    ensures Inv(Step(s, Invoke(a, op)))
  {
    hide Inv, HeldSlot, HoldsState, Owned, LeaseOf, Committed;
    if a !in s.actors {
      var t := Step(s, Invoke(a, op));
      var pc := t.actors[a];
      assert t == To(s, a, pc).(ops := s.ops[a := op]);
      FreshPc(|s.cells|, pc);
      FreshOk(t, a);
      InvokeFrame(s, t, a, op, pc);
    }
  }

  lemma FreshPc(n: nat, pc: Pc)
    requires pc.RecordStart? || pc.DequeueStart? || pc.ShutdownStart?
    ensures HeldSlot(n, pc) == None && !HoldsState(pc) && Owned(pc) == None && LeaseOf(pc) == None && !Committed(pc)
  {
  }

  lemma FreshOk(t: State, a: nat)
    requires a in t.actors && a in t.ops
    requires match t.ops[a]
             case Record(o) => t.actors[a] == RecordStart(o)
             case Dequeue => t.actors[a] == DequeueStart
             case Shutdown => t.actors[a] == ShutdownStart
    ensures PcOk(t, a, t.actors[a])
  {
  }

  lemma InvokeFrame(s: State, t: State, a: nat, op: Op, pc: Pc)
    requires Inv(s) && a !in s.actors && t == To(s, a, pc).(ops := s.ops[a := op])
    requires HeldSlot(|s.cells|, pc) == None && !HoldsState(pc) && Owned(pc) == None && LeaseOf(pc) == None
    requires !Committed(pc) && PcOk(t, a, pc)
    ensures Inv(t)
  {
    hide HeldSlot, HoldsState, Owned, LeaseOf, Committed, PcOk, LogOk, TakenOk, SlotLocksAgree, StateLockAgrees, BuffersOwned;
    InvokeLocks(s, t, a, pc);
    InvokeOwners(s, t, a, pc);
    InvokeHistory(s, t, a, op, pc);
    assert Leases(t) == Leases(s);
    forall b | b in t.actors
      ensures PcOk(t, b, t.actors[b])
    {
      if b != a {
        PcIgnoresCalls(s, a, op, pc, b);
      }
    }
  }

  lemma InvokeLocks(s: State, t: State, a: nat, pc: Pc)
    requires LocksAgree(s) && a !in s.actors && t.actors == s.actors[a := pc]
    requires t.slotLock == s.slotLock && t.stateLock == s.stateLock && |t.cells| == |s.cells|
    requires HeldSlot(|s.cells|, pc) == None && !HoldsState(pc)
    ensures LocksAgree(t)
  {
    hide HeldSlot, HoldsState, SlotLocksAgree;
    InvokeSlotLocks(s, t, a, pc);
  }

  lemma InvokeSlotLocks(s: State, t: State, a: nat, pc: Pc)
    requires SlotLocksAgree(s) && a !in s.actors && t.actors == s.actors[a := pc]
    requires t.slotLock == s.slotLock && |t.cells| == |s.cells|
    requires HeldSlot(|s.cells|, pc) == None
    ensures SlotLocksAgree(t)
  {
    hide HeldSlot;
    var n := |s.cells|;
    forall i, b | 0 <= i < |t.slotLock| && t.slotLock[i] == Some(b)
      ensures b in t.actors && HeldSlot(n, t.actors[b]) == Some(i)
    {
      assert b in s.actors && HeldSlot(n, s.actors[b]) == Some(i);
      assert b != a;
    }
    forall b | b in t.actors && HeldSlot(n, t.actors[b]).Some?
      ensures HeldSlot(n, t.actors[b]).value < |t.slotLock| && t.slotLock[HeldSlot(n, t.actors[b]).value] == Some(b)
    {
      assert b != a && t.actors[b] == s.actors[b];
      assert s.slotLock[HeldSlot(n, s.actors[b]).value] == Some(b);
    }
  }

  lemma InvokeOwners(s: State, t: State, a: nat, pc: Pc)
    requires BuffersOwned(s) && a !in s.actors && t.actors == s.actors[a := pc] && t.cells == s.cells
    requires Owned(pc) == None
    ensures BuffersOwned(t)
  {
    hide Owned;
    forall i | 0 <= i < |t.cells| && t.cells[i] == None
      ensures exists b :: b in t.actors && Owned(t.actors[b]) == Some(i)
    {
      var b :| b in s.actors && Owned(s.actors[b]) == Some(i);
      assert t.actors[b] == s.actors[b];
    }
  }

  lemma InvokeHistory(s: State, t: State, a: nat, op: Op, pc: Pc)
    requires LogOk(s) && TakenOk(s) && a !in s.actors && t == To(s, a, pc).(ops := s.ops[a := op]) && !Committed(pc)
    ensures LogOk(t) && TakenOk(t)
  {
    hide Committed, LeaseReturned, LeaseOf, FitsOp;
  }

  lemma PcIgnoresCalls(s: State, a: nat, op: Op, pc: Pc, b: nat)
    requires a !in s.actors && b in s.actors && PcOk(s, b, s.actors[b])
    ensures PcOk(To(s, a, pc).(ops := s.ops[a := op]), b, s.actors[b])
  {
    hide LeaseOf, Reservation, FitsOp;
  }

  /** Every step of every actor is one of the moves above. */
  lemma StepMoves(s: State, a: nat) returns (e: Effect)
    requires a in s.actors && Local(s, a)
    ensures Step(s, Advance(a)) == s || Moved(s, Step(s, Advance(a)), a, e)
  {
    hide Local, Moved, AdvanceRecord, AdvanceCommit, AdvanceReject, AdvanceDequeue, AdvanceShutdown, AdvanceDrop, AdvanceUnwind;
    e := Quiet;
    match s.actors[a]
    case RecordStart(_) => e := RecordMoves(s, a);
    case FetchProbe(_) => e := RecordMoves(s, a);
    case Probing(_, _, _, _) => e := RecordMoves(s, a);
    case CellLocked(_, _, _, _) => e := ProbeMoves(s, a);
    case Encoding(_, _) => e := EncodeMoves(s, a);
    case Publishing(_, _, _) => e := PublishMoves(s, a);
    case Committing(_, _, _) => e := CommitMoves(s, a);
    case Rejecting(_, _) => e := RejectMoves(s, a);
    case Counting(_, _) => e := CountMoves(s, a);
    case DequeueStart => e := EnterMoves(s, a);
    case DequeueLock => e := EnterMoves(s, a);
    case Peeking => e := PeekMoves(s, a);
    case Taking(_, _) => e := TakeMoves(s, a);
    case ShutdownStart => e := ShutdownMoves(s, a);
    case Closing => e := ClosingMoves(s, a);
    case DropSlot(_) => e := DropMoves(s, a);
    case DropState(_) => e := DropMoves(s, a);
    case Dropping(_) => e := ReturnMoves(s, a);
    case Unwind(_, _, _, _, _) => e := UnwindMoves(s, a);
    case Live(_) =>
    case Done(_) =>
  }

  lemma StepKeeps(s: State, move: Label)
    requires Inv(s)
    ensures Inv(Step(s, move))
  {
    hide Inv, Moved, Local, Fit;
    match move {
      case Invoke(a, op) => InvokeKeeps(s, a, op);
      case Advance(a) =>
        if a in s.actors {
          LocalHolds(s, a);
          var e := StepMoves(s, a);
          if Step(s, move) != s {
            MoveKeepsInv(s, Step(s, move), a, e);
          }
        } else {
          Stuck(s, a);
        }
      case Drop(a) =>
        if a in s.actors && s.actors[a].Live? {
          LocalHolds(s, a);
          DropBegins(s, a);
          MoveKeepsInv(s, Step(s, move), a, Quiet);
        }
    }
  }

  lemma Stuck(s: State, a: nat)
    requires a !in s.actors
    ensures Step(s, Advance(a)) == s
  {
  }

  lemma DropBegins(s: State, a: nat)
    requires Local(s, a) && s.actors[a].Live?
    ensures Moved(s, Step(s, Drop(a)), a, Quiet)
  {
    hide Moved;
    Conclude(s, Step(s, Drop(a)), a, Quiet);
  }

  lemma {:induction false} ExecKeeps(s: State, moves: seq<Label>)
    requires Inv(s)
    ensures Inv(Exec(s, moves))
    decreases |moves|
  {
    hide Inv, Step;
    if moves != [] {
      StepKeeps(s, moves[0]);
      ExecKeeps(Step(s, moves[0]), moves[1..]);
    }
  }

  lemma RunInv(slots: nat, limit: nat, moves: seq<Label>)
    requires slots > 0
    ensures Inv(Run(slots, limit, moves))
  {
    hide Inv, Init;
    InitInv(slots, limit);
    ExecKeeps(Init(slots, limit), moves);
  }

  lemma {:induction false} ExecJoin(s: State, m1: seq<Label>, m2: seq<Label>)
    ensures Exec(s, m1 + m2) == Exec(Exec(s, m1), m2)
    decreases |m1|
  {
    hide Step;
    if m1 == [] {
      assert m1 + m2 == m2;
    } else {
      assert (m1 + m2)[1..] == m1[1..] + m2;
      ExecJoin(Step(s, m1[0]), m1[1..], m2);
    }
  }
}
