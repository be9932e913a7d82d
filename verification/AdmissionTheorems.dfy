/** What the admission queue promises its callers, for every schedule. */
module AdmissionTheorems {
  import opened Common
  import opened Kernel
  import opened Admission
  import opened AdmissionInvariant

  // ---------------------------------------------------------------- the bounded FIFO it implements

  /** One atomic bounded queue with leases. Entry k of `queue` carries ticket `first + k`. */
  datatype Spec = Spec(capacity: nat, queue: seq<seq<byte>>, first: nat, held: map<nat, seq<byte>>, closed: bool)

  datatype Event = Internal | Enqueue(payload: seq<byte>) | Take | GiveBack(ticket: nat) | Close

  function SpecStep(q: Spec, event: Event): Option<Spec> {
    match event
    case Internal => Some(q)
    case Enqueue(payload) =>
      if q.closed || |q.queue| + |q.held| >= q.capacity || q.first + |q.queue| >= U64_MAX then None
      else Some(q.(queue := q.queue + [payload]))
    case Take =>
      if q.queue == [] then None
      else Some(q.(queue := q.queue[1..], first := q.first + 1, held := q.held[q.first := q.queue[0]]))
    case GiveBack(ticket) =>
      if ticket !in q.held then None else Some(q.(held := q.held - {ticket}))
    case Close => Some(q.(closed := true))
  }

  function SpecRun(q: Spec, events: seq<Event>): Option<Spec>
    decreases |events|
  {
    if events == [] then Some(q)
    else match SpecStep(q, events[0])
      case None => None
      case Some(next) => SpecRun(next, events[1..])
  }

  /** Where each operation takes effect. */
  function EventOf(s: State, move: Label): Event {
    if move.Advance? && move.actor in s.actors then
      match s.actors[move.actor]
      case Committing(_, h, len) =>
        if s.closed || s.order.next == U64_MAX then Internal else Enqueue(h.buffer.bytes[..Min(len, |h.buffer.bytes|)])
      case Taking(_, _) => Take
      case Dropping(l) => GiveBack(l.ticket)
      case Closing => Close
      case _ => Internal
    else Internal
  }

  function Trace(s: State, moves: seq<Label>): (events: seq<Event>)
    ensures |events| == |moves|
    decreases |moves|
  {
    if moves == [] then [] else [EventOf(s, moves[0])] + Trace(Step(s, moves[0]), moves[1..])
  }

  /** Live leases by ticket, with the bytes committed under it. */
  function HeldOf(s: State): map<nat, seq<byte>> {
    map t | 0 <= t < Min(|s.taken|, |s.log|) && s.taken[t] in s.actors && LeaseOf(s.actors[s.taken[t]]).Some? :: s.log[t].bytes
  }

  /** The bytes of the ready records, oldest first. */
  function QueueOf(s: State): seq<seq<byte>> {
    seq(|s.ready|, k requires 0 <= k => if s.order.head + k < |s.log| then s.log[s.order.head + k].bytes else [])
  }

  function Abs(s: State): Spec {
    Spec(|s.cells|, QueueOf(s), s.order.head, HeldOf(s), s.closed)
  }

  /** As many leases are outside as the counter says. */
  lemma HeldCount(s: State)
    requires Inv(s)
    ensures |HeldOf(s)| == s.leased
  {
    var who := Holders(s);
    HoldersDiffer(s);
    InjectiveImageSize(who);
    assert who.Keys == HeldOf(s).Keys;
    assert |who| == |who.Keys| && |HeldOf(s)| == |HeldOf(s).Keys|;
    HoldersAll(s);
    LeasedCount(s);
  }

  function Holders(s: State): map<nat, nat> {
    map t | t in HeldOf(s) :: s.taken[t]
  }

  lemma LeasedCount(s: State)
    requires Inv(s)
    ensures s.leased == |Leases(s)|
  {
    hide LocksAgree, BuffersOwned, CellsOk, LogOk, LeaseOf, Leases;
  }

  lemma HoldersDiffer(s: State)
    requires Inv(s)
    ensures var who := Holders(s); forall j, k :: j in who && k in who && who[j] == who[k] ==> j == k
  {
    hide LocksAgree, BuffersOwned, CellsOk, LogOk, LeaseOf;
  }

  lemma HoldersAll(s: State)
    requires Inv(s)
    ensures Holders(s).Values == Leases(s)
  {
    hide LocksAgree, BuffersOwned, CellsOk, LogOk, LeaseOf;
    var who := Holders(s);
    forall a | a in Leases(s)
      ensures a in who.Values
    {
      LeaseTicket(s, a);
      hide Inv;
      assert LeaseOf(s.actors[a]).value.ticket in who;
    }
    forall a | a in who.Values
      ensures a in Leases(s)
    {
    }
  }

  lemma LeaseTicket(s: State, a: nat)
    requires Inv(s) && a in s.actors && LeaseOf(s.actors[a]).Some?
    ensures var l := LeaseOf(s.actors[a]).value;
            l.ticket < |s.taken| && s.taken[l.ticket] == a && l.ticket in HeldOf(s) && HeldOf(s)[l.ticket] == l.buffer.Payload()
  {
    hide LocksAgree, BuffersOwned, CellsOk, LogOk, LeaseOf;
    assert PcOk(s, a, s.actors[a]);
  }

  lemma QuietAbs(s: State, t: State, a: nat, e: Effect)
    requires Inv(s) && Inv(t) && Moved(s, t, a, e)
    requires e.Quiet? || e.Reserves? || e.Restores?
    ensures Abs(t) == Abs(s).(closed := t.closed)
  {
    hide SlotLocksAgree, StateLockAgrees, BuffersOwned, CellsOk, LogOk, LeaseOf, PcOk, HeldSlot, HoldsState, Owned, Committed,
      LeaseReturned, Reservation, SlotLockMoved, StateLockMoved;
    assert HeldOf(t) == HeldOf(s);
  }

  lemma CommitAbs(s: State, t: State, a: nat, e: Effect)
    requires Inv(s) && Inv(t) && Moved(s, t, a, e) && e.Commits? && !s.closed && !t.closed
    requires |s.ready| + s.leased < |s.cells|
    ensures |t.log| > |s.log| && SpecStep(Abs(s), Enqueue(t.log[|s.log|].bytes)) == Some(Abs(t))
  {
    hide Moved, Inv, HeldOf, QueueOf;
    CommitMoved(s, t, a, e);
    HeldCount(s);
    CommitHeld(s, t, a, e);
    QueueGrows(s, t, t.log[|s.log|]);
  }

  lemma QueueGrows(s: State, t: State, entry: Entry)
    requires t.log == s.log + [entry] && |t.ready| == |s.ready| + 1 && t.order.head == s.order.head
    requires s.order.head + |s.ready| == |s.log|
    ensures QueueOf(t) == QueueOf(s) + [entry.bytes] && |QueueOf(s)| == |s.ready|
  {
  }

  /** What a commit does to the queue. */
  lemma CommitMoved(s: State, t: State, a: nat, e: Effect)
    requires Inv(s) && Inv(t) && Moved(s, t, a, e) && e.Commits?
    ensures |t.log| == |s.log| + 1 && t.log == s.log + [t.log[|s.log|]] && |t.cells| == |s.cells|
    ensures |t.ready| == |s.ready| + 1 && t.order == Fifo(s.order.head, s.order.next + 1) && s.order.next < U64_MAX
    ensures s.order.head + |s.ready| == s.order.next == |s.log| && t.taken == s.taken && t.leased == s.leased
  {
    hide LocksAgree, BuffersOwned, CellsOk, LogOk, TakenOk, LeaseOf, PcOk, HeldSlot, HoldsState, Owned, Committed,
      LeaseReturned, Reservation, SlotLockMoved, StateLockMoved, FitsOp;
  }

  lemma CommitHeld(s: State, t: State, a: nat, e: Effect)
    requires Inv(s) && Inv(t) && Moved(s, t, a, e) && e.Commits?
    ensures HeldOf(t) == HeldOf(s)
  {
    hide SlotLocksAgree, StateLockAgrees, BuffersOwned, CellsOk, LogOk, LeaseOf, PcOk, HeldSlot, HoldsState, Owned, Committed,
      LeaseReturned, Reservation, SlotLockMoved, StateLockMoved;
  }

  lemma TakeAbs(s: State, t: State, a: nat, e: Effect)
    requires Inv(s) && Inv(t) && Moved(s, t, a, e) && e.Takes? && s.closed == t.closed
    ensures SpecStep(Abs(s), Take) == Some(Abs(t))
  {
    hide SlotLocksAgree, StateLockAgrees, BuffersOwned, CellsOk, LogOk, LeaseOf, PcOk, HeldSlot, HoldsState, Owned, Committed,
      LeaseReturned, Reservation, SlotLockMoved, StateLockMoved;
    forall k | 0 <= k < |s.taken|
      ensures t.taken[k] == s.taken[k]
      ensures LeaseOf(t.actors[t.taken[k]]) == LeaseOf(s.actors[s.taken[k]])
    {
    }
    assert t.taken[|s.taken|] == a;
    assert HeldOf(t) == HeldOf(s)[s.order.head := s.log[s.order.head].bytes];
    QueuePops(s, t);
    hide Inv, HeldOf, Moved, QueueOf;
  }

  lemma QueuePops(s: State, t: State)
    requires s.ready != [] && t.ready == s.ready[1..] && t.order.head == s.order.head + 1 && t.log == s.log
    ensures |QueueOf(s)| > 0 && QueueOf(t) == QueueOf(s)[1..]
  {
  }

  lemma ReleaseAbs(s: State, t: State, a: nat, e: Effect)
    requires a in s.actors && LeaseOf(s.actors[a]).Some?
    requires Inv(s) && Inv(t) && Moved(s, t, a, e) && e.Releases? && s.closed == t.closed
    ensures SpecStep(Abs(s), GiveBack(LeaseOf(s.actors[a]).value.ticket)) == Some(Abs(t))
  {
    hide SlotLocksAgree, StateLockAgrees, BuffersOwned, CellsOk, LogOk, LeaseOf, PcOk, HeldSlot, HoldsState, Owned, Committed,
      LeaseReturned, Reservation, SlotLockMoved, StateLockMoved;
    LeaseTicket(s, a);
    var ticket := LeaseOf(s.actors[a]).value.ticket;
    assert HeldOf(t) == HeldOf(s) - {ticket};
  }

  /** Each step is the event it stands for. */
  lemma EventAbs(s: State, move: Label)
    requires Inv(s)
    ensures SpecStep(Abs(s), EventOf(s, move)) == Some(Abs(Step(s, move)))
  {
    hide Inv, Moved, Local, Abs, AdvanceRecord, AdvanceReject, AdvanceUnwind, SpecStep, Fit;
    StepKeeps(s, move);
    var t := Step(s, move);
    SpecInternal(Abs(s));
    match move {
      case Invoke(a, op) => InvokeAbs(s, a, op);
      case Drop(a) =>
        if a in s.actors && s.actors[a].Live? {
          LocalHolds(s, a);
          DropBegins(s, a);
          QuietAbs(s, t, a, Quiet);
          ClosedAbs(s, t);
        }
      case Advance(a) =>
        if a in s.actors {
          LocalHolds(s, a);
          AdvanceAbs(s, a);
        } else {
          Stuck(s, a);
        }
    }
  }

  lemma SpecInternal(q: Spec)
    ensures SpecStep(q, Internal) == Some(q)
  {
  }

  lemma InvokeAbs(s: State, a: nat, op: Op)
    requires Inv(s)
    ensures SpecStep(Abs(s), Internal) == Some(Abs(Step(s, Invoke(a, op))))
  {
    hide LocksAgree, BuffersOwned, CellsOk, LogOk, LeaseOf, PcOk;
    var t := Step(s, Invoke(a, op));
    assert forall k :: 0 <= k < |s.taken| ==> t.actors[s.taken[k]] == s.actors[s.taken[k]];
    assert HeldOf(t) == HeldOf(s);
  }

  lemma AdvanceAbs(s: State, a: nat)
    requires a in s.actors && Inv(s) && Local(s, a) && Inv(Step(s, Advance(a)))
    ensures SpecStep(Abs(s), EventOf(s, Advance(a))) == Some(Abs(Step(s, Advance(a))))
  {
    hide Inv, Local, Moved, Abs, SpecStep, Step, EventOf, Fit;
    var t := Step(s, Advance(a));
    SpecInternal(Abs(s));
    if t == s {
      IdleEvent(s, a);
    } else {
      var e := StepMoves(s, a);
      EventEffect(s, a, e);
      match e {
        case Quiet => QuietAbs(s, t, a, e); ClosedAbs(s, t);
        case Reserves(_) => QuietAbs(s, t, a, e); ClosedAbs(s, t);
        case Restores(_) => QuietAbs(s, t, a, e); ClosedAbs(s, t);
        case Commits(_) => CommitAbs(s, t, a, e);
        case Takes(_) => TakeAbs(s, t, a, e);
        case Releases(_) => ReleaseAbs(s, t, a, e);
      }
    }
  }

  /** A step with an effect on the queue moves its actor, so an idle step is no event. */
  lemma IdleEvent(s: State, a: nat)
    requires Local(s, a) && Step(s, Advance(a)) == s
    ensures EventOf(s, Advance(a)) == Internal
  {
    hide Local, Moved, SlotLockMoved, StateLockMoved, PcOk;
    if EventOf(s, Advance(a)) != Internal {
      EffectSteps(s, a);
    }
  }

  lemma EffectSteps(s: State, a: nat)
    requires Local(s, a)
    requires s.actors[a].Closing? || s.actors[a].Committing? || s.actors[a].Taking? || s.actors[a].Dropping?
    ensures Step(s, Advance(a)) != s
  {
    assert Step(s, Advance(a)).actors[a] != s.actors[a];
  }

  lemma ClosedAbs(s: State, t: State)
    requires Abs(t) == Abs(s).(closed := t.closed)
    ensures t.closed == s.closed ==> SpecStep(Abs(s), Internal) == Some(Abs(t))
    ensures t.closed ==> SpecStep(Abs(s), Close) == Some(Abs(t))
  {
  }

  /** The effect on the storage and the event agree. */
  lemma EventEffect(s: State, a: nat, e: Effect)
    requires a in s.actors && Local(s, a) && Moved(s, Step(s, Advance(a)), a, e)
    ensures var t, event := Step(s, Advance(a)), EventOf(s, Advance(a));
            match e
            case Commits(_) =>
              !s.closed && !t.closed && |s.ready| + s.leased < |s.cells| && |t.log| == |s.log| + 1
              && event == Enqueue(t.log[|s.log|].bytes)
            case Takes(_) => event == Take && t.closed == s.closed
            case Releases(_) => t.closed == s.closed && LeaseOf(s.actors[a]).Some? && event == GiveBack(LeaseOf(s.actors[a]).value.ticket)
            case _ => (event == Internal && t.closed == s.closed) || (event == Close && t.closed)
  {
    hide Local, Moved, Step, EventOf;
    if s.actors[a].Committing? {
      RoomLeft(s, a);
      CommitEvent(s, a, e);
    } else if s.actors[a].Taking? || s.actors[a].Dropping? {
      LeaseEvent(s, a, e);
    } else {
      PlainEvent(s, a, e);
    }
  }

  lemma LeaseEvent(s: State, a: nat, e: Effect)
    requires Local(s, a) && Moved(s, Step(s, Advance(a)), a, e)
    requires s.actors[a].Taking? || s.actors[a].Dropping?
    ensures Step(s, Advance(a)).closed == s.closed
    ensures s.actors[a].Taking? ==> e.Takes? && EventOf(s, Advance(a)) == Take
    ensures s.actors[a].Dropping? ==> e.Releases? && EventOf(s, Advance(a)) == GiveBack(LeaseOf(s.actors[a]).value.ticket)
  {
    hide SlotLockMoved, StateLockMoved;
  }

  lemma PlainEvent(s: State, a: nat, e: Effect)
    requires Local(s, a) && Moved(s, Step(s, Advance(a)), a, e)
    requires !s.actors[a].Committing? && !s.actors[a].Taking? && !s.actors[a].Dropping?
    ensures e.Quiet? || e.Reserves? || e.Restores?
    ensures if EventOf(s, Advance(a)) == Internal then Step(s, Advance(a)).closed == s.closed
            else EventOf(s, Advance(a)) == Close && Step(s, Advance(a)).closed
  {
    hide SlotLockMoved, StateLockMoved, PcOk, Encode, CellOk, HeadOk, AdvanceRecord, AdvanceReject, AdvanceUnwind;
    if e.Quiet? || e.Reserves? || e.Restores? {
      ClosedOnly(s, a);
    } else {
      PlainEffect(s, a, e);
    }
  }

  /** Nothing but the last step of a shutdown touches `closed`. */
  lemma ClosedOnly(s: State, a: nat)
    requires Fit(s, a) && !s.fault && !s.actors[a].Committing? && !s.actors[a].Taking? && !s.actors[a].Dropping?
    ensures if EventOf(s, Advance(a)) == Internal then Step(s, Advance(a)).closed == s.closed
            else EventOf(s, Advance(a)) == Close && Step(s, Advance(a)).closed
  {
    hide PcShaped, Encode;
  }

  lemma PlainEffect(s: State, a: nat, e: Effect)
    requires Local(s, a) && Moved(s, Step(s, Advance(a)), a, e)
    requires !s.actors[a].Committing? && !s.actors[a].Taking? && !s.actors[a].Dropping?
    ensures e.Quiet? || e.Reserves? || e.Restores?
  {
    hide SlotLockMoved, StateLockMoved, PcOk, Encode, CellOk, HeadOk;
  }

  lemma CommitEvent(s: State, a: nat, e: Effect)
    requires Local(s, a) && s.actors[a].Committing? && Moved(s, Step(s, Advance(a)), a, e)
    ensures var t, event := Step(s, Advance(a)), EventOf(s, Advance(a));
            && t.closed == s.closed
            && (e.Commits? ==> !s.closed && |t.log| == |s.log| + 1 && event == Enqueue(t.log[|s.log|].bytes))
            && (!e.Commits? ==> (e.Quiet? || e.Reserves? || e.Restores?) && event == Internal)
  {
    hide SlotLockMoved, StateLockMoved;
  }

  lemma RoomLeft(s: State, a: nat)
    requires Local(s, a) && s.actors[a].Committing?
    ensures |s.ready| + s.leased < |s.cells|
  {
  }

  lemma {:induction false} RefinesFrom(s: State, moves: seq<Label>)
    requires Inv(s)
    ensures SpecRun(Abs(s), Trace(s, moves)) == Some(Abs(Exec(s, moves)))
    decreases |moves|
  {
    hide Inv, Abs, Step, EventOf;
    if moves != [] {
      StepKeeps(s, moves[0]);
      EventAbs(s, moves[0]);
      RefinesFrom(Step(s, moves[0]), moves[1..]);
      assert Trace(s, moves)[1..] == Trace(Step(s, moves[0]), moves[1..]);
    }
  }

  /**
  The main result. Whatever the schedule, the calls of fabric/src/admission/queue.rs act on one bounded FIFO:
  each takes effect at one of its own steps, and the specification allows every one of them.
  */
  lemma Refines(slots: nat, limit: nat, moves: seq<Label>)
    requires slots > 0
    ensures SpecRun(Spec(slots, [], 0, map[], false), Trace(Init(slots, limit), moves)) == Some(Abs(Run(slots, limit, moves)))
  {
    hide Inv, Trace, Exec, SpecRun;
    InitInv(slots, limit);
    RefinesFrom(Init(slots, limit), moves);
    assert Abs(Init(slots, limit)) == Spec(slots, [], 0, map[], false);
  }

  // ---------------------------------------------------------------- what callers can rely on

  /** The answer a call has settled on, once it has. */
  function Answer(pc: Pc): Option<Outcome> {
    match pc
    case Unwind(_, _, _, _, Finished(outcome)) => Some(outcome)
    case Done(outcome) => Some(outcome)
    case _ => None
  }

  /** The slot this probe tries is locked by someone. */
  predicate SlotBusy(s: State, a: nat) {
    && a in s.actors && s.actors[a].Probing? && |s.slotLock| == |s.cells|
    && s.actors[a].start < |s.cells| && s.actors[a].offset < |s.cells|
    && s.slotLock[ProbedSlot(|s.cells|, s.actors[a].start, s.actors[a].offset)].Some?
  }

  /** The call has met a locked slot. */
  predicate Flagged(pc: Pc) {
    (pc.Probing? || pc.CellLocked?) && pc.contended
  }

  /** Someone was in the way: at the lock just tried, at a slot probed before, or between a full scan and its count. */
  predicate Contention(s: State, a: nat) {
    a in s.actors &&
    match s.actors[a]
    case Probing(_, _, _, contended) => contended || SlotBusy(s, a)
    case CellLocked(_, _, _, contended) => contended
    case Publishing(_, _, _) => s.stateLock.Some?
    case Rejecting(_, _) => s.stateLock.Some?
    case DequeueLock => s.stateLock.Some?
    case ShutdownStart => s.stateLock.Some?
    case Counting(reason, _) => !s.closed && reason == Full && |s.ready| + s.leased < |s.cells|
    case Peeking => s.ready != [] && s.ready[0].0 < |s.slotLock| && s.slotLock[s.ready[0].0].Some?
    case _ => false
  }

  /** What an answer says about the state in which it was settled, and the effect that call had. */
  ghost predicate Justified(s: State, a: nat, outcome: Outcome, event: Event)
    requires a in s.ops
  {
    match outcome
    case Admitted(Accepted) =>
      s.ops[a].Record? && event == Enqueue(Concat(s.ops[a].observation.chunks)) && FitsOp(s.ops[a], event.payload, s.limit)
    case Admitted(Full) =>
      !s.closed && event == Internal && |s.ready| + s.leased == |s.cells| && AllCharged(s)
    case Admitted(Closed) => s.closed && event == Internal
    case Admitted(Exhausted) =>
      && s.order.next == U64_MAX && !s.closed && event == Internal
      && s.ops[a].Record? && FitsOp(s.ops[a], Concat(s.ops[a].observation.chunks), s.limit)
    case Admitted(Contended) => Contention(s, a) && event == Internal
    case Admitted(Poisoned) => false
    case Admitted(reason) =>
      !s.closed && s.ops[a].Record? && RefusalJust(s.ops[a].observation, reason, s.limit) && event == Internal
    case Nothing => s.ops[a] == Dequeue && s.ready == [] && event == Internal
    case Refused(verdict) => verdict == Contended && Contention(s, a) && event == Internal
    case Stopped => s.ops[a] == Shutdown && event == Close
    case Returned => event.GiveBack?
  }

  /** The rejection counter moves exactly when a record is refused as invalid, too large or for want of a slot. */
  ghost predicate Settles(s: State, a: nat, pc: Pc, rejected: nat, event: Event) {
    && a in s.ops
    && (if Answer(pc).Some? && Answer(pc).value in {Admitted(Invalid), Admitted(TooLarge), Admitted(Full)}
        then rejected == SaturatingAdd(s.rejected, 1)
        else rejected == s.rejected)
    && (Answer(pc).Some? ==> Justified(s, a, Answer(pc).value, event))
  }

  lemma RecordSettles(s: State, a: nat)
    requires Local(s, a)
    requires s.actors[a].RecordStart? || s.actors[a].FetchProbe? || s.actors[a].Probing? || s.actors[a].CellLocked?
    ensures var t := AdvanceRecord(s, a); a in t.actors && Settles(s, a, t.actors[a], t.rejected, Internal)
  {
  }

  lemma CommitSettles(s: State, a: nat)
    requires Local(s, a) && (s.actors[a].Encoding? || s.actors[a].Publishing? || s.actors[a].Committing?)
    ensures var t := AdvanceCommit(s, a);
            a in t.actors && Settles(s, a, t.actors[a], t.rejected, EventOf(s, Advance(a)))
  {
    hide Encode;
  }

  lemma RejectSettles(s: State, a: nat)
    requires Local(s, a) && (s.actors[a].Rejecting? || s.actors[a].Counting?)
    requires |s.ready| + s.leased == |s.cells| ==> AllCharged(s)
    ensures var t := AdvanceReject(s, a); a in t.actors && Settles(s, a, t.actors[a], t.rejected, Internal)
  {
    hide AllCharged;
    if s.actors[a].Rejecting? {
      TrySettles(s, a);
    } else {
      CountSettles(s, a);
    }
  }

  lemma TrySettles(s: State, a: nat)
    requires Local(s, a) && s.actors[a].Rejecting?
    ensures var t := AdvanceReject(s, a); a in t.actors && Settles(s, a, t.actors[a], t.rejected, Internal)
  {
    hide AllCharged, CellOk, HeadOk;
  }

  lemma CountSettles(s: State, a: nat)
    requires Local(s, a) && s.actors[a].Counting?
    requires |s.ready| + s.leased == |s.cells| ==> AllCharged(s)
    ensures var t := AdvanceReject(s, a); a in t.actors && Settles(s, a, t.actors[a], t.rejected, Internal)
  {
    hide AllCharged, CellOk, HeadOk, HeldSlot, Owned, LeaseOf;
  }

  lemma DequeueSettles(s: State, a: nat)
    requires Local(s, a)
    requires s.actors[a].DequeueStart? || s.actors[a].DequeueLock? || s.actors[a].Peeking? || s.actors[a].Taking?
    ensures var t := AdvanceDequeue(s, a);
            a in t.actors && Settles(s, a, t.actors[a], t.rejected, EventOf(s, Advance(a)))
  {
  }

  lemma OtherSettles(s: State, a: nat)
    requires Local(s, a)
    requires s.actors[a].ShutdownStart? || s.actors[a].Closing?
             || s.actors[a].DropSlot? || s.actors[a].DropState? || s.actors[a].Dropping?
    ensures var t := if s.actors[a].ShutdownStart? || s.actors[a].Closing? then AdvanceShutdown(s, a) else AdvanceDrop(s, a);
            a in t.actors && Settles(s, a, t.actors[a], t.rejected, EventOf(s, Advance(a)))
  {
    hide Settles, AdvanceShutdown, AdvanceDrop;
    if s.actors[a].ShutdownStart? || s.actors[a].Closing? {
      ShutdownSettles(s, a);
    } else {
      DropSettles(s, a);
    }
  }

  lemma ShutdownSettles(s: State, a: nat)
    requires Local(s, a) && (s.actors[a].ShutdownStart? || s.actors[a].Closing?)
    ensures var t := AdvanceShutdown(s, a);
            a in t.actors && Settles(s, a, t.actors[a], t.rejected, EventOf(s, Advance(a)))
  {
  }

  lemma DropSettles(s: State, a: nat)
    requires Local(s, a) && (s.actors[a].DropSlot? || s.actors[a].DropState? || s.actors[a].Dropping?)
    ensures var t := AdvanceDrop(s, a);
            a in t.actors && Settles(s, a, t.actors[a], t.rejected, EventOf(s, Advance(a)))
  {
  }

  lemma LocalFits(s: State, a: nat)
    requires Local(s, a)
    ensures Fit(s, a)
  {
  }

  lemma StepSettles(s: State, a: nat)
    requires a in s.actors && Local(s, a) && Answer(s.actors[a]) == None
    requires |s.ready| + s.leased == |s.cells| ==> AllCharged(s)
    ensures var t := Step(s, Advance(a));
            a in t.actors && Settles(s, a, t.actors[a], t.rejected, EventOf(s, Advance(a)))
  {
    hide Local, AllCharged, Settles, AdvanceRecord, AdvanceCommit, AdvanceReject, AdvanceDequeue, AdvanceShutdown, AdvanceDrop;
    assert Fit(s, a) by { LocalFits(s, a); }
    match s.actors[a]
    case RecordStart(_) => RecordSettles(s, a);
    case FetchProbe(_) => RecordSettles(s, a);
    case Probing(_, _, _, _) => RecordSettles(s, a);
    case CellLocked(_, _, _, _) => RecordSettles(s, a);
    case Encoding(_, _) => CommitSettles(s, a);
    case Publishing(_, _, _) => CommitSettles(s, a);
    case Committing(_, _, _) => CommitSettles(s, a);
    case Rejecting(_, _) => RejectSettles(s, a);
    case Counting(_, _) => RejectSettles(s, a);
    case DequeueStart => DequeueSettles(s, a);
    case DequeueLock => DequeueSettles(s, a);
    case Peeking => DequeueSettles(s, a);
    case Taking(_, _) => DequeueSettles(s, a);
    case ShutdownStart => OtherSettles(s, a);
    case Closing => OtherSettles(s, a);
    case DropSlot(_) => OtherSettles(s, a);
    case DropState(_) => OtherSettles(s, a);
    case Dropping(_) => OtherSettles(s, a);
    case Live(_) => LeaseSettles(s, a);
    case Unwind(_, _, _, _, _) => LeaseSettles(s, a);
  }

  lemma LeaseSettles(s: State, a: nat)
    requires Local(s, a) && LeaseOf(s.actors[a]).Some? && (s.actors[a].Live? || s.actors[a].Unwind?)
    ensures var t := Step(s, Advance(a));
            a in t.actors && Settles(s, a, t.actors[a], t.rejected, EventOf(s, Advance(a)))
  {
  }

  /**
  Each call's answer is true of the very step that settles it: an accepted record was published whole there,
  Full means every slot held a waiting or leased record at once, Closed that the queue was, Nothing that it was
  empty, Contended that someone was in the way; Poisoned is never answered, and a refusal has no effect on the queue.
  A closed queue refuses a record as Closed or Contended and in no other way.
  */
  lemma AnswersJustified(slots: nat, limit: nat, moves: seq<Label>, a: nat)
    requires slots > 0
    ensures var s := Run(slots, limit, moves);
            a in s.actors && Answer(s.actors[a]) == None ==>
              var t := Step(s, Advance(a));
              a in t.actors && Settles(s, a, t.actors[a], t.rejected, EventOf(s, Advance(a)))
  {
    hide Inv, Run, Step, Settles, EventOf, Local;
    RunInv(slots, limit, moves);
    var s := Run(slots, limit, moves);
    if a in s.actors && Answer(s.actors[a]) == None {
      LocalHolds(s, a);
      ChargesBounded(s);
      StepSettles(s, a);
    }
  }

  /**
  What a schedule leaves behind. Accepted calls and log entries are the same thing, in commit order, each with the
  whole text of its own record; the k-th dequeue holds ticket k and, as long as its lease lives, exactly those bytes.
  */
  lemma Delivery(slots: nat, limit: nat, moves: seq<Label>)
    requires slots > 0
    ensures var s := Run(slots, limit, moves);
            && !s.fault
            && (forall a :: a in s.actors && Committed(s.actors[a])
                  ==> exists k :: 0 <= k < |s.log| && s.log[k].actor == a)
            && (forall j, k :: 0 <= j < k < |s.log| ==> s.log[j].actor != s.log[k].actor)
            && (forall k :: 0 <= k < |s.log| ==>
                  var entry := s.log[k];
                  && entry.actor in s.ops && entry.actor in s.actors
                  && Committed(s.actors[entry.actor]) && FitsOp(s.ops[entry.actor], entry.bytes, limit))
            && |s.taken| + |s.ready| == |s.log|
            && (forall a :: a in s.actors && s.actors[a].Live? ==>
                  var l := s.actors[a].lease;
                  && l.ticket < |s.taken| && s.taken[l.ticket] == a
                  && l.buffer.credit.len <= |l.buffer.bytes| && l.ticket < |s.log|
                  && l.buffer.Payload() == s.log[l.ticket].bytes)
  {
    hide *;
    RunInv(slots, limit, moves);
    RunLimit(slots, limit, moves);
    DeliveryHolds(Run(slots, limit, moves));
  }

  lemma DeliveryHolds(s: State)
    requires Inv(s)
    ensures !s.fault
    ensures forall a :: a in s.actors && Committed(s.actors[a]) ==> exists k :: 0 <= k < |s.log| && s.log[k].actor == a
    ensures forall j, k :: 0 <= j < k < |s.log| ==> s.log[j].actor != s.log[k].actor
    ensures forall k :: 0 <= k < |s.log| ==>
              var entry := s.log[k];
              && entry.actor in s.ops && entry.actor in s.actors
              && Committed(s.actors[entry.actor]) && FitsOp(s.ops[entry.actor], entry.bytes, s.limit)
    ensures |s.taken| + |s.ready| == |s.log|
    ensures forall a :: a in s.actors && s.actors[a].Live? ==>
              var l := s.actors[a].lease;
              && l.ticket < |s.taken| && s.taken[l.ticket] == a
              && l.buffer.credit.len <= |l.buffer.bytes| && l.ticket < |s.log|
              && l.buffer.Payload() == s.log[l.ticket].bytes
  {
    hide LocksAgree, BuffersOwned, CellsOk, Committed, FitsOp;
    forall a | a in s.actors && s.actors[a].Live?
      ensures PcOk(s, a, s.actors[a])
    {
    }
  }

  lemma StepFrame(s: State, move: Label)
    requires Inv(s)
    ensures var t := Step(s, move); t.limit == s.limit && |t.cells| == |s.cells| && s.actors.Keys <= t.actors.Keys
  {
    hide Inv, Local, Fit, AdvanceRecord, AdvanceCommit, AdvanceReject, AdvanceDequeue, AdvanceShutdown, AdvanceDrop, AdvanceUnwind;
    hide PcOk, SlotLockMoved, StateLockMoved, StorageMoved;
    if move.Advance? {
      if move.actor in s.actors {
        LocalHolds(s, move.actor);
        var e := StepMoves(s, move.actor);
      } else {
        Stuck(s, move.actor);
      }
    }
  }

  lemma {:induction false} ExecLimit(s: State, moves: seq<Label>)
    requires Inv(s)
    ensures Exec(s, moves).limit == s.limit && |Exec(s, moves).cells| == |s.cells|
    decreases |moves|
  {
    hide Inv, Step;
    if moves != [] {
      StepKeeps(s, moves[0]);
      StepFrame(s, moves[0]);
      ExecLimit(Step(s, moves[0]), moves[1..]);
    }
  }

  lemma RunLimit(slots: nat, limit: nat, moves: seq<Label>)
    requires slots > 0
    ensures Run(slots, limit, moves).limit == limit && |Run(slots, limit, moves).cells| == slots
  {
    hide Inv;
    InitInv(slots, limit);
    ExecLimit(Init(slots, limit), moves);
  }

  // ---------------------------------------------------------------- progress

  /** How many of its own steps a call still needs before it returns; dropping a lease is not part of the call. */
  function StepsLeft(n: nat, pc: Pc): nat {
    match pc
    case RecordStart(_) => 2 * n + 11
    case FetchProbe(_) => 2 * n + 10
    case Probing(_, _, offset, _) => if offset <= n then 2 * (n - offset) + 9 else 9
    case CellLocked(_, _, offset, _) => if offset <= n then 2 * (n - offset) + 8 else 8
    case Encoding(_, _) => 8
    case Publishing(_, _, _) => 7
    case Committing(_, _, _) => 6
    case Rejecting(_, _) => 7
    case Counting(_, _) => 6
    case DequeueStart => 7
    case DequeueLock => 6
    case Peeking => 5
    case Taking(_, _) => 4
    case ShutdownStart => 4
    case Closing => 3
    case DropSlot(_) => 0
    case DropState(_) => 0
    case Dropping(_) => 0
    case Live(_) => 0
    case Done(_) => 0
    case Unwind(state, slot, _, restore, end) =>
      if end == Finished(Returned) then 0
      else 1 + (if state then 1 else 0) + (if slot.Some? then 1 else 0) + (if restore.Some? then 1 else 0)
  }

  lemma ProbeCounts(s: State, a: nat)
    requires Fit(s, a) && (s.actors[a].RecordStart? || s.actors[a].FetchProbe? || s.actors[a].Probing?)
    ensures var t := AdvanceRecord(s, a);
            a in t.actors && StepsLeft(|s.cells|, t.actors[a]) < StepsLeft(|s.cells|, s.actors[a])
  {
    hide Encode;
  }

  lemma CellCounts(s: State, a: nat)
    requires Fit(s, a) && (s.actors[a].CellLocked?)
    ensures var t := AdvanceRecord(s, a);
            a in t.actors && StepsLeft(|s.cells|, t.actors[a]) < StepsLeft(|s.cells|, s.actors[a])
  {
    hide Encode;
  }

  lemma EncodeCounts(s: State, a: nat)
    requires Fit(s, a) && (s.actors[a].Encoding? || s.actors[a].Publishing?)
    ensures var t := AdvanceCommit(s, a);
            a in t.actors && StepsLeft(|s.cells|, t.actors[a]) < StepsLeft(|s.cells|, s.actors[a])
  {
    hide Encode;
  }

  lemma CommitCounts(s: State, a: nat)
    requires Fit(s, a) && (s.actors[a].Committing?)
    ensures var t := AdvanceCommit(s, a);
            a in t.actors && StepsLeft(|s.cells|, t.actors[a]) < StepsLeft(|s.cells|, s.actors[a])
  {
    hide Encode;
  }

  lemma RejectCounts(s: State, a: nat)
    requires Fit(s, a) && s.actors[a].Rejecting?
    ensures var t := AdvanceReject(s, a);
            a in t.actors && StepsLeft(|s.cells|, t.actors[a]) < StepsLeft(|s.cells|, s.actors[a])
  {
    hide Encode;
  }

  lemma CountingCounts(s: State, a: nat)
    requires Fit(s, a) && s.actors[a].Counting?
    ensures var t := AdvanceReject(s, a);
            a in t.actors && StepsLeft(|s.cells|, t.actors[a]) < StepsLeft(|s.cells|, s.actors[a])
  {
    hide Encode;
  }

  lemma DequeueCounts(s: State, a: nat)
    requires Fit(s, a) && (s.actors[a].DequeueStart? || s.actors[a].DequeueLock?)
    ensures var t := AdvanceDequeue(s, a);
            a in t.actors && StepsLeft(|s.cells|, t.actors[a]) < StepsLeft(|s.cells|, s.actors[a])
  {
    hide Encode;
  }

  lemma PeekCounts(s: State, a: nat)
    requires Fit(s, a) && (s.actors[a].Peeking?)
    requires s.ready != [] ==> s.ready[0].0 < |s.cells|
    ensures var t := AdvanceDequeue(s, a);
            a in t.actors && StepsLeft(|s.cells|, t.actors[a]) < StepsLeft(|s.cells|, s.actors[a])
  {
    hide Encode;
  }

  lemma TakeCounts(s: State, a: nat)
    requires Local(s, a) && s.actors[a].Taking?
    ensures var t := AdvanceDequeue(s, a);
            a in t.actors && StepsLeft(|s.cells|, t.actors[a]) < StepsLeft(|s.cells|, s.actors[a])
  {
    TakeStep(s, a);
    hide AdvanceDequeue;
  }

  lemma ShutdownCounts(s: State, a: nat)
    requires Fit(s, a) && (s.actors[a].ShutdownStart? || s.actors[a].Closing?)
    ensures var t := AdvanceShutdown(s, a);
            a in t.actors && StepsLeft(|s.cells|, t.actors[a]) < StepsLeft(|s.cells|, s.actors[a])
  {
    hide Encode;
  }

  lemma UnwindCounts(s: State, a: nat)
    requires Fit(s, a) && s.actors[a].Unwind? && StepsLeft(|s.cells|, s.actors[a]) > 0
    ensures var t := AdvanceUnwind(s, a);
            a in t.actors && StepsLeft(|s.cells|, t.actors[a]) < StepsLeft(|s.cells|, s.actors[a])
  {
    var pc := s.actors[a];
    if pc.state && (!pc.slotFirst || pc.slot == None) {
      assert AdvanceUnwind(s, a).actors[a] == pc.(state := false);
    } else if pc.restore.Some? {
      assert AdvanceUnwind(s, a).actors[a] == pc.(restore := None);
    } else if pc.slot.Some? {
      assert AdvanceUnwind(s, a).actors[a] == pc.(slot := None);
    }
  }

  /** No other call can hold up a record, a dequeue or a shutdown: each own step brings it closer to returning. */
  lemma OwnStepCounts(s: State, a: nat)
    requires Local(s, a) && StepsLeft(|s.cells|, s.actors[a]) > 0
    ensures var t := Step(s, Advance(a));
            a in t.actors && StepsLeft(|s.cells|, t.actors[a]) < StepsLeft(|s.cells|, s.actors[a])
  {
    hide AdvanceRecord, AdvanceCommit, AdvanceReject, AdvanceDequeue, AdvanceShutdown, AdvanceDrop, AdvanceUnwind;
    match s.actors[a]
    case RecordStart(_) => ProbeCounts(s, a);
    case FetchProbe(_) => ProbeCounts(s, a);
    case Probing(_, _, _, _) => ProbeCounts(s, a);
    case CellLocked(_, _, _, _) => CellCounts(s, a);
    case Encoding(_, _) => EncodeCounts(s, a);
    case Publishing(_, _, _) => EncodeCounts(s, a);
    case Committing(_, _, _) => CommitCounts(s, a);
    case Rejecting(_, _) => RejectCounts(s, a);
    case Counting(_, _) => CountingCounts(s, a);
    case DequeueStart => DequeueCounts(s, a);
    case DequeueLock => DequeueCounts(s, a);
    case Peeking => PeekCounts(s, a);
    case Taking(_, _) => TakeCounts(s, a);
    case ShutdownStart => ShutdownCounts(s, a);
    case Closing => ShutdownCounts(s, a);
    case Unwind(_, _, _, _, _) => UnwindCounts(s, a);
  }

  function CountAdvances(moves: seq<Label>, a: nat): nat {
    if moves == [] then 0
    else (if moves[0] == Advance(a) then 1 else 0) + CountAdvances(moves[1..], a)
  }

  lemma OthersLeave(s: State, move: Label, a: nat)
    requires Inv(s) && a in s.actors && move != Advance(a)
    ensures var t := Step(s, move); a in t.actors && StepsLeft(|s.cells|, t.actors[a]) == StepsLeft(|s.cells|, s.actors[a])
  {
    hide Inv, Local, Fit, AdvanceRecord, AdvanceCommit, AdvanceReject, AdvanceDequeue, AdvanceShutdown, AdvanceDrop, AdvanceUnwind;
    hide PcOk, SlotLockMoved, StateLockMoved, StorageMoved;
    if move.Advance? {
      if move.actor in s.actors {
        LocalHolds(s, move.actor);
        var e := StepMoves(s, move.actor);
      } else {
        Stuck(s, move.actor);
      }
    }
  }

  lemma {:induction false} CallsReturnFrom(s: State, moves: seq<Label>, a: nat)
    requires Inv(s) && a in s.actors
    ensures a in Exec(s, moves).actors
    ensures StepsLeft(|s.cells|, Exec(s, moves).actors[a])
            <= Max(0, StepsLeft(|s.cells|, s.actors[a]) - CountAdvances(moves, a))
    decreases |moves|
  {
    hide Inv, Local, Step, StepsLeft;
    if moves != [] {
      StepKeeps(s, moves[0]);
      StepFrame(s, moves[0]);
      LocalHolds(s, a);
      if moves[0] != Advance(a) {
        OthersLeave(s, moves[0], a);
      } else if StepsLeft(|s.cells|, s.actors[a]) > 0 {
        OwnStepCounts(s, a);
      } else {
        ReturnedStays(s, a);
      }
      CallsReturnFrom(Step(s, moves[0]), moves[1..], a);
    }
  }

  /**
  Wait-freedom: whatever the others do, a call that has had 2n + 11 steps of its own has returned; each step
  counts down.
  */
  lemma CallsReturn(slots: nat, limit: nat, before: seq<Label>, moves: seq<Label>, a: nat)
    requires slots > 0 && a in Run(slots, limit, before).actors
    ensures var s, t := Run(slots, limit, before), Run(slots, limit, before + moves);
            && a in t.actors
            && StepsLeft(slots, t.actors[a]) <= Max(0, StepsLeft(slots, s.actors[a]) - CountAdvances(moves, a))
            && StepsLeft(slots, s.actors[a]) <= 2 * slots + 11
  {
    hide Inv, Exec;
    RunInv(slots, limit, before);
    RunLimit(slots, limit, before);
    ExecJoin(Init(slots, limit), before, moves);
    CallsReturnFrom(Run(slots, limit, before), moves, a);
  }

  lemma ReturnedStays(s: State, a: nat)
    requires a in s.actors && StepsLeft(|s.cells|, s.actors[a]) == 0
    ensures var t := Step(s, Advance(a)); a in t.actors && StepsLeft(|s.cells|, t.actors[a]) == 0
  {
    assert s.actors[a].DropSlot? || s.actors[a].DropState? || s.actors[a].Dropping? || s.actors[a].Live? || s.actors[a].Done?
      || (s.actors[a].Unwind? && s.actors[a].end == Finished(Returned));
    hide AdvanceRecord, AdvanceCommit, AdvanceReject, AdvanceDequeue, AdvanceShutdown, AdvanceDrop, AdvanceUnwind, StepsLeft;
    if s.actors[a].Unwind? {
      UnwindStays(s, a);
    } else {
      DropStays(s, a);
    }
  }

  lemma DropStays(s: State, a: nat)
    requires a in s.actors
    requires s.actors[a].DropSlot? || s.actors[a].DropState? || s.actors[a].Dropping? || s.actors[a].Live? || s.actors[a].Done?
    ensures var t := Step(s, Advance(a)); a in t.actors && StepsLeft(|s.cells|, t.actors[a]) == 0
  {
    hide PcShaped, AdvanceRecord, AdvanceCommit, AdvanceReject, AdvanceDequeue, AdvanceShutdown, AdvanceUnwind;
  }

  lemma UnwindStays(s: State, a: nat)
    requires a in s.actors && s.actors[a].Unwind? && s.actors[a].end == Finished(Returned)
    ensures var t := Step(s, Advance(a)); a in t.actors && StepsLeft(|s.cells|, t.actors[a]) == 0
  {
    hide PcShaped, AdvanceRecord, AdvanceCommit, AdvanceReject, AdvanceDequeue, AdvanceShutdown, AdvanceDrop, AdvanceUnwind;
    if Fit(s, a) {
      ReturnStays(s, a);
    }
  }

  lemma ReturnStays(s: State, a: nat)
    requires Fit(s, a) && s.actors[a].Unwind? && s.actors[a].end == Finished(Returned)
    ensures var t := AdvanceUnwind(s, a); a in t.actors && StepsLeft(|s.cells|, t.actors[a]) == 0
  {
    hide PcShaped, StepsLeft;
    NoStepsLeft(|s.cells|, s.actors[a]);
    var t := AdvanceUnwind(s, a);
    assert t.actors[a] == Done(Returned) || (t.actors[a].Unwind? && t.actors[a].end == Finished(Returned));
    NoStepsLeft(|s.cells|, t.actors[a]);
  }

  lemma NoStepsLeft(n: nat, pc: Pc)
    requires pc == Done(Returned) || (pc.Unwind? && pc.end == Finished(Returned))
    ensures StepsLeft(n, pc) == 0
  {
  }

  /** A call or a drop that has not finished. */
  predicate Pending(s: State, a: nat) {
    a in s.actors && !s.actors[a].Live? && !s.actors[a].Done?
  }

  /** Only a lease drop can wait, and only for a mutex someone holds. */
  lemma BlockedWaits(s: State, a: nat)
    requires Local(s, a) && Pending(s, a) && Step(s, Advance(a)) == s
    ensures (s.actors[a].DropSlot? && s.actors[a].lease.index < |s.slotLock| && s.slotLock[s.actors[a].lease.index].Some?)
            || (s.actors[a].DropState? && s.stateLock.Some?)
  {
    hide Local, Step, StepsLeft;
    if StepsLeft(|s.cells|, s.actors[a]) > 0 {
      OwnStepCounts(s, a);
    } else {
      DropStepsOn(s, a);
    }
  }

  lemma DropStepsOn(s: State, a: nat)
    requires Local(s, a) && Pending(s, a) && StepsLeft(|s.cells|, s.actors[a]) == 0
    ensures s.actors[a].DropSlot? || s.actors[a].DropState? || s.actors[a].Dropping? || s.actors[a].Unwind?
    ensures Step(s, Advance(a)) == s ==>
              (s.actors[a].DropSlot? && s.actors[a].lease.index < |s.slotLock| && s.slotLock[s.actors[a].lease.index].Some?)
              || (s.actors[a].DropState? && s.stateLock.Some?)
  {
    assert Step(s, Advance(a)) == s ==> Step(s, Advance(a)).actors[a] == s.actors[a];
  }

  /** Deadlock freedom: while anything is unfinished, some unfinished call or drop can take a step. */
  lemma SomeoneSteps(slots: nat, limit: nat, moves: seq<Label>, a: nat) returns (b: nat)
    requires slots > 0 && Pending(Run(slots, limit, moves), a)
    ensures Pending(Run(slots, limit, moves), b)
    ensures Step(Run(slots, limit, moves), Advance(b)) != Run(slots, limit, moves)
  {
    hide Inv, Local, Step, Run;
    RunInv(slots, limit, moves);
    var s := Run(slots, limit, moves);
    InvLocks(s);
    hide SlotLocksAgree, StateLockAgrees;
    b := a;
    if Step(s, Advance(b)) == s {
      LocalHolds(s, b);
      BlockedWaits(s, b);
      if s.actors[b].DropSlot? {
        b := SlotHolder(s, s.actors[b].lease.index);
      }
      if Step(s, Advance(b)) == s {
        LocalHolds(s, b);
        BlockedWaits(s, b);
        b := StateHolder(s);
        if Step(s, Advance(b)) == s {
          LocalHolds(s, b);
          BlockedWaits(s, b);
          assert false;
        }
      }
    }
  }

  lemma SlotHolder(s: State, i: nat) returns (b: nat)
    requires SlotLocksAgree(s) && i < |s.slotLock| && s.slotLock[i].Some?
    ensures Pending(s, b) && !s.actors[b].DropSlot?
  {
    b := s.slotLock[i].value;
    assert b in s.actors && HeldSlot(|s.cells|, s.actors[b]) == Some(i);
  }

  lemma StateHolder(s: State) returns (b: nat)
    requires StateLockAgrees(s) && s.stateLock.Some?
    ensures Pending(s, b) && !s.actors[b].DropSlot? && !s.actors[b].DropState?
  {
    b := s.stateLock.value;
    assert b in s.actors && HoldsState(s.actors[b]);
  }

  lemma InvLocks(s: State)
    requires Inv(s)
    ensures SlotLocksAgree(s) && StateLockAgrees(s) && !s.fault && 0 < |s.cells| == |s.slotLock|
  {
  }

  // ---------------------------------------------------------------- shutdown

  lemma {:induction false} ClosedFrom(s: State, moves: seq<Label>)
    requires Inv(s) && s.closed
    ensures Exec(s, moves).closed && Exec(s, moves).log == s.log
    decreases |moves|
  {
    hide Inv, Step;
    if moves != [] {
      StepKeeps(s, moves[0]);
      ClosedStep(s, moves[0]);
      ClosedFrom(Step(s, moves[0]), moves[1..]);
    }
  }

  /** Once closed, no continuation of the schedule publishes anything more. */
  lemma ClosedPublishesNothing(slots: nat, limit: nat, before: seq<Label>, moves: seq<Label>)
    requires slots > 0 && Run(slots, limit, before).closed
    ensures Run(slots, limit, before + moves).closed
    ensures Run(slots, limit, before + moves).log == Run(slots, limit, before).log
  {
    hide Inv, Exec;
    RunInv(slots, limit, before);
    ExecJoin(Init(slots, limit), before, moves);
    ClosedFrom(Run(slots, limit, before), moves);
  }

  lemma ClosedStep(s: State, move: Label)
    requires Inv(s) && s.closed
    ensures Step(s, move).closed && Step(s, move).log == s.log
  {
    hide Inv, Local, Moved, Fit, Step, EventOf;
    if move.Advance? && move.actor in s.actors {
      LocalHolds(s, move.actor);
      var e := StepMoves(s, move.actor);
      if Step(s, move) != s {
        EventEffect(s, move.actor, e);
        LogMoved(s, Step(s, move), move.actor, e);
      }
    } else {
      CallLeavesLog(s, move);
    }
  }

  lemma LogMoved(s: State, t: State, a: nat, e: Effect)
    requires Moved(s, t, a, e) && !e.Commits?
    ensures t.log == s.log
  {
    hide PcOk, SlotLockMoved, StateLockMoved;
  }

  lemma CallLeavesLog(s: State, move: Label)
    requires move.Advance? ==> move.actor !in s.actors
    ensures Step(s, move).closed == s.closed && Step(s, move).log == s.log
  {
  }

  lemma DrainFrom(s: State, a: nat)
    requires CanDrain(s, a)
    requires Inv(s)
    ensures var t := Exec(s, DequeueAlone(a));
            && a in t.actors && t.actors[a].Live? && t.ready == s.ready[1..] && t.closed == s.closed
            && s.order.head < |s.log| && LeaseCarries(t.actors[a].lease, s.order.head, s.log[s.order.head].bytes)
  {
    hide Inv, Step, Exec;
    var go := Advance(a);
    InvLocks(s);
    var s1, s4 := DrainEnters(s, a);
    var s8 := DrainLeaves(s4, a);
    ExecJoin(s, [Invoke(a, Dequeue)] + [go, go, go], [go, go, go, go]);
  }

  /** A dequeue taking its eight steps with nobody in between. */
  function DequeueAlone(a: nat): seq<Label> {
    [Invoke(a, Dequeue)] + [Advance(a), Advance(a), Advance(a)] + [Advance(a), Advance(a), Advance(a), Advance(a)]
  }

  /** The mutexes the dequeue needs are free. */
  predicate CanDrain(s: State, a: nat) {
    && a !in s.actors && s.ready != [] && s.stateLock == None
    && s.ready[0].0 < |s.slotLock| && s.slotLock[s.ready[0].0] == None
  }

  /** Ready records still drain after shutdown: a dequeue left to itself leases the head, whatever `closed` says. */
  lemma DequeueDrains(slots: nat, limit: nat, moves: seq<Label>, a: nat)
    requires slots > 0 && CanDrain(Run(slots, limit, moves), a)
    ensures var s, t := Run(slots, limit, moves), Run(slots, limit, moves + DequeueAlone(a));
            && a in t.actors && t.actors[a].Live? && t.ready == s.ready[1..] && t.closed == s.closed
            && s.order.head < |s.log| && LeaseCarries(t.actors[a].lease, s.order.head, s.log[s.order.head].bytes)
  {
    hide Inv, Exec, DequeueAlone;
    RunInv(slots, limit, moves);
    ExecJoin(Init(slots, limit), moves, DequeueAlone(a));
    DrainFrom(Run(slots, limit, moves), a);
  }

  ghost predicate LeaseCarries(l: Lease, ticket: nat, bytes: seq<byte>) {
    l.ticket == ticket && l.buffer.credit.len <= |l.buffer.bytes| && l.buffer.Payload() == bytes
  }

  /** The parts of the state a dequeue reads, apart from its own counter. */
  predicate SameQueue(s: State, t: State) {
    t.ready == s.ready && t.closed == s.closed && t.log == s.log && t.order == s.order && t.slotLock == s.slotLock
  }

  lemma EnterStep(s: State, a: nat)
    requires Local(s, a) && (s.actors[a] == DequeueStart || (s.actors[a] == DequeueLock && s.stateLock == None))
    ensures var t := AdvanceDequeue(s, a);
            && a in t.actors && SameQueue(s, t)
            && (s.actors[a] == DequeueStart ==> t.actors[a] == DequeueLock && t.stateLock == s.stateLock)
            && (s.actors[a] == DequeueLock ==> t.actors[a] == Peeking)
  {
  }

  lemma PeekStep(s: State, a: nat)
    requires Local(s, a) && s.actors[a] == Peeking && s.ready != []
    requires s.ready[0].0 < |s.slotLock| && s.slotLock[s.ready[0].0] == None
    ensures var t := AdvanceDequeue(s, a);
            && a in t.actors && t.actors[a] == Taking(s.ready[0].0, s.order.head)
            && t.ready == s.ready && t.closed == s.closed && t.log == s.log && t.order == s.order
  {
  }

  lemma TakeStep(s: State, a: nat)
    requires Local(s, a) && s.ready != [] && s.actors[a] == Taking(s.ready[0].0, s.order.head)
    ensures var t := AdvanceDequeue(s, a);
            && a in t.actors && t.actors[a].Unwind? && t.actors[a].end.AsLease?
            && (var l := t.actors[a].end.lease;
                && t.actors[a] == Unwind(true, Some(l.index), true, None, AsLease(l))
                && s.order.head < |s.log| && LeaseCarries(l, s.order.head, s.log[s.order.head].bytes))
            && t.ready == s.ready[1..] && t.closed == s.closed
  {
  }

  lemma LeaveStep(s: State, a: nat)
    requires Fit(s, a) && s.actors[a].Unwind? && s.actors[a].slotFirst && s.actors[a].restore == None && s.actors[a].end.AsLease?
    ensures var t := AdvanceUnwind(s, a);
            && a in t.actors && t.ready == s.ready && t.closed == s.closed
            && t.actors[a] == (if s.actors[a].slot.Some? then s.actors[a].(slot := None)
                               else if s.actors[a].state then s.actors[a].(state := false)
                               else Live(s.actors[a].end.lease))
  {
  }

  lemma StepOf(s: State, a: nat)
    requires Inv(s) && a in s.actors
    ensures Local(s, a) && Fit(s, a)
    ensures s.actors[a].DequeueStart? || s.actors[a].DequeueLock? || s.actors[a].Peeking? || s.actors[a].Taking?
            ==> Step(s, Advance(a)) == AdvanceDequeue(s, a)
    ensures s.actors[a].Unwind? ==> Step(s, Advance(a)) == AdvanceUnwind(s, a)
  {
    hide Inv, AdvanceDequeue, AdvanceUnwind, AdvanceRecord, AdvanceCommit, AdvanceReject, AdvanceShutdown, AdvanceDrop;
    LocalHolds(s, a);
  }

  lemma CallStep(s: State, a: nat)
    requires a !in s.actors
    ensures var t := Step(s, Invoke(a, Dequeue));
            a in t.actors && t.actors[a] == DequeueStart && SameQueue(s, t) && t.stateLock == s.stateLock
  {
  }

  /** From the call to the point where it holds both mutexes. */
  lemma DrainEnters(s: State, a: nat) returns (s1: State, s4: State)
    requires Inv(s) && a !in s.actors && s.ready != []
    requires s.stateLock == None && s.slotLock[s.ready[0].0] == None
    ensures Inv(s4) && s4 == Exec(s, [Invoke(a, Dequeue)] + [Advance(a), Advance(a), Advance(a)])
    ensures a in s4.actors && s4.actors[a] == Taking(s.ready[0].0, s.order.head)
    ensures s4.ready == s.ready && s4.closed == s.closed && s4.log == s.log && s4.order == s.order
  {
    InvLocks(s);
    hide Inv, Local, Exec, Fit, Step, AdvanceDequeue, AdvanceUnwind;
    var go := Advance(a);
    assert [go, go, go] == [go] + [go, go] && [go, go] == [go] + [go] && [go] == [go] + [];
    s1 := Advanced(s, Invoke(a, Dequeue), [go, go, go]);
    CallStep(s, a);
    var s2 := Advanced(s1, go, [go, go]);
    StepOf(s1, a);
    EnterStep(s1, a);
    var s3 := Advanced(s2, go, [go]);
    StepOf(s2, a);
    EnterStep(s2, a);
    s4 := Advanced(s3, go, []);
    StepOf(s3, a);
    PeekStep(s3, a);
    ExecNothing(s4);
  }

  lemma ExecNothing(s: State)
    ensures Exec(s, []) == s
  {
  }

  /** From there to a live lease with the mutexes released. */
  lemma DrainLeaves(s: State, a: nat) returns (t: State)
    requires Inv(s) && a in s.actors && s.ready != [] && s.actors[a] == Taking(s.ready[0].0, s.order.head)
    ensures Inv(t) && t == Exec(s, [Advance(a), Advance(a), Advance(a), Advance(a)])
    ensures a in t.actors && t.actors[a].Live? && t.ready == s.ready[1..] && t.closed == s.closed
    ensures s.order.head < |s.log| && LeaseCarries(t.actors[a].lease, s.order.head, s.log[s.order.head].bytes)
  {
    hide Inv, Local, Exec, Fit, Step, AdvanceDequeue, AdvanceUnwind, LeaseCarries;
    var go := Advance(a);
    assert [go, go, go, go] == [go] + [go, go, go] && [go, go, go] == [go] + [go, go] && [go, go] == [go] + [go] && [go] == [go] + [];
    var s1 := Advanced(s, go, [go, go, go]);
    StepOf(s, a);
    TakeStep(s, a);
    var s2 := Advanced(s1, go, [go, go]);
    StepOf(s1, a);
    LeaveStep(s1, a);
    var s3 := Advanced(s2, go, [go]);
    StepOf(s2, a);
    LeaveStep(s2, a);
    t := Advanced(s3, go, []);
    StepOf(s3, a);
    LeaveStep(s3, a);
    ExecNothing(t);
  }

  lemma Advanced(s: State, move: Label, rest: seq<Label>) returns (t: State)
    requires Inv(s)
    ensures t == Step(s, move) && Inv(t) && Exec(s, [move] + rest) == Exec(t, rest)
  {
    hide Inv, Step;
    StepKeeps(s, move);
    t := Step(s, move);
    assert ([move] + rest)[1..] == rest;
  }
}
