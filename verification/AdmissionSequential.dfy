/** What each call answers when nobody is in between: the queue as a caller on its own sees it. */
module AdmissionSequential {
  import opened Common
  import opened Kernel
  import opened Admission
  import opened AdmissionInvariant
  import opened AdmissionTheorems
  import opened AdmissionProgress
  import opened AdmissionVerdicts

  /** No mutex is held. */
  predicate Unlocked(s: State) {
    s.stateLock == None && |s.slotLock| == |s.cells| && forall j :: 0 <= j < |s.slotLock| ==> s.slotLock[j] == None
  }

  predicate FreeAt(s: State, i: nat) {
    i < |s.cells| && s.cells[i].Some? && s.cells[i].value.credit.phase == Free
  }

  ghost predicate Room(s: State) {
    exists i :: FreeAt(s, i)
  }

  /** The answer to a record: the first of these that applies. */
  ghost function LoneVerdict(s: State, o: Observation): Verdict {
    if s.closed then Closed
    else if !o.valid then Invalid
    else if !Room(s) then Full
    else if |Concat(o.chunks)| > s.limit then TooLarge
    else if o.fails then Invalid
    else if s.order.next == U64_MAX then Exhausted
    else Accepted
  }

  // ---------------------------------------------------------------- without room every slot is charged

  lemma AllChargedCounts(s: State)
    requires Inv(s) && AllCharged(s)
    ensures |s.ready| + s.leased == |s.cells|
  {
    hide Inv, LeaseOf;
    var l, r := ChargedSlots(s);
    forall i | i in Below(|s.cells|)
      ensures i in l + r
    {
      assert Charged(s, i);
      ChargedIsIn(s, i);
    }
    SubsetSize(Below(|s.cells|), l + r);
    SubsetSize(l + r, Below(|s.cells|));
  }

  lemma ChargedIsIn(s: State, i: nat)
    requires Inv(s) && i < |s.cells| && Charged(s, i)
    ensures i in LeaseSlots(s).Values || i in ReadySlots(s).Values
  {
    hide Inv, LeaseOf;
    if s.cells[i].Some? && s.cells[i].value.credit.phase == Ready {
      InvStorage(s);
      var k :| 0 <= k < |s.ready| && s.ready[k].0 == i;
      assert k in ReadySlots(s) && ReadySlots(s)[k] == i;
    } else {
      var a :| a in s.actors && LeaseOf(s.actors[a]).Some? && LeaseOf(s.actors[a]).value.index == i;
      assert a in LeaseSlots(s) && LeaseSlots(s)[a] == i;
    }
  }

  /** A reservation holds its slot's mutex. */
  lemma ReservationLocks(n: nat, pc: Pc)
    requires Reservation(pc).Some? && LeaseOf(pc) == None
    ensures Owned(pc).Some? ==> HeldSlot(n, pc) == Owned(pc)
  {
  }

  lemma NoRoomIsCharged(s: State)
    requires Inv(s) && Unlocked(s) && !Room(s)
    ensures |s.ready| + s.leased == |s.cells|
  {
    InvOwners(s);
    InvStorage(s);
    InvSlotLocks(s);
    hide Inv, HeldSlot, Owned, LeaseOf, Reservation;
    forall i | 0 <= i < |s.cells|
      ensures Charged(s, i)
    {
      assert !FreeAt(s, i);
      if s.cells[i] == None {
        var a :| a in s.actors && Owned(s.actors[a]) == Some(i);
        OwnerLeases(s, a, i);
      }
    }
    AllChargedCounts(s);
  }

  lemma InvSlotLocks(s: State)
    requires Inv(s)
    ensures SlotLocksAgree(s) && |s.slotLock| == |s.cells| > 0
  {
  }

  lemma OwnerLeases(s: State, a: nat, i: nat)
    requires SlotLocksAgree(s) && Unlocked(s) && a in s.actors && Owned(s.actors[a]) == Some(i)
    ensures LeaseOf(s.actors[a]).Some? && LeaseOf(s.actors[a]).value.index == i
  {
    OwnedBy(|s.cells|, s.actors[a]);
    hide HeldSlot, Owned, LeaseOf, Reservation;
  }

  /** What an actor owns it has leased, or holds under its slot's mutex. */
  lemma OwnedBy(n: nat, pc: Pc)
    requires Owned(pc).Some?
    ensures HeldSlot(n, pc) == Owned(pc) || (LeaseOf(pc).Some? && LeaseOf(pc).value.index == Owned(pc).value)
  {
  }

  // ---------------------------------------------------------------- a record on its way, alone

  /** The record is in, at the back, with its whole text. */
  ghost predicate Recorded(s0: State, s: State, a: nat, o: Observation) {
    && s.log == s0.log + [Entry(a, Concat(o.chunks))]
    && |s.ready| == |s0.ready| + 1 && s.ready[..|s0.ready|] == s0.ready && s.ready[|s0.ready|].1 == s0.order.next
  }

  /** What the call has done once its answer is fixed. */
  ghost predicate Settled(s0: State, s: State, a: nat, o: Observation) {
    var v := LoneVerdict(s0, o);
    && s.closed == s0.closed && s.leased == s0.leased
    && (if v == Accepted then Recorded(s0, s, a, o)
        else s.log == s0.log && s.ready == s0.ready && s.order == s0.order)
    && s.rejected == if v in {Invalid, TooLarge, Full} then SaturatingAdd(s0.rejected, 1) else s0.rejected
  }

  /** Nothing has changed since the call but its own counter and what that holds. */
  ghost predicate Untouched(s0: State, s: State) {
    && s.ready == s0.ready && s.order == s0.order && s.closed == s0.closed && s.log == s0.log && s.limit == s0.limit
    && s.leased == s0.leased && s.rejected == s0.rejected && |s.cells| == |s0.cells|
  }

  ghost predicate Quiet(s0: State, s: State) {
    Untouched(s0, s) && s.slotLock == s0.slotLock && s.stateLock == None && s.cells == s0.cells
  }

  /** The probe has passed these slots by. */
  ghost predicate Behind(s0: State, start: nat, offset: nat) {
    start < |s0.cells| && forall f :: 0 <= f < offset && f < |s0.cells| ==> !FreeAt(s0, ProbedSlot(|s0.cells|, start, f))
  }

  /** The reason a refusal is about to be counted for. */
  ghost predicate Reason(s0: State, o: Observation, reason: Verdict) {
    && reason in {Invalid, TooLarge, Full} && (reason == Full ==> |s0.ready| + s0.leased == |s0.cells|)
    && (!s0.closed ==> reason == LoneVerdict(s0, o))
  }

  ghost predicate Solo(s0: State, s: State, a: nat, o: Observation) {
    && a in s.actors && |s.slotLock| == |s.cells| == |s0.cells| == |s0.slotLock|
    && match s.actors[a]
       case RecordStart(o') => o' == o && Quiet(s0, s)
       case FetchProbe(o') => o' == o && o.valid && Quiet(s0, s)
       case Probing(o', start, offset, contended) =>
         o' == o && o.valid && !contended && Quiet(s0, s) && Behind(s0, start, offset)
       case CellLocked(o', start, offset, contended) =>
         && o' == o && o.valid && !contended && Untouched(s0, s) && s.stateLock == None && s.cells == s0.cells
         && Behind(s0, start, offset) && offset < |s.cells|
         && s.slotLock == s0.slotLock[ProbedSlot(|s.cells|, start, offset) := Some(a)]
       case Encoding(o', h) => o' == o && o.valid && Untouched(s0, s) && s.stateLock == None && Room(s0)
       case Publishing(o', h, len) =>
         o' == o && o.valid && Untouched(s0, s) && s.stateLock == None && Room(s0) && Fitting(o, s0.limit)
       case Committing(o', h, len) => o' == o && o.valid && Untouched(s0, s) && Room(s0) && Fitting(o, s0.limit)
       case Rejecting(reason, _) => Untouched(s0, s) && s.stateLock == None && Reason(s0, o, reason)
       case Counting(reason, _) => Untouched(s0, s) && Reason(s0, o, reason)
       case Unwind(_, _, _, _, end) => end == Finished(Admitted(LoneVerdict(s0, o))) && Settled(s0, s, a, o)
       case Done(outcome) => outcome == Admitted(LoneVerdict(s0, o)) && Settled(s0, s, a, o)
       case _ => false
  }

  predicate Fitting(o: Observation, limit: nat) {
    o.valid && !o.fails && |Concat(o.chunks)| <= limit
  }

  /** A probe that has gone round has passed every slot by. */
  lemma AllBehind(s0: State, start: nat)
    requires Behind(s0, start, |s0.cells|)
    ensures !Room(s0)
  {
    forall i: nat
      ensures !FreeAt(s0, i)
    {
      if i < |s0.cells| {
        var f: nat := if i >= start then i - start else i + (|s0.cells| - start);
        assert ProbedSlot(|s0.cells|, start, f) == i;
      }
    }
  }

  lemma SoloStarts(s0: State, s: State, a: nat, o: Observation)
    requires Inv(s0) && Unlocked(s0) && Solo(s0, s, a, o) && Local(s, a)
    requires s.actors[a].RecordStart? || s.actors[a].FetchProbe?
    ensures Solo(s0, AdvanceRecord(s, a), a, o)
  {
    hide Inv, PcOk, HeldSlot, Owned, LeaseOf, Reservation, CellOk, HeadOk;
  }

  lemma SoloProbes(s0: State, s: State, a: nat, o: Observation)
    requires Inv(s0) && Unlocked(s0) && Solo(s0, s, a, o) && Local(s, a) && s.actors[a].Probing?
    ensures Solo(s0, AdvanceRecord(s, a), a, o)
  {
    hide Inv, PcOk, HeldSlot, Owned, LeaseOf, Reservation, CellOk, HeadOk;
  }

  lemma SoloLooks(s0: State, s: State, a: nat, o: Observation)
    requires Inv(s0) && Unlocked(s0) && Solo(s0, s, a, o) && Local(s, a) && s.actors[a].CellLocked?
    ensures Solo(s0, AdvanceRecord(s, a), a, o)
  {
    hide Inv, PcOk, HeldSlot, Owned, LeaseOf, Reservation, CellOk, HeadOk, Settled;
    var n, start, offset := |s.cells|, s.actors[a].start, s.actors[a].offset;
    var i := ProbedSlot(n, start, offset);
    if s.cells[i].Some? && s.cells[i].value.credit.Reserve().Some? {
      assert FreeAt(s0, i);
    } else {
      assert Behind(s0, start, offset + 1);
      assert s.slotLock[i := None] == s0.slotLock;
      if offset + 1 == n {
        AllBehind(s0, start);
        NoRoomIsCharged(s0);
      }
    }
  }

  lemma SoloEncodes(s0: State, s: State, a: nat, o: Observation)
    requires Solo(s0, s, a, o) && Local(s, a) && (s.actors[a].Encoding? || s.actors[a].Publishing?)
    ensures Solo(s0, AdvanceCommit(s, a), a, o)
  {
    hide HeldSlot, Owned, LeaseOf, CellOk, HeadOk, Encode, Room, Settled;
    if s.actors[a].Encoding? {
      EncodeMeaning(s.actors[a].res.buffer.bytes, o);
      var (_, r) := Encode(s.actors[a].res.buffer.bytes, o);
      if r.Err? {
        assert AdvanceCommit(s, a).actors[a].reason == r.error;
      }
    }
  }

  lemma SoloCommits(s0: State, s: State, a: nat, o: Observation)
    requires Solo(s0, s, a, o) && Local(s, a) && s.actors[a].Committing?
    ensures Solo(s0, AdvanceCommit(s, a), a, o)
  {
    hide HeldSlot, Owned, LeaseOf, CellOk, HeadOk, Room;
  }

  lemma SoloRejects(s0: State, s: State, a: nat, o: Observation)
    requires Solo(s0, s, a, o) && Local(s, a) && (s.actors[a].Rejecting? || s.actors[a].Counting?)
    ensures Solo(s0, AdvanceReject(s, a), a, o)
  {
    hide PcOk, HeldSlot, Owned, LeaseOf, CellOk, HeadOk, Room;
  }

  /** Leaving scope touches neither the queue nor the tickets. */
  predicate SameShape(s: State, t: State) {
    && t.ready == s.ready && t.order == s.order && t.log == s.log && t.leased == s.leased
    && |t.cells| == |s.cells| && |t.slotLock| == |s.slotLock|
  }

  lemma LeavingFrame(s: State, a: nat)
    requires Fit(s, a) && s.actors[a].Unwind?
    ensures SameShape(s, AdvanceUnwind(s, a))
  {
    var u := s.actors[a];
    if u.restore.Some? && !(u.state && (!u.slotFirst || u.slot == None)) {
      RestoreFrame(s, a);
      hide AdvanceUnwind;
    } else if u.state && (!u.slotFirst || u.slot == None) {
    } else if u.slot.Some? {
    }
  }

  lemma RestoreFrame(s: State, a: nat)
    requires Fit(s, a) && s.actors[a].Unwind? && s.actors[a].restore.Some?
    requires !(s.actors[a].state && (!s.actors[a].slotFirst || s.actors[a].slot == None))
    ensures SameShape(s, AdvanceUnwind(s, a))
  {
  }

  lemma SoloLeaves(s0: State, s: State, a: nat, o: Observation)
    requires Solo(s0, s, a, o) && Local(s, a) && s.actors[a].Unwind?
    ensures Solo(s0, AdvanceUnwind(s, a), a, o)
  {
    hide PcOk, HeldSlot, Owned, LeaseOf, Reservation, CellOk, HeadOk, Room, LoneVerdict, Untouched, Behind, Quiet, Reason,
      AdvanceUnwind, Fit;
    LeavingShape(s, a);
    LeavingFrame(s, a);
  }

  /** Where such a call can be. */
  lemma SoloShape(s0: State, s: State, a: nat, o: Observation)
    requires Solo(s0, s, a, o)
    ensures a in s.actors
    ensures var pc := s.actors[a];
      || pc.RecordStart? || pc.FetchProbe? || pc.Probing? || pc.CellLocked? || pc.Encoding? || pc.Publishing? || pc.Committing?
      || pc.Rejecting? || pc.Counting? || pc.Unwind? || pc.Done?
  {
    hide Untouched, Quiet, Behind, Reason, Settled;
  }

  lemma SoloSteps(s0: State, s: State, a: nat, o: Observation)
    requires Inv(s0) && Unlocked(s0) && Solo(s0, s, a, o) && Inv(s)
    ensures Solo(s0, Step(s, Advance(a)), a, o)
  {
    hide Inv, Local, Unlocked, AdvanceRecord, AdvanceCommit, AdvanceReject, AdvanceDequeue, AdvanceShutdown, AdvanceDrop,
      AdvanceUnwind, Fit, Solo;
    SoloShape(s0, s, a, o);
    LocalHolds(s, a);
    LocalFits(s, a);
    match s.actors[a]
    case RecordStart(_) => SoloStarts(s0, s, a, o);
    case FetchProbe(_) => SoloStarts(s0, s, a, o);
    case Probing(_, _, _, _) => SoloProbes(s0, s, a, o);
    case CellLocked(_, _, _, _) => SoloLooks(s0, s, a, o);
    case Encoding(_, _) => SoloEncodes(s0, s, a, o);
    case Publishing(_, _, _) => SoloEncodes(s0, s, a, o);
    case Committing(_, _, _) => SoloCommits(s0, s, a, o);
    case Rejecting(_, _) => SoloRejects(s0, s, a, o);
    case Counting(_, _) => SoloRejects(s0, s, a, o);
    case Unwind(_, _, _, _, _) => SoloLeaves(s0, s, a, o);
    case Done(_) =>
  }

  lemma {:induction false} SoloRuns(s0: State, s: State, a: nat, o: Observation, n: nat)
    requires Inv(s0) && Unlocked(s0) && Solo(s0, s, a, o) && Inv(s)
    ensures Solo(s0, Exec(s, Steps(a, n)), a, o) && CountAdvances(Steps(a, n), a) == n
    decreases n
  {
    hide Inv, Unlocked, Solo, Step;
    if n > 0 {
      assert Steps(a, n)[1..] == Steps(a, n - 1) && Steps(a, n)[0] == Advance(a);
      StepKeeps(s, Advance(a));
      SoloSteps(s0, s, a, o);
      SoloRuns(s0, Step(s, Advance(a)), a, o, n - 1);
    }
  }

  lemma SoloBegins(s: State, a: nat, o: Observation)
    requires Unlocked(s) && a !in s.actors
    ensures var t := Step(s, Invoke(a, Record(o)));
      Solo(s, t, a, o) && a in t.actors && t.actors[a] == RecordStart(o) && |t.cells| == |s.cells|
  {
  }

  lemma SoloEnds(s0: State, s: State, a: nat, o: Observation)
    requires Solo(s0, s, a, o) && StepsLeft(|s.cells|, s.actors[a]) == 0
    ensures s.actors[a] == Done(Admitted(LoneVerdict(s0, o))) && Settled(s0, s, a, o)
  {
    hide Settled, Untouched, Quiet, Behind, Reason, LoneVerdict;
  }

  /** A record call and enough steps of its own to return. */
  function RecordAlone(a: nat, o: Observation, slots: nat): seq<Label> {
    [Invoke(a, Record(o))] + Steps(a, 2 * slots + 11)
  }

  /**
  After any schedule that leaves no mutex held: a record call with nobody in between returns, and its answer and its
  effect are those of the state it found.
  */
  lemma RecordAnswers(slots: nat, limit: nat, moves: seq<Label>, a: nat, o: Observation)
    requires slots > 0 && Unlocked(Run(slots, limit, moves)) && a !in Run(slots, limit, moves).actors
    ensures var s, t := Run(slots, limit, moves), Run(slots, limit, moves + RecordAlone(a, o, slots));
      a in t.actors && t.actors[a] == Done(Admitted(LoneVerdict(s, o))) && Settled(s, t, a, o)
  {
    hide Inv, Exec, Step, Steps, Solo, Unlocked, StepsLeft, Settled, LoneVerdict, Run;
    RunInv(slots, limit, moves);
    RunLimit(slots, limit, moves);
    var s := Run(slots, limit, moves);
    var call, rest := Invoke(a, Record(o)), Steps(a, 2 * slots + 11);
    RunSnoc(slots, limit, moves, call);
    StepKeeps(s, call);
    StepFrame(s, call);
    SoloBegins(s, a, o);
    var t := Step(s, call);
    SoloRuns(s, t, a, o, 2 * slots + 11);
    StartCost(slots, o);
    CallsReturnFrom(t, rest, a);
    var u := Exec(t, rest);
    assert moves + RecordAlone(a, o, slots) == moves + [call] + rest;
    RunJoin(slots, limit, moves + [call], rest);
    RunLimit(slots, limit, moves + [call] + rest);
    SoloEnds(s, u, a, o);
  }

  /** In particular: valid, fitting, and a free slot and a ticket left in an open queue, and it is in at the back. */
  lemma RecordAccepts(slots: nat, limit: nat, moves: seq<Label>, a: nat, o: Observation, i: nat)
    requires slots > 0 && Unlocked(Run(slots, limit, moves)) && a !in Run(slots, limit, moves).actors && Fitting(o, limit)
    requires var s := Run(slots, limit, moves); !s.closed && s.order.next < U64_MAX && FreeAt(s, i)
    ensures var s, t := Run(slots, limit, moves), Run(slots, limit, moves + RecordAlone(a, o, slots));
      a in t.actors && t.actors[a] == Done(Admitted(Accepted)) && Recorded(s, t, a, o)
  {
    hide Exec, Step, Steps, Run, Unlocked, RecordAlone, FreeAt, Recorded;
    RunLimit(slots, limit, moves);
    RecordAnswers(slots, limit, moves, a, o);
  }

  // ---------------------------------------------------------------- a lease dropped, alone

  /** Where the drop of a lease is with k steps to go. */
  function DropStage(l: Lease, k: nat): Pc {
    if k >= 6 then DropSlot(l)
    else if k == 5 then DropState(l)
    else if k == 4 then Dropping(l)
    else if k == 3 then Unwind(true, Some(l.index), false, None, Finished(Returned))
    else if k == 2 then Unwind(false, Some(l.index), false, None, Finished(Returned))
    else if k == 1 then Unwind(false, None, false, None, Finished(Returned))
    else Done(Returned)
  }

  /** The buffer is back in its cell, free and empty, and no longer on loan; no other cell has changed. */
  predicate GivenBack(s0: State, s: State, l: Lease) {
    && s.leased + 1 == s0.leased && FreeAt(s, l.index) && s.cells[l.index].value.credit.len == 0
    && |s.cells| == |s0.cells| && forall j :: 0 <= j < |s.cells| && j != l.index ==> s.cells[j] == s0.cells[j]
  }

  /** What a drop never touches. */
  predicate QueueStands(s0: State, s: State) {
    && s.ready == s0.ready && s.order == s0.order && s.log == s0.log && s.closed == s0.closed && s.rejected == s0.rejected
    && s.taken == s0.taken
  }

  /** A drop with nobody in between: it holds the slot from its first step to its last, the state inside of that. */
  predicate Returning(s0: State, s: State, a: nat, l: Lease, k: nat) {
    && a in s.actors && s.actors[a] == DropStage(l, k) && QueueStands(s0, s)
    && l.index < |s0.slotLock| && s.slotLock == (if 2 <= k <= 5 then s0.slotLock[l.index := Some(a)] else s0.slotLock)
    && s.stateLock == (if 3 <= k <= 4 then Some(a) else None)
    && if k >= 4 then s.cells == s0.cells && s.leased == s0.leased else GivenBack(s0, s, l)
  }

  lemma DropSteps(s0: State, s: State, a: nat, l: Lease, k: nat)
    requires Local(s, a) && Returning(s0, s, a, l, k) && 0 < k <= 6
    requires l.index < |s0.slotLock| && s0.slotLock[l.index] == None
    ensures Returning(s0, Step(s, Advance(a)), a, l, k - 1)
  {
    hide PcShaped, HeadOk, CellOk, AdvanceRecord, AdvanceCommit, AdvanceReject, AdvanceDequeue, AdvanceShutdown;
    if k >= 4 {
      hide AdvanceUnwind;
      DropAdvances(s0, s, a, l, k);
    } else {
      hide AdvanceDrop;
      DropLeaves(s0, s, a, l, k);
    }
  }

  lemma DropAdvances(s0: State, s: State, a: nat, l: Lease, k: nat)
    requires Local(s, a) && Returning(s0, s, a, l, k) && 4 <= k <= 6
    requires l.index < |s0.slotLock| && s0.slotLock[l.index] == None
    ensures Returning(s0, AdvanceDrop(s, a), a, l, k - 1)
  {
    hide HeadOk, CellOk;
  }

  lemma DropLeaves(s0: State, s: State, a: nat, l: Lease, k: nat)
    requires Fit(s, a) && Returning(s0, s, a, l, k) && 0 < k < 4
    requires l.index < |s0.slotLock| && s0.slotLock[l.index] == None
    ensures Returning(s0, AdvanceUnwind(s, a), a, l, k - 1)
  {
    assert s0.slotLock[l.index := Some(a)][l.index := None] == s0.slotLock;
  }

  lemma {:induction false} DropRuns(s0: State, s: State, a: nat, l: Lease, k: nat)
    requires Inv(s) && Returning(s0, s, a, l, k) && k <= 6 && l.index < |s0.slotLock| && s0.slotLock[l.index] == None
    ensures Returning(s0, Exec(s, Steps(a, k)), a, l, 0)
    decreases k
  {
    hide Inv, Returning, Step;
    if k > 0 {
      assert Steps(a, k)[1..] == Steps(a, k - 1) && Steps(a, k)[0] == Advance(a);
      assert a in s.actors by { Here(s0, s, a, l, k); }
      StepKeeps(s, Advance(a));
      LocalHolds(s, a);
      DropSteps(s0, s, a, l, k);
      DropRuns(s0, Step(s, Advance(a)), a, l, k - 1);
    }
  }

  lemma Here(s0: State, s: State, a: nat, l: Lease, k: nat)
    requires Returning(s0, s, a, l, k)
    ensures a in s.actors
  {
  }

  lemma DropBeginsHere(s: State, a: nat)
    requires a in s.actors && s.actors[a].Live? && s.stateLock == None && s.actors[a].lease.index < |s.slotLock|
    ensures Returning(s, Step(s, Drop(a)), a, s.actors[a].lease, 6)
  {
  }

  lemma DropEnds(s0: State, s: State, a: nat, l: Lease)
    requires Returning(s0, s, a, l, 0)
    ensures a in s.actors && s.actors[a] == Done(Returned) && GivenBack(s0, s, l) && QueueStands(s0, s)
    ensures s.slotLock == s0.slotLock && s.stateLock == None
  {
  }

  /** After any schedule: a live lease dropped with both its mutexes free gives its buffer back, and the queue stands as it was. */
  lemma DropReturns(slots: nat, limit: nat, moves: seq<Label>, a: nat)
    requires slots > 0
    requires var s := Run(slots, limit, moves); Unlocked(s) && a in s.actors && s.actors[a].Live?
    ensures var s, t := Run(slots, limit, moves), Run(slots, limit, moves + [Drop(a)] + Steps(a, 6));
      && a in t.actors && t.actors[a] == Done(Returned) && GivenBack(s, t, s.actors[a].lease) && QueueStands(s, t) && Unlocked(t)
  {
    hide Inv, Exec, Step, Steps, Run, Returning, GivenBack, QueueStands;
    RunInv(slots, limit, moves);
    var s := Run(slots, limit, moves);
    LocalHolds(s, a);
    LeaseInRange(s, a);
    DropBeginsHere(s, a);
    StepKeeps(s, Drop(a));
    RunSnoc(slots, limit, moves, Drop(a));
    RunJoin(slots, limit, moves + [Drop(a)], Steps(a, 6));
    DropRuns(s, Step(s, Drop(a)), a, s.actors[a].lease, 6);
    var t := Run(slots, limit, moves + [Drop(a)] + Steps(a, 6));
    DropEnds(s, t, a, s.actors[a].lease);
    assert |t.cells| == |s.cells| by { assert GivenBack(s, t, s.actors[a].lease); SameLength(s, t, s.actors[a].lease); }
  }

  lemma SameLength(s0: State, s: State, l: Lease)
    requires GivenBack(s0, s, l)
    ensures |s.cells| == |s0.cells|
  {
  }

  lemma LeaseInRange(s: State, a: nat)
    requires Local(s, a) && s.actors[a].Live?
    ensures s.actors[a].lease.index < |s.slotLock|
  {
    hide PcOk, HeadOk, CellOk;
  }

  // ---------------------------------------------------------------- a shutdown, and a dequeue of nothing, alone

  /** Where a shutdown is with k steps to go. */
  function StopStage(k: nat): Pc {
    if k >= 4 then ShutdownStart
    else if k == 3 then Closing
    else if k > 0 then Unwind(k == 2, None, true, None, Finished(Stopped))
    else Done(Stopped)
  }

  /** Where a dequeue of an empty queue is with k steps to go. */
  function EmptyStage(k: nat): Pc {
    if k >= 5 then DequeueStart
    else if k == 4 then DequeueLock
    else if k == 3 then Peeking
    else if k > 0 then Unwind(k == 2, None, true, None, Finished(Nothing))
    else Done(Nothing)
  }

  function Stage(op: Op, k: nat): Pc {
    if op == Shutdown then StopStage(k) else EmptyStage(k)
  }

  /** Such a call on its way: it holds the state mutex in the middle, and leaves the closed flag or nothing. */
  predicate Passing(s0: State, s: State, a: nat, op: Op, k: nat) {
    && a in s.actors && s.actors[a] == Stage(op, k) && s.slotLock == s0.slotLock && s.cells == s0.cells
    && s.stateLock == (if 2 <= k <= 3 then Some(a) else None)
    && s.ready == s0.ready && s.order == s0.order && s.log == s0.log && s.leased == s0.leased && s.rejected == s0.rejected
    && s.closed == ((op == Shutdown && k <= 2) || s0.closed)
  }

  function Length(op: Op): nat {
    if op == Shutdown then 4 else 5
  }

  lemma PassSteps(s0: State, s: State, a: nat, op: Op, k: nat)
    requires Local(s, a) && Passing(s0, s, a, op, k) && 0 < k <= Length(op) && (op == Shutdown || (op == Dequeue && s0.ready == []))
    ensures Passing(s0, Step(s, Advance(a)), a, op, k - 1)
  {
    hide PcOk, PcShaped, HeadOk, CellOk, AdvanceRecord, AdvanceCommit, AdvanceReject, AdvanceDrop;
    if k <= 2 {
      hide AdvanceDequeue, AdvanceShutdown;
    } else {
      hide AdvanceUnwind;
    }
  }

  lemma {:induction false} PassRuns(s0: State, s: State, a: nat, op: Op, k: nat)
    requires Inv(s) && Passing(s0, s, a, op, k) && k <= Length(op) && (op == Shutdown || (op == Dequeue && s0.ready == []))
    ensures Passing(s0, Exec(s, Steps(a, k)), a, op, 0)
    decreases k
  {
    hide Inv, Step;
    if k > 0 {
      assert Steps(a, k)[1..] == Steps(a, k - 1) && Steps(a, k)[0] == Advance(a);
      StepKeeps(s, Advance(a));
      LocalHolds(s, a);
      hide Local;
      PassSteps(s0, s, a, op, k);
      PassRuns(s0, Step(s, Advance(a)), a, op, k - 1);
    }
  }

  lemma PassBegins(s: State, a: nat, op: Op)
    requires a !in s.actors && s.stateLock == None && !op.Record?
    ensures Passing(s, Step(s, Invoke(a, op)), a, op, Length(op))
  {
  }

  lemma PassAnswers(slots: nat, limit: nat, moves: seq<Label>, a: nat, op: Op)
    requires slots > 0
    requires var s := Run(slots, limit, moves); s.stateLock == None && a !in s.actors && (op == Shutdown || (op == Dequeue && s.ready == []))
    ensures Passing(Run(slots, limit, moves), Run(slots, limit, moves + [Invoke(a, op)] + Steps(a, Length(op))), a, op, 0)
  {
    hide Inv, Exec, Step, Steps, Run, Passing;
    RunInv(slots, limit, moves);
    var s := Run(slots, limit, moves);
    PassBegins(s, a, op);
    StepKeeps(s, Invoke(a, op));
    RunSnoc(slots, limit, moves, Invoke(a, op));
    RunJoin(slots, limit, moves + [Invoke(a, op)], Steps(a, Length(op)));
    PassRuns(s, Step(s, Invoke(a, op)), a, op, Length(op));
  }

  /** After any schedule with the state mutex free: a shutdown with nobody in between is answered Ok and closes the queue. */
  lemma ShutdownCloses(slots: nat, limit: nat, moves: seq<Label>, a: nat)
    requires slots > 0 && Run(slots, limit, moves).stateLock == None && a !in Run(slots, limit, moves).actors
    ensures var s, t := Run(slots, limit, moves), Run(slots, limit, moves + [Invoke(a, Shutdown)] + Steps(a, 4));
      && a in t.actors && t.actors[a] == Done(Stopped) && t.closed && t.stateLock == None
      && t.ready == s.ready && t.cells == s.cells && t.log == s.log && t.rejected == s.rejected
  {
    hide Run, Steps;
    PassAnswers(slots, limit, moves, a, Shutdown);
  }

  /** And a dequeue of an empty queue finds nothing, open or closed, and changes nothing. */
  lemma DequeueFindsNothing(slots: nat, limit: nat, moves: seq<Label>, a: nat)
    requires slots > 0 && Run(slots, limit, moves).stateLock == None && a !in Run(slots, limit, moves).actors
    requires Run(slots, limit, moves).ready == []
    ensures var s, t := Run(slots, limit, moves), Run(slots, limit, moves + [Invoke(a, Dequeue)] + Steps(a, 5));
      && a in t.actors && t.actors[a] == Done(Nothing) && t.closed == s.closed && t.stateLock == None
      && t.ready == [] && t.cells == s.cells && t.log == s.log && t.rejected == s.rejected
  {
    hide Run, Steps;
    PassAnswers(slots, limit, moves, a, Dequeue);
  }

  // ---------------------------------------------------------------- the order of release

  /** Leaving with both mutexes, a record and a drop give up the state before anything else, a dequeue while still holding it the slot. */
  lemma GuardsLeave(slots: nat, limit: nat, moves: seq<Label>, a: nat)
    requires slots > 0
    requires var s := Run(slots, limit, moves);
      a in s.actors && s.actors[a].Unwind? && s.actors[a].state && s.actors[a].slot.Some?
    ensures var s := Run(slots, limit, moves);
      var t := Step(s, Advance(a));
      && a in s.ops && s.stateLock == Some(a)
      && (if s.ops[a] == Dequeue && s.actors[a].end != Finished(Returned) then t.stateLock == Some(a)
          else t.stateLock == None && t.slotLock == s.slotLock && t.cells == s.cells)
  {
    hide Inv, Local, Run, Step;
    RunInv(slots, limit, moves);
    LocalHolds(Run(slots, limit, moves), a);
    GuardStep(Run(slots, limit, moves), a);
  }

  lemma GuardStep(s: State, a: nat)
    requires Local(s, a) && s.actors[a].Unwind? && s.actors[a].state && s.actors[a].slot.Some?
    ensures var t := Step(s, Advance(a));
      && a in s.ops && s.stateLock == Some(a)
      && (if s.ops[a] == Dequeue && s.actors[a].end != Finished(Returned) then t.stateLock == Some(a)
          else t.stateLock == None && t.slotLock == s.slotLock && t.cells == s.cells)
  {
    hide AdvanceRecord, AdvanceCommit, AdvanceReject, AdvanceDequeue, AdvanceShutdown, AdvanceDrop, HeadOk, CellOk;
  }

  // ---------------------------------------------------------------- where the probes begin

  predicate Fetching(s: State, move: Label) {
    move.Advance? && move.actor in s.actors && s.actors[move.actor].FetchProbe?
  }

  /** How many calls have fetched a probe. */
  function Fetches(s: State, moves: seq<Label>): nat
    decreases |moves|
  {
    if moves == [] then 0 else (if Fetching(s, moves[0]) then 1 else 0) + Fetches(Step(s, moves[0]), moves[1..])
  }

  lemma OtherSteps(s: State, a: nat)
    requires Fit(s, a)
    ensures AdvanceCommit(s, a).probe == s.probe && AdvanceReject(s, a).probe == s.probe
    ensures AdvanceShutdown(s, a).probe == s.probe && AdvanceDrop(s, a).probe == s.probe && AdvanceUnwind(s, a).probe == s.probe
  {
    hide PcShaped, Encode;
  }

  lemma DequeueSteps(s: State, a: nat)
    requires Fit(s, a)
    ensures AdvanceDequeue(s, a).probe == s.probe
  {
    hide PcShaped, Encode;
  }

  lemma ProbeStep(s: State, move: Label)
    requires Inv(s)
    ensures Step(s, move).probe == if Fetching(s, move) then (s.probe + 1) % (U64_MAX + 1) else s.probe
    ensures Fetching(s, move) ==>
              && move.actor in Step(s, move).actors && 0 < |s.cells|
              && Step(s, move).actors[move.actor] == Probing(s.actors[move.actor].o, s.probe % |s.cells|, 0, false)
  {
    hide Inv, AdvanceCommit, AdvanceReject, AdvanceDequeue, AdvanceShutdown, AdvanceDrop, AdvanceUnwind, PcShaped;
    if move.Advance? && move.actor in s.actors {
      LocalHolds(s, move.actor);
      LocalFits(s, move.actor);
      hide Local;
      OtherSteps(s, move.actor);
      DequeueSteps(s, move.actor);
    }
  }

  lemma {:induction false} ProbeFrom(s: State, moves: seq<Label>)
    requires Inv(s) && s.probe <= U64_MAX
    ensures Exec(s, moves).probe == (s.probe + Fetches(s, moves)) % (U64_MAX + 1)
    decreases |moves|
  {
    hide Inv, Step;
    if moves != [] {
      StepKeeps(s, moves[0]);
      ProbeStep(s, moves[0]);
      ProbeFrom(Step(s, moves[0]), moves[1..]);
    }
  }

  /** Calls begin their scans at the slots in turn: the k-th to fetch, from 0 on, at k modulo 2^64 modulo the slots. */
  lemma ScansTakeTurns(slots: nat, limit: nat, moves: seq<Label>, a: nat)
    requires slots > 0 && Fetching(Run(slots, limit, moves), Advance(a))
    ensures var s, k := Run(slots, limit, moves), Fetches(Init(slots, limit), moves);
      && a in Run(slots, limit, moves + [Advance(a)]).actors
      && Run(slots, limit, moves + [Advance(a)]).actors[a] == Probing(s.actors[a].o, k % (U64_MAX + 1) % slots, 0, false)
  {
    hide Inv, Step, Exec;
    RunInv(slots, limit, moves);
    RunInv(slots, limit, []);
    RunLimit(slots, limit, moves);
    ExecNothing(Init(slots, limit));
    assert Init(slots, limit).probe == 0;
    ProbeFrom(Init(slots, limit), moves);
    RunSnoc(slots, limit, moves, Advance(a));
    ProbeStep(Run(slots, limit, moves), Advance(a));
  }
}
