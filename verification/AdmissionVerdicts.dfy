/** The account of refusals in every run: what is counted, what a closed queue still answers, and what a locked slot rules out. */
module AdmissionVerdicts {
  import opened Common
  import opened Kernel
  import opened Admission
  import opened AdmissionInvariant
  import opened AdmissionTheorems
  import opened AdmissionProgress

  /** A call that has been refused as invalid, too large, or for want of a slot. */
  predicate Counted(pc: Pc) {
    Answer(pc).Some? && Answer(pc).value in {Admitted(Invalid), Admitted(TooLarge), Admitted(Full)}
  }

  function Refusals(s: State): set<nat> {
    set a | a in s.actors && Counted(s.actors[a])
  }

  // ---------------------------------------------------------------- single steps

  /** A call on its way out with this end. */
  predicate Leaves(pc: Pc, end: End) {
    || (pc.Unwind? && pc.end == end)
    || (pc.Done? && end == Finished(pc.outcome))
    || (pc.Live? && end.AsLease?)
  }

  /** Leaving scope releases one thing after another and ends with the answer there was, or the lease. */
  lemma LeavingShape(s: State, a: nat)
    requires Fit(s, a) && s.actors[a].Unwind?
    ensures var t := AdvanceUnwind(s, a);
      t.rejected == s.rejected && t.closed == s.closed && a in t.actors && Leaves(t.actors[a], s.actors[a].end)
  {
    var u := s.actors[a];
    if u.state && (!u.slotFirst || u.slot == None) {
      assert AdvanceUnwind(s, a).actors[a] == u.(state := false);
    } else if u.restore.Some? {
      RestoreShape(s, a);
      hide AdvanceUnwind;
    } else if u.slot.Some? {
      assert AdvanceUnwind(s, a).actors[a] == u.(slot := None);
    }
  }

  lemma RestoreShape(s: State, a: nat)
    requires Fit(s, a) && s.actors[a].Unwind? && s.actors[a].restore.Some?
    requires !(s.actors[a].state && (!s.actors[a].slotFirst || s.actors[a].slot == None))
    ensures var t := AdvanceUnwind(s, a);
      t.rejected == s.rejected && t.closed == s.closed && a in t.actors && t.actors[a] == s.actors[a].(restore := None)
  {
  }

  lemma LeavingKeeps(s: State, a: nat)
    requires Fit(s, a) && s.actors[a].Unwind? && Answer(s.actors[a]).Some?
    ensures var t := AdvanceUnwind(s, a);
      && t.rejected == s.rejected && t.closed == s.closed && a in t.actors && Answer(t.actors[a]) == Answer(s.actors[a])
  {
    hide Fit, AdvanceUnwind;
    LeavingShape(s, a);
  }

  lemma AnsweredKeeps(s: State, a: nat)
    requires Inv(s) && a in s.actors && Answer(s.actors[a]).Some?
    ensures var t := Step(s, Advance(a));
      && t.rejected == s.rejected && t.closed == s.closed && a in t.actors && Answer(t.actors[a]) == Answer(s.actors[a])
  {
    hide Inv, AdvanceRecord, AdvanceCommit, AdvanceReject, AdvanceDequeue, AdvanceShutdown, AdvanceDrop, AdvanceUnwind, PcShaped;
    if s.actors[a].Unwind? {
      LocalHolds(s, a);
      LocalFits(s, a);
      LeavingKeeps(s, a);
    }
  }

  /** What one actor's step does to the account: nothing, or one refusal more, and that only of an open queue. */
  lemma OwnAccount(s: State, a: nat)
    requires Inv(s) && a in s.actors
    ensures var t := Step(s, Advance(a));
      && a in t.actors && (Counted(s.actors[a]) ==> Counted(t.actors[a]) && Answer(t.actors[a]) == Answer(s.actors[a]))
      && (if Counted(t.actors[a]) && !Counted(s.actors[a]) then !s.closed && t.rejected == SaturatingAdd(s.rejected, 1)
          else t.rejected == s.rejected)
  {
    hide Inv, Step, Answer;
    if Answer(s.actors[a]).Some? {
      AnsweredKeeps(s, a);
    } else {
      LocalHolds(s, a);
      ChargesBounded(s);
      StepSettles(s, a);
    }
  }

  lemma CallAccount(s: State, move: Label)
    requires !move.Advance? || move.actor !in s.actors
    ensures var t := Step(s, move);
      && t.rejected == s.rejected && Refusals(t) == Refusals(s)
      && (forall a :: a in s.actors && Counted(s.actors[a]) ==> a in t.actors && t.actors[a] == s.actors[a])
  {
    hide AdvanceRecord, AdvanceCommit, AdvanceReject, AdvanceDequeue, AdvanceShutdown, AdvanceDrop, AdvanceUnwind, PcShaped;
  }

  lemma OthersStay(s: State, b: nat)
    requires Inv(s) && b in s.actors
    ensures forall a :: a != b ==> (a in Step(s, Advance(b)).actors <==> a in s.actors)
    ensures forall a :: a != b && a in s.actors ==> Step(s, Advance(b)).actors[a] == s.actors[a]
  {
    hide Inv, Step;
    forall a | a != b
      ensures a in Step(s, Advance(b)).actors <==> a in s.actors
      ensures a in s.actors ==> Step(s, Advance(b)).actors[a] == s.actors[a]
    {
      OtherActor(s, b, a);
    }
  }

  lemma Account(s: State, move: Label)
    requires Inv(s)
    ensures var t := Step(s, move);
      && Refusals(s) <= Refusals(t) && (s.closed ==> Refusals(t) == Refusals(s))
      && (if |Refusals(t)| == |Refusals(s)| then t.rejected == s.rejected
          else |Refusals(t)| == |Refusals(s)| + 1 && t.rejected == SaturatingAdd(s.rejected, 1))
      && (forall a :: a in Refusals(s) ==> Answer(t.actors[a]) == Answer(s.actors[a]))
  {
    hide Inv, Step, Counted, Answer;
    if move.Advance? && move.actor in s.actors {
      var b := move.actor;
      OwnAccount(s, b);
      OthersStay(s, b);
      var t := Step(s, move);
      if Counted(t.actors[b]) && !Counted(s.actors[b]) {
        assert Refusals(t) == Refusals(s) + {b};
      } else {
        assert Refusals(t) == Refusals(s);
      }
    } else {
      CallAccount(s, move);
    }
  }

  // ---------------------------------------------------------------- whole runs

  /** The counter is the number of calls refused as invalid, too large or for want of a slot, up to the 64-bit maximum. */
  lemma {:induction false} RejectedCounts(slots: nat, limit: nat, moves: seq<Label>)
    requires slots > 0
    ensures var s := Run(slots, limit, moves); s.rejected == Min(U64_MAX, |Refusals(s)|)
    decreases |moves|
  {
    hide Inv, Step, Run, Counted;
    if moves == [] {
      NobodyYet(slots, limit);
      NoneRejected(slots, limit);
    } else {
      var init, last := moves[..|moves| - 1], moves[|moves| - 1];
      assert moves == init + [last];
      RunSnoc(slots, limit, init, last);
      RunInv(slots, limit, init);
      RejectedCounts(slots, limit, init);
      Account(Run(slots, limit, init), last);
    }
  }

  lemma NoneRejected(slots: nat, limit: nat)
    ensures Run(slots, limit, []).rejected == 0
  {
  }

  lemma {:induction false} ClosedAccount(s: State, moves: seq<Label>)
    requires Inv(s) && s.closed
    ensures var t := Exec(s, moves);
      Refusals(t) == Refusals(s) && t.rejected == s.rejected && forall a :: a in Refusals(s) ==> Answer(t.actors[a]) == Answer(s.actors[a])
    decreases |moves|
  {
    hide Inv, Step, Counted, Answer;
    if moves != [] {
      StepKeeps(s, moves[0]);
      ClosedStep(s, moves[0]);
      Account(s, moves[0]);
      ClosedAccount(Step(s, moves[0]), moves[1..]);
    }
  }

  /** Once closed, nobody is answered Invalid, TooLarge or Full any more, and the count stands for good. */
  lemma ClosedRefusesAsClosed(slots: nat, limit: nat, before: seq<Label>, moves: seq<Label>)
    requires slots > 0 && Run(slots, limit, before).closed
    ensures var s, t := Run(slots, limit, before), Run(slots, limit, before + moves);
      && t.rejected == s.rejected
      && forall a :: a in t.actors && Counted(t.actors[a]) ==> a in s.actors && Answer(t.actors[a]) == Answer(s.actors[a])
  {
    hide Inv, Exec, Counted, Answer;
    RunInv(slots, limit, before);
    ExecJoin(Init(slots, limit), before, moves);
    ClosedAccount(Run(slots, limit, before), moves);
    var s, t := Run(slots, limit, before), Run(slots, limit, before + moves);
    forall a | a in t.actors && Counted(t.actors[a])
      ensures a in s.actors && Answer(t.actors[a]) == Answer(s.actors[a])
    {
      assert a in Refusals(t);
    }
  }

  // ---------------------------------------------------------------- a locked slot met

  /** This call can no longer answer Full. */
  predicate NotFull(pc: Pc) {
    match pc
    case RecordStart(_) => false
    case FetchProbe(_) => false
    case Probing(_, _, _, contended) => contended
    case CellLocked(_, _, _, contended) => contended
    case Rejecting(reason, _) => reason != Full
    case Counting(reason, _) => reason != Full
    case Unwind(_, _, _, _, end) => end != Finished(Admitted(Full))
    case Done(outcome) => outcome != Admitted(Full)
    case _ => true
  }

  lemma RecordStays(s: State, a: nat)
    requires Fit(s, a) && (s.actors[a].Probing? || s.actors[a].CellLocked?) && (NotFull(s.actors[a]) || SlotBusy(s, a))
    ensures var t := AdvanceRecord(s, a); a in t.actors && NotFull(t.actors[a])
  {
    hide PcShaped;
  }

  lemma EncodingStays(s: State, a: nat)
    requires Fit(s, a) && s.actors[a].Encoding?
    ensures var t := AdvanceCommit(s, a); a in t.actors && NotFull(t.actors[a])
  {
    hide PcShaped, Encode;
    var (bytes, r) := Encode(s.actors[a].res.buffer.bytes, s.actors[a].o);
    EncodeMeaning(s.actors[a].res.buffer.bytes, s.actors[a].o);
    assert r.Err? ==> r.error != Full;
  }

  lemma CommitStays(s: State, a: nat)
    requires Fit(s, a) && (s.actors[a].Publishing? || s.actors[a].Committing?)
    ensures var t := AdvanceCommit(s, a); a in t.actors && NotFull(t.actors[a])
  {
    hide PcShaped;
  }

  lemma RejectStays(s: State, a: nat)
    requires Fit(s, a) && (s.actors[a].Rejecting? || s.actors[a].Counting?) && NotFull(s.actors[a])
    ensures var t := AdvanceReject(s, a); a in t.actors && NotFull(t.actors[a])
  {
    hide PcShaped;
  }

  lemma DequeueStays(s: State, a: nat)
    requires Fit(s, a) && (s.actors[a].DequeueStart? || s.actors[a].DequeueLock?)
    ensures var t := AdvanceDequeue(s, a); a in t.actors && NotFull(t.actors[a])
  {
    hide PcShaped;
  }

  lemma PeekStays(s: State, a: nat)
    requires Fit(s, a) && s.actors[a].Peeking?
    ensures var t := AdvanceDequeue(s, a); a in t.actors && NotFull(t.actors[a])
  {
    hide PcShaped;
  }

  lemma TakingStays(s: State, a: nat)
    requires Fit(s, a) && s.actors[a].Taking?
    ensures var t := AdvanceDequeue(s, a); a in t.actors && NotFull(t.actors[a])
  {
    hide Fit, AdvanceDequeue;
    TakingFlags(s, a);
  }

  lemma OtherStays(s: State, a: nat)
    requires Fit(s, a)
    requires s.actors[a].ShutdownStart? || s.actors[a].Closing?
    ensures var t := AdvanceShutdown(s, a); a in t.actors && NotFull(t.actors[a])
  {
    hide PcShaped;
  }

  lemma DropStaysSo(s: State, a: nat)
    requires Fit(s, a)
    requires s.actors[a].DropSlot? || s.actors[a].DropState? || s.actors[a].Dropping?
    ensures var t := AdvanceDrop(s, a); a in t.actors && NotFull(t.actors[a])
  {
    hide PcShaped;
  }

  lemma UnwindStaysSo(s: State, a: nat)
    requires Fit(s, a) && s.actors[a].Unwind? && NotFull(s.actors[a])
    ensures var t := AdvanceUnwind(s, a); a in t.actors && NotFull(t.actors[a])
  {
    hide Fit, AdvanceUnwind;
    LeavingShape(s, a);
  }

  lemma OwnStepStays(s: State, a: nat)
    requires Inv(s) && a in s.actors && (NotFull(s.actors[a]) || SlotBusy(s, a))
    ensures var t := Step(s, Advance(a)); a in t.actors && NotFull(t.actors[a])
  {
    LocalHolds(s, a);
    LocalFits(s, a);
    hide Inv, Local, PcShaped, PcOk, AdvanceRecord, AdvanceCommit, AdvanceReject, AdvanceDequeue, AdvanceShutdown, AdvanceDrop, AdvanceUnwind;
    match s.actors[a]
    case Probing(_, _, _, _) => RecordStays(s, a);
    case CellLocked(_, _, _, _) => RecordStays(s, a);
    case Encoding(_, _) => EncodingStays(s, a);
    case Publishing(_, _, _) => CommitStays(s, a);
    case Committing(_, _, _) => CommitStays(s, a);
    case Rejecting(_, _) => RejectStays(s, a);
    case Counting(_, _) => RejectStays(s, a);
    case DequeueStart => DequeueStays(s, a);
    case DequeueLock => DequeueStays(s, a);
    case Peeking => PeekStays(s, a);
    case Taking(_, _) => TakingStays(s, a);
    case ShutdownStart => OtherStays(s, a);
    case Closing => OtherStays(s, a);
    case DropSlot(_) => DropStaysSo(s, a);
    case DropState(_) => DropStaysSo(s, a);
    case Dropping(_) => DropStaysSo(s, a);
    case Unwind(_, _, _, _, _) => UnwindStaysSo(s, a);
    case Live(_) =>
    case Done(_) =>
  }

  lemma NotFullStays(s: State, move: Label, a: nat)
    requires Inv(s) && a in s.actors && (NotFull(s.actors[a]) || (move == Advance(a) && SlotBusy(s, a)))
    ensures var t := Step(s, move); a in t.actors && NotFull(t.actors[a])
  {
    hide Inv, AdvanceRecord, AdvanceCommit, AdvanceReject, AdvanceDequeue, AdvanceShutdown, AdvanceDrop, AdvanceUnwind, PcShaped, SlotBusy;
    if move == Advance(a) {
      OwnStepStays(s, a);
    } else if move.Advance? && move.actor in s.actors {
      OtherActor(s, move.actor, a);
    }
  }

  /** A call that has found a slot locked never answers Full, however the queue looks when it is done. */
  lemma {:induction false} LockedSlotIsContention(slots: nat, limit: nat, moves: seq<Label>, a: nat, k: nat)
    requires slots > 0 && k < |moves| && moves[k] == Advance(a) && SlotBusy(Run(slots, limit, moves[..k]), a)
    ensures var s := Run(slots, limit, moves); a in s.actors && NotFull(s.actors[a]) && Answer(s.actors[a]) != Some(Admitted(Full))
    decreases |moves|
  {
    hide Inv, Step, Run, NotFull;
    var init, last := moves[..|moves| - 1], moves[|moves| - 1];
    assert moves == init + [last];
    RunSnoc(slots, limit, init, last);
    RunInv(slots, limit, init);
    if k == |moves| - 1 {
      assert moves[..k] == init;
    } else {
      assert init[..k] == moves[..k];
      LockedSlotIsContention(slots, limit, init, a, k);
    }
    NotFullStays(Run(slots, limit, init), last, a);
    NotFullAnswer(Run(slots, limit, moves).actors[a]);
  }

  lemma NotFullAnswer(pc: Pc)
    requires NotFull(pc)
    ensures Answer(pc) != Some(Admitted(Full))
  {
  }
}
