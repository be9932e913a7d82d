/** What a caller of the admission queue may count on: contention is real, and without it a good record is accepted. */
module AdmissionProgress {
  import opened Common
  import opened Kernel
  import opened Admission
  import opened AdmissionInvariant
  import opened AdmissionTheorems

  // ---------------------------------------------------------------- contention is real

  lemma RunSnoc(slots: nat, limit: nat, moves: seq<Label>, move: Label)
    ensures Run(slots, limit, moves + [move]) == Step(Run(slots, limit, moves), move)
  {
    hide Step;
    ExecJoin(Init(slots, limit), moves, [move]);
    var s := Run(slots, limit, moves);
    assert [move][1..] == [];
    assert Exec(s, [move]) == Exec(Step(s, move), []);
  }

  /** A call is marked contended only by its own step, and only when the slot it tries is locked. */
  lemma FlagStep(s: State, move: Label, a: nat)
    requires Inv(s)
    ensures var t := Step(s, move);
      a in t.actors && Flagged(t.actors[a]) ==>
        (a in s.actors && Flagged(s.actors[a])) || (move == Advance(a) && SlotBusy(s, a))
  {
    hide Inv;
    if move.Advance? && move.actor in s.actors {
      if move.actor == a {
        OwnFlag(s, a);
      } else {
        OtherActor(s, move.actor, a);
      }
    }
  }

  predicate Probes(pc: Pc) {
    pc.Probing? || pc.CellLocked?
  }

  lemma OwnFlag(s: State, a: nat)
    requires Inv(s) && a in s.actors
    ensures var t := Step(s, Advance(a)); a in t.actors && (Flagged(t.actors[a]) ==> Flagged(s.actors[a]) || SlotBusy(s, a))
  {
    LocalHolds(s, a);
    LocalFits(s, a);
    hide Inv, Local, SlotBusy, PcOk;
    if s.actors[a].RecordStart? || s.actors[a].FetchProbe? || Probes(s.actors[a]) {
      hide Fit, AdvanceRecord, Flagged;
      RecordFlags(s, a);
    } else {
      OtherFlags(s, a);
      Unflagged(Step(s, Advance(a)).actors[a]);
      hide Fit, Flagged, Step;
    }
  }

  /** Nothing but the probe loop itself is in the probe loop. */
  lemma OtherFlags(s: State, a: nat)
    requires Fit(s, a) && !s.actors[a].RecordStart? && !s.actors[a].FetchProbe? && !Probes(s.actors[a])
    ensures var t := Step(s, Advance(a)); a in t.actors && !Probes(t.actors[a])
  {
    hide PcShaped, AdvanceRecord, AdvanceCommit, AdvanceReject, AdvanceDequeue, AdvanceShutdown, AdvanceDrop, AdvanceUnwind;
    CommitFlags(s, a);
    RejectFlags(s, a);
    DequeueFlags(s, a);
    ShutdownFlags(s, a);
    DropFlags(s, a);
    UnwindFlags(s, a);
  }

  lemma Unflagged(pc: Pc)
    ensures !Probes(pc) ==> !Flagged(pc)
  {
  }

  lemma RecordFlags(s: State, a: nat)
    requires Fit(s, a)
    ensures var t := AdvanceRecord(s, a); a in t.actors && (Flagged(t.actors[a]) ==> Flagged(s.actors[a]) || SlotBusy(s, a))
  {
    if s.actors[a].Probing? {
      ProbeFlags(s, a);
      hide AdvanceRecord, Flagged, SlotBusy;
    }
  }

  lemma ProbeFlags(s: State, a: nat)
    requires Fit(s, a) && s.actors[a].Probing?
    ensures var t := AdvanceRecord(s, a); a in t.actors && (Flagged(t.actors[a]) ==> Flagged(s.actors[a]) || SlotBusy(s, a))
  {
  }

  lemma CommitFlags(s: State, a: nat)
    requires Fit(s, a) && !Probes(s.actors[a])
    ensures var t := AdvanceCommit(s, a); a in t.actors && !Probes(t.actors[a])
  {
    hide PcShaped, Encode;
    var p := s.actors[a];
    if p.Committing? {
      var t := AdvanceCommit(s, a);
      assert t.actors[a].Unwind?;
    }
  }

  lemma RejectFlags(s: State, a: nat)
    requires Fit(s, a) && !Probes(s.actors[a])
    ensures var t := AdvanceReject(s, a); a in t.actors && !Probes(t.actors[a])
  {
    hide PcShaped, Encode;
  }

  lemma DequeueFlags(s: State, a: nat)
    requires Fit(s, a) && !Probes(s.actors[a])
    ensures var t := AdvanceDequeue(s, a); a in t.actors && !Probes(t.actors[a])
  {
    hide AdvanceDequeue;
    if s.actors[a].Taking? {
      TakingFlags(s, a);
    } else {
      EnteringFlags(s, a);
    }
  }

  lemma TakingFlags(s: State, a: nat)
    requires Fit(s, a) && s.actors[a].Taking?
    ensures var t := AdvanceDequeue(s, a);
      a in t.actors && t.actors[a].Unwind? && (t.actors[a].end.AsLease? || t.actors[a].end.outcome.Refused?)
  {
  }

  lemma EnteringFlags(s: State, a: nat)
    requires Fit(s, a) && !Probes(s.actors[a]) && !s.actors[a].Taking?
    ensures var t := AdvanceDequeue(s, a); a in t.actors && !Probes(t.actors[a])
  {
    hide AdvanceDequeue;
    match s.actors[a]
    case DequeueStart => LockFlags(s, a);
    case DequeueLock => LockFlags(s, a);
    case Peeking => PeekFlags(s, a);
    case _ => ElsewhereFlags(s, a);
  }

  lemma LockFlags(s: State, a: nat)
    requires Fit(s, a) && (s.actors[a].DequeueStart? || s.actors[a].DequeueLock?)
    ensures var t := AdvanceDequeue(s, a); a in t.actors && !Probes(t.actors[a])
  {
    hide PcShaped;
  }

  lemma PeekFlags(s: State, a: nat)
    requires Fit(s, a) && s.actors[a].Peeking?
    ensures var t := AdvanceDequeue(s, a); a in t.actors && !Probes(t.actors[a])
  {
    hide PcShaped;
  }

  lemma ElsewhereFlags(s: State, a: nat)
    requires Fit(s, a)
    requires !s.actors[a].DequeueStart? && !s.actors[a].DequeueLock? && !s.actors[a].Peeking? && !s.actors[a].Taking?
    ensures AdvanceDequeue(s, a) == s
  {
    hide PcShaped;
  }

  lemma ShutdownFlags(s: State, a: nat)
    requires Fit(s, a) && !Probes(s.actors[a])
    ensures var t := AdvanceShutdown(s, a); a in t.actors && !Probes(t.actors[a])
  {
    hide PcShaped, Encode;
  }

  lemma DropFlags(s: State, a: nat)
    requires Fit(s, a) && !Probes(s.actors[a])
    ensures var t := AdvanceDrop(s, a); a in t.actors && !Probes(t.actors[a])
  {
    hide PcShaped, Encode;
  }

  lemma UnwindFlags(s: State, a: nat)
    requires Fit(s, a) && !Probes(s.actors[a])
    ensures var t := AdvanceUnwind(s, a); a in t.actors && !Probes(t.actors[a])
  {
    hide PcShaped, Encode;
  }

  lemma OtherActor(s: State, b: nat, a: nat)
    requires Inv(s) && b in s.actors && a != b
    ensures var t := Step(s, Advance(b)); (a in t.actors <==> a in s.actors) && (a in s.actors ==> t.actors[a] == s.actors[a])
  {
    hide Inv, Local, AdvanceRecord, AdvanceCommit, AdvanceReject, AdvanceDequeue, AdvanceShutdown, AdvanceDrop, AdvanceUnwind, Step;
    LocalHolds(s, b);
    var e := StepMoves(s, b);
    hide PcOk, SlotLockMoved, StateLockMoved, StorageMoved;
  }

  /** In every run, a call marked contended has itself found a slot locked at one of its own steps. */
  lemma {:induction false} FlagsAreEarned(slots: nat, limit: nat, moves: seq<Label>, a: nat)
    requires slots > 0
    ensures var s := Run(slots, limit, moves);
      a in s.actors && Flagged(s.actors[a]) ==>
        exists k :: 0 <= k < |moves| && moves[k] == Advance(a) && SlotBusy(Run(slots, limit, moves[..k]), a)
    decreases |moves|
  {
    hide Step, SlotBusy, Flagged, Inv, Run;
    if moves == [] {
      assert Run(slots, limit, []).actors == map[] by {
        NobodyYet(slots, limit);
      }
    } else {
      var init, last := moves[..|moves| - 1], moves[|moves| - 1];
      assert moves == init + [last];
      RunSnoc(slots, limit, init, last);
      RunInv(slots, limit, init);
      FlagsAreEarned(slots, limit, init, a);
      FlagStep(Run(slots, limit, init), last, a);
      var s := Run(slots, limit, moves);
      if a in s.actors && Flagged(s.actors[a]) {
        var before := Run(slots, limit, init);
        if a in before.actors && Flagged(before.actors[a]) {
          var k :| 0 <= k < |init| && init[k] == Advance(a) && SlotBusy(Run(slots, limit, init[..k]), a);
          assert moves[k] == Advance(a) && moves[..k] == init[..k];
        } else {
          assert moves[|moves| - 1] == Advance(a) && moves[..|moves| - 1] == init;
        }
      }
    }
  }

  lemma NobodyYet(slots: nat, limit: nat)
    ensures Run(slots, limit, []).actors == map[]
  {
  }

  // ---------------------------------------------------------------- one actor with nobody in between

  /** n steps of one actor with nobody in between. */
  function Steps(a: nat, n: nat): (moves: seq<Label>)
    ensures |moves| == n
  {
    if n == 0 then [] else [Advance(a)] + Steps(a, n - 1)
  }

  lemma RunJoin(slots: nat, limit: nat, first: seq<Label>, rest: seq<Label>)
    ensures Run(slots, limit, first + rest) == Exec(Run(slots, limit, first), rest)
  {
    hide Exec;
    ExecJoin(Init(slots, limit), first, rest);
  }

  lemma StartCost(slots: nat, o: Observation)
    ensures StepsLeft(slots, RecordStart(o)) == 2 * slots + 11
  {
  }
}
