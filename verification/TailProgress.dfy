/** When the file is quiet and nothing fails, a poll of the file source makes all the progress there is to make. */
module TailProgress {
  import opened Common
  import opened Custody
  import opened Tail
  import opened TailPass
  import opened TailFresh
  import opened TailCoverage

  /**
  The store has no objection of principle: names, checkpoint texts and digests are short, and what the source writes
  under its own identities decodes, the note included that stands in for data that does not fit the wire.
  */
  ghost predicate Willing(lib: Library) {
    && 0 < |lib.name| <= 256
    && (forall b :: |lib.digest(b)| <= 64)
    && (forall p: Position :: Bounded(p) ==> |lib.save(p)| <= 8192)
    && (forall p: Position, d, now :: Bounded(p) && p.offset < U64_MAX ==>
          lib.decode(Written(IdentityOf(p, lib), d, now, lib)).Some?)
  }

  predicate Bounded(p: Position) {
    p.dev <= U64_MAX && p.ino <= U64_MAX && p.offset <= U64_MAX && p.epoch <= U64_MAX && |p.tail| <= 64
  }

  /** Nobody writes, every call succeeds, reads are full, commits are taken. */
  ghost predicate Quiet(w: Weather) {
    && (forall m :: w.grow(m) == [] && !w.fail(m) && !w.refuse(m))
    && (forall i :: w.short(i) > MAX_FRAME)
  }

  lemma {:induction false} NothingGrows(content: Bytes, w: Weather, m: nat)
    requires Quiet(w)
    ensures At(content, w, m) == content
    decreases m
  {
    if m > 0 {
      NothingGrows(content, w, m - 1);
      assert content + [] == content;
    }
  }

  /** What a quiet turn is told. */
  ghost predicate Plain(look: Look, content: Bytes, inode: Inode, lib: Library) {
    && Honest(look, content, content, inode, lib)
    && look.len == Some(|content|) && !look.refuse
    && (forall o: nat :: o <= |content| ==> look.tailAt(o).Some? && look.sealAt(o).Some?)
    && (forall o: nat :: o <= |content| ==> look.readAt(o).Some? && Window(content, o) <= look.readAt(o).value)
  }

  lemma QuietLook(content: Bytes, w: Weather, inode: Inode, lib: Library, i: nat)
    requires Quiet(w)
    ensures Plain(LookIn(content, w, inode, lib, i), content, inode, lib)
  {
    hide At, Honest;
    NothingGrows(content, w, 4 * i + 2);
    NothingGrows(content, w, 4 * i + 3);
    NothingGrows(content, w, 4 * i + 4);
    NothingGrows(content, w, 4 * i + 5);
    NothingGrows(content, w, 4 * i + 6);
    LookHonest(content, w, inode, lib, i);
    var look := LookIn(content, w, inode, lib, i);
    forall o: nat | o <= |content|
      ensures look.readAt(o).Some? && Window(content, o) <= look.readAt(o).value
    {
      var end := Min(|content|, o + w.short(i));
      assert Window(content, o) == content[o..end][..|Window(content, o)|];
    }
  }

  /** A commit nobody refuses, at an identity nobody used, goes through. */
  lemma CommitTaken(s: Source, t: Tables, p: Position, data: Data, sealAt: nat -> Option<Text>, now: nat, lib: Library)
    requires LibraryOk(lib) && Willing(lib) && s.file.Some? && sealAt(p.offset).Some?
    requires Bounded(p.(tail := sealAt(p.offset).value)) && p.offset < U64_MAX
    requires forall k :: 0 <= k < |t.rows| ==> t.rows[k].identity != IdentityOf(p, lib)
    ensures Committed(s, t, p, data, sealAt, now, false, lib).2
  {
    var next := p.(tail := sealAt(p.offset).value);
    SameIdentity(p, next, lib);
    hide Generation, Find;
    var identity := IdentityOf(next, lib);
    var fitted := if lib.fits(identity, data, now) then data else Gap(WireLimit);
    assert lib.decode(Written(identity, data, now, lib)) == Some(identity);
  }

  /** Records made so far, the attachment not counted. */
  ghost function Made(t: Tables, lib: Library): int {
    |Mine(t.rows, lib)| - 1
  }

  lemma MadeOne(t: Tables, t': Tables, row: Row, lib: Library)
    requires t'.rows == t.rows + [row] && row.identity.producer == lib.name
    ensures Made(t', lib) == Made(t, lib) + 1
  {
    MineSnoc(t.rows, row, lib);
  }

  ghost predicate Standing(s: Source, t: Tables, content: Bytes, inode: Inode, lib: Library) {
    && LibraryOk(lib) && Willing(lib) && |content| < U64_MAX && inode.dev <= U64_MAX && inode.ino <= U64_MAX
    && Good(s, t, content, inode, lib) && s.position.Some? && s.file.Some?
  }

  /** The next cut, if there is one, is committed; if there is none the turn stops and says so. */
  lemma QuietTurn(s: Source, t: Tables, look: Look, content: Bytes, inode: Inode, lib: Library)
    requires Standing(s, t, content, inode, lib) && Plain(look, content, inode, lib)
    requires s.position.value.offset <= |content|
    ensures var p, r := s.position.value, Turned(s, t, look, lib);
      var cut := Cut(content, p.offset, p.skipping, lib);
      && (cut == None ==> r.1 == t && r.2.Stop? && r.2.state in {CaughtUp, PartialLine} && r.0.file == s.file && r.0.position == s.position)
      && (cut.Some? ==> r.2 == Again && Made(r.1, lib) == Made(t, lib) + 1 && r.0.file.Some? && r.0.position.Some?)
  {
    hide LibraryOk, Willing, Made, Exact, Placed, Saved, Committed, CutData, LineEnd, Mine, Digits, Last32;
    var p := s.position.value;
    SavedPlace(s, t, content, inode, lib);
    var s1 := s.(lag := |content| - p.offset);
    var available := look.readAt(p.offset).value;
    var bytes := available[..Min(|available|, MAX_FRAME + 1)];
    assert available <= content[p.offset..];
    assert bytes == Window(content, p.offset);
    assert look.tailAt(p.offset).value == p.tail;
    var cut := Cut(content, p.offset, p.skipping, lib);
    if cut.Some? {
      var piece := cut.value;
      var next := p.(offset := piece.end, skipping := piece.skipping);
      hide Cut, Honest, Plain;
      QuietCommit(s, s1, t, p, next, piece, look, content, inode, lib);
    }
  }

  lemma QuietCommit(s: Source, s1: Source, t: Tables, p: Position, next: Position, piece: Piece, look: Look, content: Bytes, inode: Inode, lib: Library)
    requires Standing(s, t, content, inode, lib) && Plain(look, content, inode, lib) && s.position == Some(p)
    requires s1 == s.(lag := s1.lag) && p.offset <= |content| && Cut(content, p.offset, p.skipping, lib) == Some(piece)
    requires next == p.(offset := piece.end, skipping := piece.skipping)
    ensures var r := Committed(s1, t, next, piece.data, look.sealAt, look.now, look.refuse, lib);
      r.2 && Made(r.1, lib) == Made(t, lib) + 1 && r.0.file.Some? && r.0.position.Some?
  {
    hide LibraryOk, Made, Exact, Placed, Saved, Committed, Cut, Mine, Digits, Generation, IdentityOf, Last32;
    SavedPlace(s, t, content, inode, lib);
    PlainIdentity(next, inode, lib);
    forall k | 0 <= k < |t.rows|
      ensures t.rows[k].identity != IdentityOf(next, lib)
    {
      if t.rows[k].identity.producer == lib.name {
        NoLaterRow(s, t, content, inode, lib, t.rows[k]);
      }
    }
    assert look.sealAt(piece.end).Some? && look.sealAt(piece.end).value == lib.digest(Last32(content, piece.end));
    CommitTaken(s1, t, next, piece.data, look.sealAt, look.now, lib);
    CommitOutcome(s1, t, next, piece.data, look.sealAt, look.now, false, lib);
    var r := Committed(s1, t, next, piece.data, look.sealAt, look.now, false, lib);
    MadeOne(t, r.1, r.1.rows[|t.rows|], lib);
  }

  /** What the whole pass over a content comes to, for a source that has attached. */
  ghost function Total(t: Tables, content: Bytes, lib: Library): nat
    requires Mine(t.rows, lib) != [] && Origin(Mine(t.rows, lib)) <= |content|
  {
    |WholePass(Mine(t.rows, lib), content, lib)|
  }

  lemma StandingCounts(s: Source, t: Tables, content: Bytes, inode: Inode, lib: Library)
    requires Good(s, t, content, inode, lib) && s.position.Some?
    ensures Mine(t.rows, lib) != [] && Origin(Mine(t.rows, lib)) <= |content|
    ensures 0 <= Made(t, lib) <= Total(t, content, lib) && s.position.value.offset <= |content|
    ensures Cut(content, s.position.value.offset, s.position.value.skipping, lib).Some? <==> Made(t, lib) < Total(t, content, lib)
  {
    hide Pass, Cut, Saved, Filed;
    var mine := Mine(t.rows, lib);
    hide Mine;
    PassNth(content, Origin(mine), false, lib, |mine| - 1);
  }

  /** Growing rows keep their first. */
  lemma SameTotal(t: Tables, t': Tables, content: Bytes, lib: Library)
    requires Mine(t.rows, lib) != [] && Mine(t.rows, lib) <= Mine(t'.rows, lib) && Origin(Mine(t.rows, lib)) <= |content|
    ensures Origin(Mine(t'.rows, lib)) <= |content| && Total(t', content, lib) == Total(t, content, lib)
  {
    hide Mine, Pass;
  }

  lemma {:induction false} MineGrows(rows: seq<Row>, more: seq<Row>, lib: Library)
    requires rows <= more
    ensures Mine(rows, lib) <= Mine(more, lib)
    decreases |more|
  {
    if rows != more {
      var init := more[..|more| - 1];
      assert rows <= init;
      MineGrows(rows, init, lib);
    }
  }

  lemma TurnAppends(s: Source, t: Tables, look: Look, lib: Library)
    ensures t.rows <= Turned(s, t, look, lib).1.rows
  {
    hide Committed, Consumed;
    if s.position.Some? && s.file.Some? && look.len.Some? {
      var p := s.position.value;
      var s1 := s.(lag := if look.len.value >= p.offset then look.len.value - p.offset else 0);
      CommitAppends(s1, t, Position(p.dev, p.ino, 0, SaturatingAdd(p.epoch, 1), "", false), Gap(Truncated),
                    look.sealAt, look.now, look.refuse, lib);
      if look.readAt(p.offset).Some? {
        var available := look.readAt(p.offset).value;
        ConsumeAppends(s1, t, p, available[..Min(|available|, MAX_FRAME + 1)], look, lib);
      }
    }
  }

  lemma CommitAppends(s: Source, t: Tables, p: Position, data: Data, sealAt: nat -> Option<Text>, now: nat, refuse: bool, lib: Library)
    ensures t.rows <= Committed(s, t, p, data, sealAt, now, refuse, lib).1.rows
  {
    hide Find, IdentityOf;
  }

  lemma ConsumeAppends(s: Source, t: Tables, p: Position, bytes: Bytes, look: Look, lib: Library)
    requires s.file.Some?
    ensures t.rows <= Consumed(s, t, p, bytes, look, lib).1.rows
  {
    hide CutData, Committed;
    if bytes == [] {
      if look.reopened.Some? {
        var inode := look.reopened.value;
        CommitAppends(s.(file := Some(inode)), t, Position(inode.dev, inode.ino, 0, SaturatingAdd(p.epoch, 1), "", false),
                      Gap(Rotated), look.sealAt, look.now, look.refuse, lib);
      }
    } else {
      var rotated := look.path.Some? && look.path.value != Inode(p.dev, p.ino);
      var end := LineEnd(bytes);
      var consume := if end.Some? then end.value else |bytes|;
      hide LineEnd;
      CommitAppends(s, t, p.(offset := p.offset + consume, skipping := end == None && !rotated),
                    CutData(bytes, end, p.skipping, rotated, lib), look.sealAt, look.now, look.refuse, lib);
    }
  }

  /** n quiet turns make n more records, or all there are. */
  lemma {:induction false} QuietTurns(
    s: Source, t: Tables, content: Bytes, w: Weather, looks: nat -> Look, i: nat, n: nat, inode: Inode, lib: Library)
    requires Standing(s, t, content, inode, lib) && Quiet(w) && forall j: nat :: looks(j) == LookIn(content, w, inode, lib, j)
    requires Mine(t.rows, lib) != [] && Origin(Mine(t.rows, lib)) <= |content|
    ensures var r := Turns(s, t, looks, i, n, lib);
      Made(r.1, lib) == Min(Made(t, lib) + n, Total(t, content, lib)) && r.2 != Failed
    decreases n
  {
    hide LibraryOk, Willing, Good, Quiet, Turned, LookIn, Made, Mine, Total, Plain, Cut, Pass, Origin;
    StandingCounts(s, t, content, inode, lib);
    if n > 0 {
      var look := looks(i);
      QuietLook(content, w, inode, lib, i);
      QuietTurn(s, t, look, content, inode, lib);
      assert Honest(look, content, content, inode, lib) by {
        PlainHonest(look, content, inode, lib);
      }
      TurnGood(s, t, look, content, content, inode, lib);
      var r := Turned(s, t, look, lib);
      if Made(t, lib) < Total(t, content, lib) {
        TurnAppends(s, t, look, lib);
        MineGrows(t.rows, r.1.rows, lib);
        SameTotal(t, r.1, content, lib);
        StandingCounts(r.0, r.1, content, inode, lib);
        QuietTurns(r.0, r.1, content, w, looks, i + 1, n - 1, inode, lib);
      }
    }
  }

  lemma PlainHonest(look: Look, content: Bytes, inode: Inode, lib: Library)
    requires Plain(look, content, inode, lib)
    ensures Honest(look, content, content, inode, lib)
  {
  }

  /** Opening on a quiet day: the saved position is taken up, or the attachment is recorded at the right offset. */
  lemma QuietOpen(s: Source, t: Tables, content: Bytes, w: Weather, inode: Inode, lib: Library)
    requires LibraryOk(lib) && Willing(lib) && Quiet(w) && |content| < U64_MAX && inode.dev <= U64_MAX && inode.ino <= U64_MAX
    requires Good(s, t, content, inode, lib) && s.file == None
    ensures var r := Opened(s, t, OpeningIn(content, w, inode, lib), lib);
      && r.2 && r.0.file.Some? && r.0.position.Some? && Good(r.0, r.1, content, inode, lib)
      && Made(r.1, lib) == Max(Made(t, lib), 0) && t.rows <= r.1.rows
      && (Mine(t.rows, lib) == [] ==> Mine(r.1.rows, lib) != [] && Origin(Mine(r.1.rows, lib)) == if lib.replay then 0 else |content|)
  {
    hide LibraryOk, Exact, Placed, Committed, Mine, IdentityOf, Generation, Last32, At;
    NothingGrows(content, w, 1);
    var o := OpeningIn(content, w, inode, lib);
    TailHonest(content, content, w.fail(2), lib);
    OpenGood(s, t, o, content, content, inode, lib);
    if lib.name !in t.checkpoints {
      var offset := if lib.replay then 0 else |content|;
      var p := Position(inode.dev, inode.ino, offset, 0, "", false);
      var s' := s.(file := Some(inode));
      NoRowsYet(s, t, content, inode, lib);
      PlainIdentity(p, inode, lib);
      CommitTaken(s', t, p, Gap(if lib.replay then Replay else Attached), o.sealAt, o.now, lib);
      CommitOutcome(s', t, p, Gap(if lib.replay then Replay else Attached), o.sealAt, o.now, false, lib);
      var r := Opened(s, t, o, lib);
      MineFirst(s, t, r.1, r.1.rows[|t.rows|], content, inode, lib);
    } else {
      SavedPlace(s, t, content, inode, lib);
      AttachedBefore(s, t, content, inode, lib);
    }
  }

  lemma MineFirst(s: Source, t: Tables, t': Tables, row: Row, content: Bytes, inode: Inode, lib: Library)
    requires Good(s, t, content, inode, lib) && Saved(t, lib) == None
    requires t'.rows == t.rows + [row] && row.identity.producer == lib.name
    ensures Mine(t.rows, lib) == [] && Mine(t'.rows, lib) == [row] && Made(t, lib) == -1 && Made(t', lib) == 0
  {
    hide Exact, Saved;
    MineSnoc(t.rows, row, lib);
  }

  lemma AttachedBefore(s: Source, t: Tables, content: Bytes, inode: Inode, lib: Library)
    requires Good(s, t, content, inode, lib) && lib.name in t.checkpoints
    ensures Mine(t.rows, lib) != [] && Made(t, lib) >= 0
  {
    hide Exact, Mine, Saved;
  }

  /**
  After any history whatever, a crash just before or nothing attached yet included, one quiet poll makes eight more
  records of the pass, or all that are left: nothing complete is left behind for good.
  */
  lemma QuietPollProgresses(events: seq<Event>, start: Bytes, w: Weather, inode: Inode, lib: Library)
    requires LibraryOk(lib) && Willing(lib) && Quiet(w) && inode.dev <= U64_MAX && inode.ino <= U64_MAX
    requires |Lived(events, start, inode, lib).content| < U64_MAX
    ensures var s, s' := Lived(events, start, inode, lib), Next(Lived(events, start, inode, lib), Polls(w), inode, lib);
      var t, t' := s.system.tables, s'.system.tables;
      && s'.content == s.content && s'.system.source.position.Some?
      && t.rows <= t'.rows && Mine(t'.rows, lib) != [] && Origin(Mine(t'.rows, lib)) <= |s.content|
      && (Mine(t.rows, lib) == [] ==> Origin(Mine(t'.rows, lib)) == if lib.replay then 0 else |s.content|)
      && Made(t', lib) == Min(Max(Made(t, lib), 0) + 8, Total(t', s.content, lib))
  {
    hide Lived, Mine, Made, Total, Good, LibraryOk, Willing, Quiet, LookIn, Turned, Origin, At, Opened, Turns, OpeningIn;
    var s := Lived(events, start, inode, lib);
    var source, t := s.system.source, s.system.tables;
    LivedGood(events, start, inode, lib);
    NothingGrows(s.content, w, 34);
    GoodOpen(source, t, s.content, inode, lib);
    var o := OpeningIn(s.content, w, inode, lib);
    var looks := (i: nat) => LookIn(s.content, w, inode, lib, i);
    if source.file == None {
      QuietOpen(source, t, s.content, w, inode, lib);
      var r := Opened(source, t, o, lib);
      QuietEight(r.0, r.1, s.content, w, looks, inode, lib);
      MineGrows(r.1.rows, Turns(r.0, r.1, looks, 0, 8, lib).1.rows, lib);
      SameOrigin(r.1, Turns(r.0, r.1, looks, 0, 8, lib).1, lib);
    } else {
      QuietEight(source, t, s.content, w, looks, inode, lib);
    }
  }

  /** The eight turns of a poll whose file is open. */
  lemma QuietEight(s: Source, t: Tables, content: Bytes, w: Weather, looks: nat -> Look, inode: Inode, lib: Library)
    requires Standing(s, t, content, inode, lib) && Quiet(w) && forall j: nat :: looks(j) == LookIn(content, w, inode, lib, j)
    ensures var r := Turns(s, t, looks, 0, 8, lib);
      && r.2 != Failed && r.0.position.Some? && t.rows <= r.1.rows && Mine(t.rows, lib) != [] && Made(t, lib) >= 0
      && Mine(r.1.rows, lib) != [] && Origin(Mine(r.1.rows, lib)) <= |content|
      && Made(r.1, lib) == Min(Made(t, lib) + 8, Total(r.1, content, lib))
  {
    hide Mine, Made, Total, Good, LibraryOk, Willing, Quiet, LookIn, Origin, Turns;
    StandingCounts(s, t, content, inode, lib);
    QuietTurns(s, t, content, w, looks, 0, 8, inode, lib);
    TurnsPosition(s, t, looks, 0, 8, lib);
    TurnsAppend(s, t, looks, 0, 8, lib);
    var r := Turns(s, t, looks, 0, 8, lib);
    MineGrows(t.rows, r.1.rows, lib);
    SameTotal(t, r.1, content, lib);
  }

  lemma {:induction false} TurnsAppend(s: Source, t: Tables, looks: nat -> Look, i: nat, n: nat, lib: Library)
    ensures t.rows <= Turns(s, t, looks, i, n, lib).1.rows
    decreases n
  {
    hide Turned;
    if n > 0 {
      TurnAppends(s, t, looks(i), lib);
      var r := Turned(s, t, looks(i), lib);
      if r.2 == Again {
        TurnsAppend(r.0, r.1, looks, i + 1, n - 1, lib);
      }
    }
  }

  lemma SameOrigin(t: Tables, t': Tables, lib: Library)
    requires Mine(t.rows, lib) != [] && Mine(t.rows, lib) <= Mine(t'.rows, lib)
    ensures Mine(t'.rows, lib) != [] && Origin(Mine(t'.rows, lib)) == Origin(Mine(t.rows, lib))
  {
    hide Mine;
  }

  lemma GoodOpen(s: Source, t: Tables, content: Bytes, inode: Inode, lib: Library)
    requires Good(s, t, content, inode, lib)
    ensures s.file == None <==> s.position == None
  {
  }
}
