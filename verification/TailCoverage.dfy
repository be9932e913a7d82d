/**
A file that only grows and keeps its name: whatever the schedule of appends, polls, short reads, I/O errors, refused
commits, crashes and restarts, the store holds exactly the records one pass over the content would make.
*/
module TailCoverage {
  import opened Common
  import opened Custody
  import opened Tail
  import opened TailPass
  import opened TailFresh

  /** The daemon, the store, and everything written to the file so far. */
  datatype World = World(system: System, content: Bytes)

  /** What happens during a poll: at every system call the file may have grown, a read may stop short, a call may fail. */
  datatype Weather = Weather(
    grow: nat -> Bytes, short: nat -> nat, fail: nat -> bool, missing: nat -> bool, refuse: nat -> bool, now: nat -> nat)

  datatype Event =
    | Append(bytes: Bytes)
    | Polls(w: Weather)
    | Crash
    | Request(bytes: Bytes, refuse: bool)
    | Others(name: Text, bytes: Bytes, cp: Option<Checkpoint>, refuse: bool)

  /** The content once m of a poll's system calls have been made. */
  function At(content: Bytes, w: Weather, m: nat): Bytes {
    if m == 0 then content else At(content, w, m - 1) + w.grow(m - 1)
  }

  function Last32(content: Bytes, offset: nat): Bytes
    requires offset <= |content|
  {
    content[offset - Min(offset, 32)..offset]
  }

  function TailIn(content: Bytes, failed: bool, lib: Library): nat -> Option<Text> {
    (offset: nat) => if failed || offset > |content| then None else Some(lib.digest(Last32(content, offset)))
  }

  function ReadIn(content: Bytes, failed: bool, short: nat): nat -> Option<Bytes> {
    (offset: nat) =>
      if failed then None
      else if offset >= |content| then Some([])
      else Some(content[offset..Min(|content|, offset + short)])
  }

  function OpeningIn(content: Bytes, w: Weather, inode: Inode, lib: Library): Opening {
    Opening(if w.fail(0) then None else Some(inode), true, |content|, !w.fail(1),
            TailIn(At(content, w, 1), w.fail(2), lib), w.now(0), w.refuse(0))
  }

  /** Turn i makes system calls 4i + 2 to 4i + 5. */
  function LookIn(content: Bytes, w: Weather, inode: Inode, lib: Library, i: nat): Look {
    var m := 4 * i + 2;
    Look(if w.fail(4 * i + 3) then None else Some(|At(content, w, m)|),
         TailIn(At(content, w, m + 1), w.fail(4 * i + 4), lib),
         ReadIn(At(content, w, m + 2), w.fail(4 * i + 5), w.short(i)),
         if w.missing(i) then None else Some(inode),
         None,
         TailIn(At(content, w, m + 3), w.fail(4 * i + 6), lib),
         w.now(i + 1),
         w.refuse(i + 1))
  }

  function Next(s: World, e: Event, inode: Inode, lib: Library): World {
    match e
    case Append(bytes) => s.(content := s.content + bytes)
    case Polls(w) =>
      World(Step(s.system, Poll(OpeningIn(s.content, w, inode, lib), (i: nat) => LookIn(s.content, w, inode, lib, i)), lib),
            At(s.content, w, 34))
    case Crash => s.(system := Step(s.system, Restart, lib))
    case Request(bytes, refuse) => s.(system := Step(s.system, Client(bytes, refuse), lib))
    case Others(name, bytes, cp, refuse) => s.(system := Step(s.system, Collector(name, bytes, cp, refuse), lib))
  }

  function Lived(events: seq<Event>, start: Bytes, inode: Inode, lib: Library): World {
    if events == [] then World(System(NewSource(), Tables([], map[])), start)
    else Next(Lived(events[..|events| - 1], start, inode, lib), events[|events| - 1], inode, lib)
  }

  // ---------------------------------------------------------------- the law

  /** The source's own rows, oldest first. */
  function Mine(rows: seq<Row>, lib: Library): seq<Row> {
    if rows == [] then []
    else
      var last := rows[|rows| - 1];
      Mine(rows[..|rows| - 1], lib) + if last.identity.producer == lib.name then [last] else []
  }

  lemma MineSnoc(rows: seq<Row>, row: Row, lib: Library)
    ensures Mine(rows + [row], lib) == Mine(rows, lib) + if row.identity.producer == lib.name then [row] else []
  {
    assert (rows + [row])[..|rows|] == rows;
  }

  lemma {:induction false} MineHolds(rows: seq<Row>, lib: Library)
    ensures forall k :: 0 <= k < |rows| && rows[k].identity.producer == lib.name ==> rows[k] in Mine(rows, lib)
  {
    if rows != [] {
      MineHolds(rows[..|rows| - 1], lib);
    }
  }

  /** The bytes of a record: its data, or the note that it does not fit the wire when it does not. */
  ghost function Written(identity: Identity, data: Data, now: nat, lib: Library): Bytes {
    lib.encode(identity, if lib.fits(identity, data, now) then data else Gap(WireLimit), now)
  }

  /** A row that ends at `offset` in this file's first generation and carries this data. */
  ghost predicate Filed(row: Row, inode: Inode, offset: nat, data: Data, lib: Library) {
    && row.identity == Identity(lib.name, Generation(Position(inode.dev, inode.ino, 0, 0, "", false)), offset + 1)
    && exists now :: row.payload == Written(row.identity, data, now, lib)
  }

  /** Where the pass began: the attachment record's own offset. */
  function Origin(mine: seq<Row>): nat
    requires mine != []
  {
    if mine[0].identity.sequence == 0 then 0 else mine[0].identity.sequence - 1
  }

  function WholePass(mine: seq<Row>, content: Bytes, lib: Library): seq<Piece>
    requires mine != [] && Origin(mine) <= |content|
  {
    Pass(content, Origin(mine), false, lib)
  }

  /** The rows are the attachment, then the first pieces of the one pass from there, in order, each exactly once. */
  ghost predicate Exact(mine: seq<Row>, content: Bytes, inode: Inode, lib: Library) {
    mine != [] ==>
      && Origin(mine) <= |content| && (lib.replay ==> Origin(mine) == 0)
      && Filed(mine[0], inode, Origin(mine), Gap(if lib.replay then Replay else Attached), lib)
      && |mine| - 1 <= |WholePass(mine, content, lib)|
      && forall k :: 0 <= k < |mine| - 1 ==>
           Filed(mine[k + 1], inode, WholePass(mine, content, lib)[k].end, WholePass(mine, content, lib)[k].data, lib)
  }

  /** The saved position stands right behind the last record. */
  ghost predicate Placed(mine: seq<Row>, saved: Option<Position>, content: Bytes, inode: Inode, lib: Library) {
    && (mine == [] <==> saved == None)
    && (mine != [] && Origin(mine) <= |content| && |mine| - 1 <= |WholePass(mine, content, lib)| ==>
          var pass, n := WholePass(mine, content, lib), |mine| - 1;
          var offset := EndAfter(pass, n, Origin(mine));
          offset <= |content| && saved == Some(PositionAt(content, offset, SkippingAfter(pass, n, false), inode, lib)))
  }

  function PositionAt(content: Bytes, offset: nat, skipping: bool, inode: Inode, lib: Library): Position
    requires offset <= |content|
  {
    Position(inode.dev, inode.ino, offset, 0, lib.digest(Last32(content, offset)), skipping)
  }

  ghost predicate Good(s: Source, t: Tables, content: Bytes, inode: Inode, lib: Library) {
    && Exact(Mine(t.rows, lib), content, inode, lib)
    && (lib.name in t.checkpoints <==> Saved(t, lib).Some?)
    && Placed(Mine(t.rows, lib), Saved(t, lib), content, inode, lib)
    && (s.position.Some? ==> s.position == Saved(t, lib))
    && (s.file.Some? ==> s.file == Some(inode))
    && (s.file == None <==> s.position == None)
  }

  // ---------------------------------------------------------------- growth

  lemma {:induction false} AtGrows(content: Bytes, w: Weather, m: nat, n: nat)
    requires m <= n
    ensures At(content, w, m) <= At(content, w, n)
    decreases n
  {
    if m < n {
      AtGrows(content, w, m, n - 1);
    }
  }

  /** Nothing already accounted for changes when the file grows. */
  lemma GoodGrows(s: Source, t: Tables, content: Bytes, content': Bytes, inode: Inode, lib: Library)
    requires Good(s, t, content, inode, lib) && content <= content'
    ensures Good(s, t, content', inode, lib)
  {
    hide Mine, Pass, Filed, Saved;
    var mine := Mine(t.rows, lib);
    if mine != [] {
      var more := content'[|content|..];
      assert content' == content + more;
      PassGrows(content, more, Origin(mine), false, lib);
      var n := |mine| - 1;
      var pass, pass' := WholePass(mine, content, lib), WholePass(mine, content', lib);
      assert forall k :: 0 <= k < |pass| ==> pass'[k] == pass[k];
      var offset := EndAfter(pass, n, Origin(mine));
      assert Last32(content', offset) == Last32(content, offset);
    }
  }

  // ---------------------------------------------------------------- commits

  /** No row of ours has a sequence past the saved offset. */
  lemma NoLaterRow(s: Source, t: Tables, content: Bytes, inode: Inode, lib: Library, row: Row)
    requires Good(s, t, content, inode, lib) && row in t.rows && row.identity.producer == lib.name
    ensures Saved(t, lib).Some? && row.identity.sequence <= Saved(t, lib).value.offset + 1
  {
    hide Pass, Saved;
    MineHolds(t.rows, lib);
    var mine := Mine(t.rows, lib);
    hide Mine;
    var pass, n := WholePass(mine, content, lib), |mine| - 1;
    var k :| 0 <= k < |mine| && mine[k] == row;
    PassNth(content, Origin(mine), false, lib, n);
    if 0 < k < n {
      PassRises(content, Origin(mine), false, lib, k - 1, n - 1);
    }
    if 0 < k {
      assert Filed(mine[k - 1 + 1], inode, pass[k - 1].end, pass[k - 1].data, lib);
    } else {
      assert Filed(mine[0], inode, Origin(mine), Gap(if lib.replay then Replay else Attached), lib);
    }
  }

  /** A commit at an unused identity is refused and changes nothing, or is stored with its checkpoint. */
  lemma CommitOutcome(s: Source, t: Tables, p: Position, data: Data, sealAt: nat -> Option<Text>, now: nat, refuse: bool, lib: Library)
    requires LibraryOk(lib) && p.offset < U64_MAX
    requires forall k :: 0 <= k < |t.rows| ==> t.rows[k].identity != IdentityOf(p, lib)
    ensures var r := Committed(s, t, p, data, sealAt, now, refuse, lib);
      && r.0.file == s.file
      && (!r.2 ==> r.1 == t && r.0.position == s.position)
      && (r.2 ==>
            && s.file.Some? && sealAt(p.offset).Some?
            && r.0.position == Some(p.(tail := sealAt(p.offset).value)) && Saved(r.1, lib) == r.0.position && lib.name in r.1.checkpoints
            && exists payload :: r.1.rows == t.rows + [Row(IdentityOf(p, lib), payload)]
                              && exists now :: payload == Written(IdentityOf(p, lib), data, now, lib))
  {
    hide IdentityOf, Find;
    if s.file.Some? && sealAt(p.offset).Some? {
      var next := p.(tail := sealAt(p.offset).value);
      assert IdentityOf(next, lib) == IdentityOf(p, lib) by {
        SameIdentity(p, next, lib);
      }
      var identity := IdentityOf(next, lib);
      var fitted := if lib.fits(identity, data, now) then data else Gap(WireLimit);
      var bytes := lib.encode(identity, fitted, now);
      if lib.decode(bytes).Some? {
        assert lib.decode(bytes).value == identity;
      }
      var r := Committed(s, t, p, data, sealAt, now, refuse, lib);
      if r.2 {
        assert r.1.rows == t.rows + [Row(identity, bytes)];
        assert bytes == Written(identity, data, now, lib);
      }
    }
  }

  lemma SameIdentity(p: Position, q: Position, lib: Library)
    requires p.(tail := q.tail, skipping := q.skipping) == q
    ensures IdentityOf(p, lib) == IdentityOf(q, lib)
  {
  }

  lemma PlainIdentity(p: Position, inode: Inode, lib: Library)
    requires p.dev == inode.dev && p.ino == inode.ino && p.epoch == 0 && p.offset < U64_MAX
    ensures IdentityOf(p, lib) == Identity(lib.name, Generation(Position(inode.dev, inode.ino, 0, 0, "", false)), p.offset + 1)
  {
    hide Digits;
  }

  /** The first record: attached at this offset. */
  lemma AttachGood(s: Source, t: Tables, s': Source, t': Tables, content: Bytes, inode: Inode, lib: Library, row: Row, offset: nat)
    requires Good(s, t, content, inode, lib) && Saved(t, lib) == None && offset <= |content| && (lib.replay ==> offset == 0)
    requires t'.rows == t.rows + [row] && Filed(row, inode, offset, Gap(if lib.replay then Replay else Attached), lib)
    requires s'.position == Some(PositionAt(content, offset, false, inode, lib)) && s'.file == Some(inode)
    requires Saved(t', lib) == s'.position && lib.name in t'.checkpoints
    ensures Good(s', t', content, inode, lib)
  {
    hide Pass, Saved;
    MineSnoc(t.rows, row, lib);
    hide Mine;
    assert Mine(t.rows, lib) == [] && Mine(t'.rows, lib) == [row];
  }

  /** The next record is the next piece of the pass. */
  lemma PieceGood(s: Source, t: Tables, s': Source, t': Tables, content: Bytes, inode: Inode, lib: Library, row: Row, piece: Piece)
    requires Good(s, t, content, inode, lib) && Saved(t, lib).Some?
    requires Saved(t, lib).value.offset <= |content|
    requires Cut(content, Saved(t, lib).value.offset, Saved(t, lib).value.skipping, lib) == Some(piece)
    requires t'.rows == t.rows + [row] && Filed(row, inode, piece.end, piece.data, lib)
    requires s'.position == Some(PositionAt(content, piece.end, piece.skipping, inode, lib)) && s'.file == Some(inode)
    requires Saved(t', lib) == s'.position && lib.name in t'.checkpoints
    ensures Good(s', t', content, inode, lib)
  {
    hide Pass, Saved, Cut;
    MineSnoc(t.rows, row, lib);
    hide Mine;
    var mine, mine' := Mine(t.rows, lib), Mine(t'.rows, lib);
    assert mine' == mine + [row] && mine'[0] == mine[0];
    var n := |mine| - 1;
    var pass := WholePass(mine, content, lib);
    PassNth(content, Origin(mine), false, lib, n);
    assert WholePass(mine', content, lib) == pass && pass[n] == piece;
    forall k | 0 <= k < |mine'| - 1
      ensures Filed(mine'[k + 1], inode, pass[k].end, pass[k].data, lib)
    {
      if k < n {
        assert mine'[k + 1] == mine[k + 1];
      }
    }
  }

  // ---------------------------------------------------------------- one turn

  /** What a turn may be told about a file that holds `before` when the turn starts and `after` when it ends. */
  ghost predicate Honest(look: Look, before: Bytes, after: Bytes, inode: Inode, lib: Library) {
    && before <= after
    && (look.len.Some? ==> |before| <= look.len.value)
    && (forall o: nat :: o <= |before| && look.tailAt(o).Some? ==> look.tailAt(o).value == lib.digest(Last32(after, o)))
    && (forall o: nat :: o <= |before| && look.readAt(o).Some? ==> look.readAt(o).value <= after[o..])
    && (look.path.Some? ==> look.path.value == inode)
    && SealHonest(look.sealAt, after, lib)
  }

  ghost predicate SealHonest(sealAt: nat -> Option<Text>, after: Bytes, lib: Library) {
    forall o: nat :: o <= |after| && sealAt(o).Some? ==> sealAt(o).value == lib.digest(Last32(after, o))
  }

  lemma LookHonest(content: Bytes, w: Weather, inode: Inode, lib: Library, i: nat)
    ensures Honest(LookIn(content, w, inode, lib, i), At(content, w, 4 * i + 2), At(content, w, 4 * i + 6), inode, lib)
  {
    hide At;
    var m := 4 * i + 2;
    var before, after := At(content, w, m), At(content, w, m + 4);
    AtGrows(content, w, m, m + 4);
    AtGrows(content, w, m, m + 1);
    AtGrows(content, w, m + 1, m + 4);
    AtGrows(content, w, m, m + 2);
    AtGrows(content, w, m + 2, m + 4);
    AtGrows(content, w, m + 3, m + 4);
    var look := LookIn(content, w, inode, lib, i);
    TailHonest(At(content, w, m + 1), after, w.fail(4 * i + 4), lib);
    TailHonest(At(content, w, m + 3), after, w.fail(4 * i + 6), lib);
    var seen := At(content, w, m + 2);
    forall o: nat | o <= |before| && look.readAt(o).Some?
      ensures look.readAt(o).value <= after[o..]
    {
      if o < |seen| {
        var end := Min(|seen|, o + w.short(i));
        assert seen[o..end] == after[o..end] == after[o..][..end - o];
      }
    }
  }

  lemma TailHonest(content: Bytes, after: Bytes, failed: bool, lib: Library)
    requires content <= after
    ensures SealHonest(TailIn(content, failed, lib), after, lib)
  {
    forall o: nat | o <= |content|
      ensures Last32(content, o) == Last32(after, o)
    {
    }
  }

  lemma TurnGood(s: Source, t: Tables, look: Look, before: Bytes, after: Bytes, inode: Inode, lib: Library)
    requires LibraryOk(lib) && Good(s, t, before, inode, lib) && Honest(look, before, after, inode, lib) && |after| < U64_MAX
    ensures var r := Turned(s, t, look, lib); Good(r.0, r.1, after, inode, lib)
  {
    hide LibraryOk, Exact, Placed, Committed, Consumed, Saved, SealHonest;
    GoodGrows(s, t, before, after, inode, lib);
    if s.position.Some? && s.file.Some? && look.len.Some? {
      var p := s.position.value;
      SavedPlace(s, t, before, inode, lib);
      SavedPlace(s, t, after, inode, lib);
      assert look.len.value >= p.offset;
      assert look.tailAt(p.offset).Some? ==> look.tailAt(p.offset).value == p.tail;
      var s1 := s.(lag := look.len.value - p.offset);
      if look.readAt(p.offset).Some? {
        var available := look.readAt(p.offset).value;
        var bytes := available[..Min(|available|, MAX_FRAME + 1)];
        assert bytes <= after[p.offset..];
        ConsumeGood(s1, t, p, bytes, look, after, inode, lib);
      }
    }
  }

  lemma SavedPlace(s: Source, t: Tables, content: Bytes, inode: Inode, lib: Library)
    requires Good(s, t, content, inode, lib) && Saved(t, lib).Some?
    ensures var p := Saved(t, lib).value;
      p.offset <= |content| && p == PositionAt(content, p.offset, p.skipping, inode, lib)
  {
    hide Mine, Pass, Saved, Filed;
  }

  lemma ConsumeGood(s: Source, t: Tables, p: Position, bytes: Bytes, look: Look, content: Bytes, inode: Inode, lib: Library)
    requires LibraryOk(lib) && Good(s, t, content, inode, lib) && s.position == Some(p) && s.file.Some? && |content| < U64_MAX
    requires p.offset <= |content| && bytes <= content[p.offset..] && |bytes| <= MAX_FRAME + 1
    requires (look.path.Some? ==> look.path.value == inode) && SealHonest(look.sealAt, content, lib)
    ensures var r := Consumed(s, t, p, bytes, look, lib); Good(r.0, r.1, content, inode, lib)
  {
    hide LibraryOk, Exact, Placed, Committed, Saved, LineEnd, CutData, Last32, Mine, Cut, Pass;
    SavedPlace(s, t, content, inode, lib);
    var end := LineEnd(bytes);
    if bytes != [] && (end.Some? || |bytes| > MAX_FRAME) {
      CutPrefix(content, p.offset, p.skipping, bytes, lib);
      var piece := Cut(content, p.offset, p.skipping, lib).value;
      var next := p.(offset := piece.end, skipping := piece.skipping);
      CommitPiece(s, t, p, piece, next, look, content, inode, lib);
    }
  }

  lemma CommitPiece(s: Source, t: Tables, p: Position, piece: Piece, next: Position, look: Look, content: Bytes, inode: Inode, lib: Library)
    requires LibraryOk(lib) && Good(s, t, content, inode, lib) && s.position == Some(p) && s.file.Some? && |content| < U64_MAX
    requires p.offset <= |content| && Cut(content, p.offset, p.skipping, lib) == Some(piece)
    requires next == p.(offset := piece.end, skipping := piece.skipping) && SealHonest(look.sealAt, content, lib)
    ensures var r := Committed(s, t, next, piece.data, look.sealAt, look.now, look.refuse, lib); Good(r.0, r.1, content, inode, lib)
  {
    hide LibraryOk, Exact, Placed, Committed, Saved, Cut, Last32, Mine, Pass, IdentityOf, Generation;
    SavedPlace(s, t, content, inode, lib);
    PlainIdentity(next, inode, lib);
    forall k | 0 <= k < |t.rows|
      ensures t.rows[k].identity != IdentityOf(next, lib)
    {
      if t.rows[k].identity.producer == lib.name {
        NoLaterRow(s, t, content, inode, lib, t.rows[k]);
      }
    }
    CommitOutcome(s, t, next, piece.data, look.sealAt, look.now, look.refuse, lib);
    var r := Committed(s, t, next, piece.data, look.sealAt, look.now, look.refuse, lib);
    if r.2 {
      var row := r.1.rows[|t.rows|];
      assert Filed(row, inode, piece.end, piece.data, lib);
      PieceGood(s, t, r.0, r.1, content, inode, lib, row, piece);
    }
  }

  // ---------------------------------------------------------------- opening, polls, runs

  lemma OpenGood(s: Source, t: Tables, o: Opening, before: Bytes, after: Bytes, inode: Inode, lib: Library)
    requires LibraryOk(lib) && Good(s, t, before, inode, lib) && s.file == None && before <= after && |after| < U64_MAX
    requires (o.found.Some? ==> o.found.value == inode) && o.len == |before| && SealHonest(o.sealAt, after, lib)
    ensures var r := Opened(s, t, o, lib);
      && (if r.2 then r.0.position.Some? && r.0.file.Some? else r.0.position == None)
      && Good(r.0.(file := if r.2 then r.0.file else None), r.1, after, inode, lib)
  {
    hide LibraryOk, Exact, Placed, Committed, Mine, SealHonest, IdentityOf, Generation;
    GoodGrows(s, t, before, after, inode, lib);
    if o.found.Some? && o.regular && o.loadable {
      var s' := s.(file := Some(inode));
      if lib.name !in t.checkpoints {
        var offset := if lib.replay then 0 else o.len;
        var p := Position(inode.dev, inode.ino, offset, 0, "", false);
        assert forall k :: 0 <= k < |t.rows| ==> t.rows[k].identity.producer != lib.name by {
          NoRowsYet(s, t, after, inode, lib);
        }
        assert forall k :: 0 <= k < |t.rows| ==> t.rows[k].identity != IdentityOf(p, lib) by {
          PlainIdentity(p, inode, lib);
        }
        var data := Gap(if lib.replay then Replay else Attached);
        CommitOutcome(s', t, p, data, o.sealAt, o.now, o.refuse, lib);
        var r := Committed(s', t, p, data, o.sealAt, o.now, o.refuse, lib);
        if r.2 {
          PlainIdentity(p, inode, lib);
          var row := r.1.rows[|t.rows|];
          assert Filed(row, inode, offset, data, lib);
          assert r.0.position.value.tail == lib.digest(Last32(after, offset)) by {
            SealIs(o.sealAt, after, offset, lib);
          }
          hide Filed, Saved, Last32;
          AttachGood(s, t, r.0, r.1, after, inode, lib, row, offset);
        }
      } else {
        SavedPlace(s, t, after, inode, lib);
      }
    }
  }

  lemma SealIs(sealAt: nat -> Option<Text>, content: Bytes, offset: nat, lib: Library)
    requires SealHonest(sealAt, content, lib) && offset <= |content| && sealAt(offset).Some?
    ensures sealAt(offset).value == lib.digest(Last32(content, offset))
  {
  }

  lemma NoRowsYet(s: Source, t: Tables, content: Bytes, inode: Inode, lib: Library)
    requires Good(s, t, content, inode, lib) && Saved(t, lib) == None
    ensures forall k :: 0 <= k < |t.rows| ==> t.rows[k].identity.producer != lib.name
  {
    forall k | 0 <= k < |t.rows|
      ensures t.rows[k].identity.producer != lib.name
    {
      if t.rows[k].identity.producer == lib.name {
        NoLaterRow(s, t, content, inode, lib, t.rows[k]);
      }
    }
  }

  lemma {:induction false} TurnsGood(
    s: Source, t: Tables, content: Bytes, w: Weather, looks: nat -> Look, i: nat, n: nat, inode: Inode, lib: Library)
    requires LibraryOk(lib) && i + n == 8 && |At(content, w, 34)| < U64_MAX
    requires forall j: nat :: looks(j) == LookIn(content, w, inode, lib, j)
    requires Good(s, t, At(content, w, 4 * i + 2), inode, lib)
    ensures var r := Turns(s, t, looks, i, n, lib); Good(r.0, r.1, At(content, w, 34), inode, lib)
    decreases n
  {
    hide LibraryOk, Good, Turned, At, LookIn, Honest;
    AtGrows(content, w, 4 * i + 2, 34);
    if n > 0 {
      var before, after := At(content, w, 4 * i + 2), At(content, w, 4 * i + 6);
      AtGrows(content, w, 4 * i + 6, 34);
      LookHonest(content, w, inode, lib, i);
      TurnGood(s, t, looks(i), before, after, inode, lib);
      var r := Turned(s, t, looks(i), lib);
      if r.2 == Again {
        TurnsGood(r.0, r.1, content, w, looks, i + 1, n - 1, inode, lib);
      } else {
        GoodGrows(r.0, r.1, after, At(content, w, 34), inode, lib);
      }
    } else {
      GoodGrows(s, t, At(content, w, 4 * i + 2), At(content, w, 34), inode, lib);
    }
  }

  lemma PollGood(s: Source, t: Tables, content: Bytes, w: Weather, looks: nat -> Look, inode: Inode, lib: Library)
    requires LibraryOk(lib) && Good(s, t, content, inode, lib) && |At(content, w, 34)| < U64_MAX
    requires forall j: nat :: looks(j) == LookIn(content, w, inode, lib, j)
    ensures var r := Polled(s, t, OpeningIn(content, w, inode, lib), looks, lib); Good(r.0, r.1, At(content, w, 34), inode, lib)
  {
    hide LibraryOk, Opened, Turns, At, Exact, Placed, LookIn, Saved, Mine;
    var o := OpeningIn(content, w, inode, lib);
    var early, late := At(content, w, 2), At(content, w, 34);
    AtGrows(content, w, 0, 2);
    AtGrows(content, w, 1, 2);
    AtGrows(content, w, 2, 34);
    assert At(content, w, 0) == content by {
      AtStart(content, w);
    }
    TailHonest(At(content, w, 1), early, w.fail(2), lib);
    if s.file == None {
      OpenGood(s, t, o, content, early, inode, lib);
      var r := Opened(s, t, o, lib);
      if r.2 {
        TurnsGood(r.0, r.1, content, w, looks, 0, 8, inode, lib);
        TurnsFile(r.0, r.1, looks, 0, 8, lib);
        TurnsPosition(r.0, r.1, looks, 0, 8, lib);
      } else {
        GoodGrows(r.0.(file := None), r.1, early, late, inode, lib);
      }
    } else {
      GoodGrows(s, t, content, early, inode, lib);
      TurnsGood(s, t, content, w, looks, 0, 8, inode, lib);
    }
  }

  lemma AtStart(content: Bytes, w: Weather)
    ensures At(content, w, 0) == content
  {
  }

  /** Opening leaves a position, and turns never lose it. */
  lemma TurnsPosition(s: Source, t: Tables, looks: nat -> Look, i: nat, n: nat, lib: Library)
    requires s.position.Some?
    ensures Turns(s, t, looks, i, n, lib).0.position.Some?
    decreases n
  {
    hide Turned;
    if n > 0 {
      var r := Turned(s, t, looks(i), lib);
      TurnPosition(s, t, looks(i), lib);
      if r.2 == Again {
        TurnsPosition(r.0, r.1, looks, i + 1, n - 1, lib);
      }
    }
  }

  lemma TurnPosition(s: Source, t: Tables, look: Look, lib: Library)
    requires s.position.Some?
    ensures Turned(s, t, look, lib).0.position.Some?
  {
    hide Submitted, CutData, LineEnd, IdentityOf;
  }

  lemma {:induction false} ContentGrows(events: seq<Event>, start: Bytes, inode: Inode, lib: Library)
    requires events != []
    ensures Lived(events[..|events| - 1], start, inode, lib).content <= Lived(events, start, inode, lib).content
  {
    hide Step, OpeningIn, LookIn;
    var s := Lived(events[..|events| - 1], start, inode, lib);
    if events[|events| - 1].Polls? {
      AtGrows(s.content, events[|events| - 1].w, 0, 34);
    }
  }

  lemma {:induction false} LivedGood(events: seq<Event>, start: Bytes, inode: Inode, lib: Library)
    requires LibraryOk(lib) && |Lived(events, start, inode, lib).content| < U64_MAX
    ensures var s := Lived(events, start, inode, lib); Good(s.system.source, s.system.tables, s.content, inode, lib)
  {
    hide LibraryOk, Good, At, OpeningIn, LookIn, Polled, Submitted;
    if events == [] {
      BirthGood(start, inode, lib);
    } else {
      ContentGrows(events, start, inode, lib);
      LivedGood(events[..|events| - 1], start, inode, lib);
      var s := Lived(events[..|events| - 1], start, inode, lib);
      var source, t := s.system.source, s.system.tables;
      match events[|events| - 1]
      case Append(bytes) => GoodGrows(source, t, s.content, s.content + bytes, inode, lib);
      case Polls(w) =>
        var looks := (i: nat) => LookIn(s.content, w, inode, lib, i);
        PollGood(source, t, s.content, w, looks, inode, lib);
      case Crash => ForgetGood(source, t, s.content, inode, lib);
      case Request(bytes, refuse) =>
        if !(lib.decode(bytes).Some? && Reserved(lib.decode(bytes).value.producer)) {
          ClientsCannotSpeak(bytes, lib);
          OthersGood(source, t, bytes, None, refuse, s.content, inode, lib);
        }
      case Others(name, bytes, cp, refuse) =>
        if Another(lib, name, bytes, cp) {
          OthersGood(source, t, bytes, cp, refuse, s.content, inode, lib);
        }
    }
  }

  lemma BirthGood(start: Bytes, inode: Inode, lib: Library)
    ensures Good(NewSource(), Tables([], map[]), start, inode, lib)
  {
  }

  lemma ForgetGood(s: Source, t: Tables, content: Bytes, inode: Inode, lib: Library)
    requires Good(s, t, content, inode, lib)
    ensures Good(NewSource().(attempts := s.attempts), t, content, inode, lib)
  {
    hide Exact, Placed;
  }

  lemma OthersGood(s: Source, t: Tables, bytes: Bytes, cp: Option<Checkpoint>, refuse: bool, content: Bytes, inode: Inode, lib: Library)
    requires Good(s, t, content, inode, lib)
    requires lib.decode(bytes).Some? ==> lib.decode(bytes).value.producer != lib.name
    requires cp.Some? ==> cp.value.source != lib.name
    ensures Good(s, Submitted(t, lib.decode, bytes, cp, refuse).0, content, inode, lib)
  {
    var t' := Submitted(t, lib.decode, bytes, cp, refuse).0;
    if t'.rows != t.rows {
      MineSnoc(t.rows, t'.rows[|t.rows|], lib);
    }
    hide Exact, Placed, Mine, Find;
    assert Mine(t'.rows, lib) == Mine(t.rows, lib) && Saved(t', lib) == Saved(t, lib);
  }

  // ---------------------------------------------------------------- the theorems

  /**
  Under every schedule the source's rows are the attachment followed by the first pieces of the single pass over the
  file as it finally is, each exactly once and in order, and the saved offset is where the last one ends.
  */
  lemma ExactlyOnce(events: seq<Event>, start: Bytes, inode: Inode, lib: Library)
    requires LibraryOk(lib) && |Lived(events, start, inode, lib).content| < U64_MAX
    ensures var s := Lived(events, start, inode, lib);
      var mine := Mine(s.system.tables.rows, lib);
      Exact(mine, s.content, inode, lib) && Placed(mine, Saved(s.system.tables, lib), s.content, inode, lib)
  {
    hide LibraryOk, Exact, Placed, Lived;
    LivedGood(events, start, inode, lib);
  }

  ghost predicate Carries(row: Row, data: Data, lib: Library) {
    exists now :: row.payload == Written(row.identity, data, now, lib)
  }

  /** What record k is made of: the attachment note, or the k-th piece of the pass. */
  ghost function DataAt(mine: seq<Row>, content: Bytes, lib: Library, k: nat): Data
    requires mine != [] && Origin(mine) <= |content| && k <= |WholePass(mine, content, lib)|
  {
    if k == 0 then Gap(if lib.replay then Replay else Attached) else WholePass(mine, content, lib)[k - 1].data
  }

  /** Two histories that attached at the same offset and saw the same content agree, in identity and data, on every record both have made. */
  lemma ScheduleIndependent(
    events: seq<Event>, start: Bytes, events': seq<Event>, start': Bytes, inode: Inode, lib: Library, k: nat)
    requires LibraryOk(lib)
    requires var s, s' := Lived(events, start, inode, lib), Lived(events', start', inode, lib);
      var mine, mine' := Mine(s.system.tables.rows, lib), Mine(s'.system.tables.rows, lib);
      && s.content == s'.content && |s.content| < U64_MAX
      && k < |mine| && k < |mine'| && Origin(mine) == Origin(mine')
    ensures var s := Lived(events, start, inode, lib);
      var mine := Mine(s.system.tables.rows, lib);
      var mine' := Mine(Lived(events', start', inode, lib).system.tables.rows, lib);
      && mine[k].identity == mine'[k].identity
      && Origin(mine) <= |s.content| && k <= |WholePass(mine, s.content, lib)|
      && Carries(mine[k], DataAt(mine, s.content, lib, k), lib) && Carries(mine'[k], DataAt(mine, s.content, lib, k), lib)
  {
    hide LibraryOk, Lived, Mine, Pass, Placed, Generation, Carries;
    ExactlyOnce(events, start, inode, lib);
    ExactlyOnce(events', start', inode, lib);
    var s, s' := Lived(events, start, inode, lib), Lived(events', start', inode, lib);
    var mine, mine' := Mine(s.system.tables.rows, lib), Mine(s'.system.tables.rows, lib);
    RowIs(mine, s.content, inode, lib, k);
    RowIs(mine', s.content, inode, lib, k);
  }

  /** A row that says this line. */
  ghost predicate SaysLine(row: Row, inode: Inode, line: Bytes, end: nat, lib: Library) {
    && row.identity == Identity(lib.name, Generation(Position(inode.dev, inode.ino, 0, 0, "", false)), end + 1)
    && exists data :: Says(line, data, lib) && Carries(row, data, lib)
  }

  /**
  In terms of the text alone: once the saved offset is past a short whole line, that line is in the store, as the log of its
  very bytes or the fields it parses to, or as the note of why it is neither.
  */
  lemma LinesFiled(events: seq<Event>, start: Bytes, inode: Inode, lib: Library, a: nat, b: nat)
    requires LibraryOk(lib) && |Lived(events, start, inode, lib).content| < U64_MAX
    requires var s := Lived(events, start, inode, lib);
      var mine, saved := Mine(s.system.tables.rows, lib), Saved(s.system.tables, lib);
      && mine != [] && saved.Some? && Origin(mine) <= a < b <= |s.content| && b <= saved.value.offset
      && Boundary(s.content, Origin(mine), false, a)
      && b - a <= MAX_LINE && s.content[b - 1] == NEWLINE && NEWLINE !in s.content[a..b - 1]
    ensures var s := Lived(events, start, inode, lib);
      var mine := Mine(s.system.tables.rows, lib);
      exists k :: 0 < k < |mine| && SaysLine(mine[k], inode, s.content[a..b - 1], b, lib)
  {
    hide LibraryOk, Lived, Mine, Pass, Generation, Carries, Says, Saved, ReadLine, Boundary;
    ExactlyOnce(events, start, inode, lib);
    var s := Lived(events, start, inode, lib);
    var mine := Mine(s.system.tables.rows, lib);
    var pass := WholePass(mine, s.content, lib);
    LinesAreRead(s.content, Origin(mine), false, lib, a, b);
    var k :| 0 <= k < |pass| && pass[k] == Piece(a, b, false, ReadLine(s.content[a..b - 1], lib));
    var n := |mine| - 1;
    if k >= n {
      PassNth(s.content, Origin(mine), false, lib, n);
      PassNth(s.content, Origin(mine), false, lib, k);
      if n > 0 {
        PassRises(s.content, Origin(mine), false, lib, n - 1, k);
      }
      assert false;
    }
    RowIs(mine, s.content, inode, lib, k + 1);
    assert SaysLine(mine[k + 1], inode, s.content[a..b - 1], b, lib);
  }

  lemma RowIs(mine: seq<Row>, content: Bytes, inode: Inode, lib: Library, k: nat)
    requires Exact(mine, content, inode, lib) && k < |mine|
    ensures Origin(mine) <= |content| && k <= |WholePass(mine, content, lib)|
    ensures mine[k].identity == Identity(lib.name, Generation(Position(inode.dev, inode.ino, 0, 0, "", false)),
                                         (if k == 0 then Origin(mine) else WholePass(mine, content, lib)[k - 1].end) + 1)
    ensures Carries(mine[k], DataAt(mine, content, lib, k), lib)
  {
    hide Pass, Generation;
    if k > 0 {
      var piece := WholePass(mine, content, lib)[k - 1];
      assert Filed(mine[k - 1 + 1], inode, piece.end, piece.data, lib);
    }
  }
}
