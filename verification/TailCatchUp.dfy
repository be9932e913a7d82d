/**
Progress across rotation: when nobody writes, each turn makes a record until the last file is read as far as it goes.
And the one way rotation loses lines: a file written to and replaced between a turn's read and its look at the path.
*/
module TailCatchUp {
  import opened Common
  import opened Custody
  import opened Tail
  import opened TailPass
  import opened TailFresh
  import opened TailRotation
  import opened TailCoverage
  import opened TailProgress
  import opened TailRuns

  // ---------------------------------------------------------------- commits nobody refuses

  ghost predicate Ranged(inodes: nat -> Inode) {
    forall i :: inodes(i).dev <= U64_MAX && inodes(i).ino <= U64_MAX
  }

  ghost predicate SealsAt(sealAt: nat -> Option<Text>, content: Bytes, offset: nat, lib: Library) {
    offset <= |content| && sealAt(offset) == Some(lib.digest(Last32(content, offset)))
  }

  /** What can come next is committed, and is one more record. */
  lemma CanGoes(
    s: Source, t: Tables, h: seq<Entry>, e: Entry, p: Position, sealAt: nat -> Option<Text>, now: nat,
    files: Files, inodes: nat -> Inode, lib: Library, calm: bool)
    requires LibraryOk(lib) && Willing(lib) && Ranged(inodes) && s.file.Some?
    requires History(h, files, lib, calm) && Rows(Mine(t.rows, lib), h, inodes, lib)
    requires Can(h, e, files, lib, calm) && p.(tail := "") == PlaceOf(e, inodes)
    requires e.file < |files| && SealsAt(sealAt, files[e.file], e.end, lib)
    ensures var r := Committed(s, t, p, DataFor(e, lib), sealAt, now, false, lib);
      r.2 && |Mine(r.1.rows, lib)| == |Mine(t.rows, lib)| + 1
  {
    hide Mine, Committed, History, Rows, LibraryOk, IdentityOf, DataFor, Follows, Last32;
    CanUnused(h, e, t, p, files, inodes, lib, calm);
    assert Bounded(p.(tail := sealAt(p.offset).value));
    hide Can, Willing, Bounded;
    CommitTaken(s, t, p, DataFor(e, lib), sealAt, now, lib);
    CommitOutcome(s, t, p, DataFor(e, lib), sealAt, now, false, lib);
    var r := Committed(s, t, p, DataFor(e, lib), sealAt, now, false, lib);
    NameOf(p, lib);
    MineSnoc(t.rows, r.1.rows[|t.rows|], lib);
  }

  // ---------------------------------------------------------------- turns nobody disturbs

  /** Nobody writes, every call succeeds, reads are full, commits are taken. */
  ghost predicate Silent(w: Climate, files: Files) {
    && (forall m :: w.files(m) == files && !w.fail(m) && !w.refuse(m) && !w.missing(m))
    && (forall i :: w.short(i) > MAX_FRAME)
  }

  lemma {:induction false} SilentFiles(files: Files, w: Climate, m: nat)
    requires Silent(w, files)
    ensures During(files, w, m) == files
    decreases m
  {
    if m > 0 {
      SilentFiles(files, w, m - 1);
    }
  }

  lemma SilentCalm(files: Files, w: Climate)
    requires Silent(w, files) && files != []
    ensures CalmPoll(files, w)
  {
    hide During, First;
    forall m: nat
      ensures During(files, w, m) == files
    {
      SilentFiles(files, w, m);
    }
  }

  /** What a turn on file j is told then. */
  ghost predicate PlainAmong(look: Look, j: nat, files: Files, inodes: nat -> Inode, lib: Library) {
    && j < |files| && look.len == Some(|files[j]|) && !look.refuse
    && look.path == look.reopened == Some(inodes(|files| - 1))
    && (forall o: nat :: o <= |files[j]| ==>
          && look.tailAt(o) == Some(lib.digest(Last32(files[j], o))) && look.sealAt(o) == Some(lib.digest(Last32(files[j], o)))
          && look.readAt(o).Some? && ReadOf(look, o) == Window(files[j], o))
  }

  lemma SilentLook(files: Files, w: Climate, inodes: nat -> Inode, lib: Library, i: nat, j: nat)
    requires Silent(w, files) && j < |files|
    ensures PlainAmong(LookAmong(files, w, inodes, lib, i, j), j, files, inodes, lib)
  {
    hide During, ReadSome, Window;
    var m := First(i);
    SilentFiles(files, w, m);
    SilentFiles(files, w, m + 1);
    SilentFiles(files, w, m + 2);
    SilentFiles(files, w, m + 3);
    SilentFiles(files, w, m + 4);
    SilentFiles(files, w, m + 5);
    forall o: nat | o <= |files[j]|
      ensures ReadSome(files[j], false, w.short(i))(o).Some? && ReadOf(LookAmong(files, w, inodes, lib, i, j), o) == Window(files[j], o)
    {
      ReadAll(files[j], w.short(i), o);
    }
  }

  lemma SilentCut(
    s: Source, t: Tables, h: seq<Entry>, look: Look, files: Files, inodes: nat -> Inode, lib: Library, calm: bool)
    requires LibraryOk(lib) && Willing(lib) && Ranged(inodes) && Apart(inodes) && Fits(h, files)
    requires Told(s, t, h, files, inodes, lib, calm) && s.file.Some? && h != []
    requires PlainAmong(look, h[|h| - 1].file, files, inodes, lib)
    requires h[|h| - 1].end <= |files[h[|h| - 1].file]|
    requires Cuts(Window(files[h[|h| - 1].file], h[|h| - 1].end), h[|h| - 1].file + 1 < |files|)
    ensures var p := SealedAt(h[|h| - 1], files, inodes, lib);
      var r := Consumed(s, t, p, ReadOf(look, p.offset), look, lib);
      r.2 == Again && |Mine(r.1.rows, lib)| == |Mine(t.rows, lib)| + 1
  {
    hide LibraryOk, Willing, Ranged, Committed, Consumed, CutData, Rows, Saved, Mine, LineEnd, History, Follows, Can, Cuts, Consumes,
      Marks, Window, Told, Last32;
    LastEntry(s, t, h, files, inodes, lib, calm);
    ToldParts(s, t, h, files, inodes, lib, calm);
    var last := h[|h| - 1];
    var p := SealedAt(last, files, inodes, lib);
    var bytes := ReadOf(look, p.offset);
    var rotated := look.path.Some? && look.path.value != Inode(p.dev, p.ino);
    assert rotated <==> last.file + 1 < |files|;
    CutsNothing(rotated);
    var e := Entry(last.file, last.epoch, p.offset + Consumes(bytes), Marks(bytes, rotated),
                   Took(Taken(p.offset, bytes, rotated, p.skipping)));
    PlainPath(look, last.file, files, inodes, lib, calm);
    WindowPart(files[last.file], p.offset);
    CutCan(h, e, p, look, files, inodes, lib, calm);
    CanBounds(h, e, files, lib, calm);
    ConsumedIsCut(s, t, p, bytes, look, lib);
    CanGoes(s, t, h, e, p.(offset := e.end, skipping := e.skipping), look.sealAt, look.now, files, inodes, lib, calm);
  }

  lemma CutsNothing(rotated: bool)
    ensures !Cuts([], rotated)
  {
  }

  lemma WindowPart(content: Bytes, offset: nat)
    requires offset <= |content|
    ensures Window(content, offset) <= content[offset..]
  {
  }

  lemma PlainPath(look: Look, j: nat, files: Files, inodes: nat -> Inode, lib: Library, calm: bool)
    requires PlainAmong(look, j, files, inodes, lib)
    ensures PathHonest(look, j, files, inodes, calm)
  {
    hide Window, Last32, ReadOf;
    if look.path.value != inodes(j) {
      assert j < |files| - 1 && look.reopened.value == inodes(|files| - 1);
    }
  }

  lemma SilentMove(
    s: Source, t: Tables, h: seq<Entry>, look: Look, files: Files, inodes: nat -> Inode, lib: Library, calm: bool)
    requires LibraryOk(lib) && Willing(lib) && Ranged(inodes) && Apart(inodes) && Fits(h, files)
    requires Told(s, t, h, files, inodes, lib, calm) && s.file.Some? && h != []
    requires PlainAmong(look, h[|h| - 1].file, files, inodes, lib)
    requires h[|h| - 1].file + 1 < |files| && h[|h| - 1].end == |files[h[|h| - 1].file]|
    ensures var p := SealedAt(h[|h| - 1], files, inodes, lib);
      var r := Consumed(s, t, p, [], look, lib);
      r.2 == Again && |Mine(r.1.rows, lib)| == |Mine(t.rows, lib)| + 1
  {
    hide LibraryOk, Willing, Ranged, Committed, CutData, Rows, Saved, Mine, LineEnd, History, Window, Told, Cuts, Consumes, Marks;
    LastEntry(s, t, h, files, inodes, lib, calm);
    ToldParts(s, t, h, files, inodes, lib, calm);
    var last := h[|h| - 1];
    var e := Entry(|files| - 1, last.epoch + 1, 0, false, Moved);
    assert Can(h, e, files, lib, calm);
    hide Can, Follows;
    EmptyTail(files[last.file], files[|files| - 1]);
    CanGoes(s.(file := look.reopened), t, h, e, PlaceOf(e, inodes), look.sealAt, look.now, files, inodes, lib, calm);
  }

  lemma SilentStop(s: Source, t: Tables, p: Position, bytes: Bytes, look: Look, lib: Library)
    requires s.file.Some? && look.path == Some(Inode(p.dev, p.ino)) && !Cuts(bytes, false)
    ensures var r := Consumed(s, t, p, bytes, look, lib); r.1 == t && r.2.Stop? && r.2.state != Failed
  {
    hide CutData, Committed;
  }

  /** A turn makes one more record, or there is nothing to make one of. */
  lemma SilentTurn(
    s: Source, t: Tables, h: seq<Entry>, look: Look, files: Files, inodes: nat -> Inode, lib: Library, calm: bool)
    requires LibraryOk(lib) && Willing(lib) && Ranged(inodes) && Apart(inodes) && Fits(h, files)
    requires Told(s, t, h, files, inodes, lib, calm) && s.file.Some? && h != []
    requires PlainAmong(look, h[|h| - 1].file, files, inodes, lib)
    ensures var r := Turned(s, t, look, lib);
      if Idle(h, files) then r.2.Stop? && r.2.state != Failed && r.1 == t
      else r.2 == Again && |Mine(r.1.rows, lib)| == |Mine(t.rows, lib)| + 1
  {
    hide LibraryOk, Willing, Ranged, Consumed, Committed, CutData, Rows, Saved, Mine, History, Told, Window, Cuts, Last32;
    LastEntry(s, t, h, files, inodes, lib, calm);
    var last := h[|h| - 1];
    var p := s.position.value;
    assert p == SealedAt(last, files, inodes, lib);
    var s1 := s.(lag := |files[last.file]| - p.offset);
    ToldSame(s, s1, t, h, files, inodes, lib, calm);
    var bytes := ReadOf(look, p.offset);
    assert Turned(s, t, look, lib) == Consumed(s1, t, p, bytes, look, lib);
    if last.file + 1 == |files| {
      if Cuts(bytes, false) {
        SilentCut(s1, t, h, look, files, inodes, lib, calm);
      } else {
        SilentStop(s1, t, p, bytes, look, lib);
      }
    } else if bytes == [] {
      EmptyWindow(files[last.file], p.offset);
      SilentMove(s1, t, h, look, files, inodes, lib, calm);
    } else {
      CutsRotated(bytes);
      SilentCut(s1, t, h, look, files, inodes, lib, calm);
    }
  }

  lemma CutsRotated(bytes: Bytes)
    requires bytes != []
    ensures Cuts(bytes, true)
  {
  }

  // ---------------------------------------------------------------- polls nobody disturbs

  /** As many rows as entries. */
  lemma ToldCounts(s: Source, t: Tables, h: seq<Entry>, files: Files, inodes: nat -> Inode, lib: Library, calm: bool)
    requires Told(s, t, h, files, inodes, lib, calm)
    ensures |Mine(t.rows, lib)| == Base(h) + |h|
  {
    hide Mine, RowFor, Older, History, Saved, SavedLast;
  }

  /** Turn i of such a poll. */
  lemma SilentStage(
    s: Source, t: Tables, h: seq<Entry>, files: Files, w: Climate, inodes: nat -> Inode, lib: Library, i: nat, calm: bool)
    returns (h': seq<Entry>)
    requires LibraryOk(lib) && Willing(lib) && Ranged(inodes) && Apart(inodes) && Fits(h, files) && files != [] && Silent(w, files)
    requires Told(s, t, h, files, inodes, lib, calm) && s.file.Some?
    ensures var r := Turned(s, t, LookFrom(s, files, w, inodes, lib, i), lib);
      && Told(r.0, r.1, h', files, inodes, lib, calm) && Grows(h, h') && r.0.file.Some?
      && if Idle(h, files) then r.2.Stop? && r.2.state != Failed && h' == h else r.2 == Again && |h'| == |h| + 1
  {
    hide LibraryOk, Willing, Ranged, Turned, LookAmong, During, Told, Idle, PlainAmong, Silent, CalmPoll, Mine, Fits;
    SilentFiles(files, w, First(i));
    SilentFiles(files, w, First(i) + 6);
    SilentCalm(files, w);
    LastEntry(s, t, h, files, inodes, lib, calm);
    WhichIs(|files|, inodes, h[|h| - 1].file);
    var look := LookFrom(s, files, w, inodes, lib, i);
    SilentLook(files, w, inodes, lib, i, h[|h| - 1].file);
    SilentTurn(s, t, h, look, files, inodes, lib, calm);
    h' := StageTold(s, t, h, files, w, inodes, lib, i, calm);
    TurnFile(s, t, look, lib);
    var r := Turned(s, t, look, lib);
    ToldCounts(s, t, h, files, inodes, lib, calm);
    ToldCounts(r.0, r.1, h', files, inodes, lib, calm);
  }

  lemma {:induction false} SilentTurns(
    s0: Source, t0: Tables, h: seq<Entry>, files: Files, w: Climate, inodes: nat -> Inode, lib: Library, looks: nat -> Look,
    i: nat, n: nat, calm: bool)
    returns (h': seq<Entry>)
    requires LibraryOk(lib) && Willing(lib) && Ranged(inodes) && Apart(inodes) && Fits(h, files) && files != [] && Silent(w, files)
    requires forall k: nat :: looks(k) == LookFrom(Stage(s0, t0, files, w, inodes, lib, k).0, files, w, inodes, lib, k)
    requires var (s, t) := Stage(s0, t0, files, w, inodes, lib, i); Told(s, t, h, files, inodes, lib, calm) && s.file.Some?
    ensures var (s, t) := Stage(s0, t0, files, w, inodes, lib, i);
      var r := Turns(s, t, looks, i, n, lib);
      && Told(r.0, r.1, h', files, inodes, lib, calm) && Grows(h, h') && r.0.file.Some? && r.2 != Failed
      && (Idle(h', files) || |h'| == |h| + n) && (Idle(h, files) ==> h' == h)
    decreases n
  {
    hide LibraryOk, Willing, Ranged, Turned, Stage, Turns, Told, LookFrom, Fits, Apart, Silent, Idle;
    var (s, t) := Stage(s0, t0, files, w, inodes, lib, i);
    if n == 0 {
      NoTurns(s, t, looks, i, lib);
      h' := h;
    } else {
      var h1 := SilentStage(s, t, h, files, w, inodes, lib, i, calm);
      var r := Turned(s, t, looks(i), lib);
      StageNext(s0, t0, files, w, inodes, lib, i);
      TurnsNext(s, t, looks, i, n, lib);
      if r.2 == Again {
        FitsOn(h, h1, files);
        h' := SilentTurns(s0, t0, h1, files, w, inodes, lib, looks, i + 1, n - 1, calm);
      } else {
        h' := h1;
      }
    }
  }

  lemma SilentOpen(
    s: Source, t: Tables, h: seq<Entry>, files: Files, w: Climate, inodes: nat -> Inode, lib: Library, calm: bool)
    returns (h': seq<Entry>)
    requires LibraryOk(lib) && Willing(lib) && Ranged(inodes) && Apart(inodes) && Fits(h, files) && files != [] && Silent(w, files)
    requires Told(s, t, h, files, inodes, lib, calm) && s.file == None
    ensures var r := Opened(s, t, OpeningAmong(files, w, inodes, lib), lib);
      && r.2 && Told(r.0, r.1, h', files, inodes, lib, calm) && Grows(h, h') && r.0.file.Some?
      && (Idle(h, files) ==> h' == h)
  {
    hide LibraryOk, Willing, Ranged, Committed, Rows, Saved, Mine, History, Follows, Can, During, Told, SavedLast, Last32, Cuts, Window;
    SilentFiles(files, w, 1);
    SilentFiles(files, w, 2);
    SilentFiles(files, w, First(0));
    SilentCalm(files, w);
    var o, j := OpeningAmong(files, w, inodes, lib), Named(files);
    assert o.found == Some(inodes(j)) && o.regular && o.loadable && o.len == |files[j]| && !o.refuse;
    var r := Opened(s, t, o, lib);
    ClosedParts(s, t, h, files, inodes, lib, calm);
    LastFile(s, t, h, files, inodes, lib, calm);
    if h == [] || h[|h| - 1].file != j {
      var e := if h == [] then Entry(j, 0, if lib.replay then 0 else o.len, false, Began(0, 0))
               else Entry(j, h[|h| - 1].epoch + 1, 0, false, Resumed);
      OpenCan(h, e, j, files, lib, calm);
      assert SealsAt(o.sealAt, files[j], e.end, lib);
      CanGoes(s.(file := o.found), t, h, e, PlaceOf(e, inodes), o.sealAt, o.now, files, inodes, lib, calm);
      assert r == Committed(s.(file := o.found), t, PlaceOf(e, inodes), DataFor(e, lib), o.sealAt, o.now, false, lib);
    }
    hide Opened, OpeningAmong, First;
    h' := OpenTold(s, t, h, files, w, inodes, lib, calm);
    ToldCounts(s, t, h, files, inodes, lib, calm);
    ToldCounts(r.0, r.1, h', files, inodes, lib, calm);
  }

  /** A poll that nothing disturbs makes eight more records, or leaves the source idle; an idle one stays so. */
  lemma SilentPoll(s: System, h: seq<Entry>, files: Files, w: Climate, inodes: nat -> Inode, lib: Library, calm: bool)
    returns (h': seq<Entry>)
    requires LibraryOk(lib) && Willing(lib) && Ranged(inodes) && Apart(inodes) && Fits(h, files) && files != [] && Silent(w, files)
    requires Told(s.source, s.tables, h, files, inodes, lib, calm)
    ensures var r := PollAmong(s, files, w, inodes, lib);
      && Told(r.source, r.tables, h', files, inodes, lib, calm) && Grows(h, h')
      && (Idle(h', files) || |h'| >= |h| + 8) && (Idle(h, files) ==> h' == h)
  {
    hide LibraryOk, Willing, Ranged, Apart, Told, Fits, Opened, Turns, OpeningAmong, LookFrom, Idle, Silent, Stage;
    PollEnds(s, files, w, inodes, lib);
    var source, t, h1 := s.source, s.tables, h;
    if s.source.file == None {
      h1 := SilentOpen(s.source, s.tables, h, files, w, inodes, lib, calm);
      var r := Opened(s.source, s.tables, OpeningAmong(files, w, inodes, lib), lib);
      source, t := r.0, r.1;
      FitsOn(h, h1, files);
    }
    h' := SilentEight(source, t, h1, files, w, inodes, lib, calm);
  }

  lemma SilentEight(s: Source, t: Tables, h: seq<Entry>, files: Files, w: Climate, inodes: nat -> Inode, lib: Library, calm: bool)
    returns (h': seq<Entry>)
    requires LibraryOk(lib) && Willing(lib) && Ranged(inodes) && Apart(inodes) && Fits(h, files) && files != [] && Silent(w, files)
    requires Told(s, t, h, files, inodes, lib, calm) && s.file.Some?
    ensures var r := Ended(s, t, files, w, inodes, lib);
      && Told(r.source, r.tables, h', files, inodes, lib, calm) && Grows(h, h')
      && (Idle(h', files) || |h'| == |h| + 8) && (Idle(h, files) ==> h' == h)
  {
    hide LibraryOk, Willing, Ranged, Apart, Told, Fits, Turns, LookFrom, Idle, Silent;
    var looks := LooksAmong(s, t, files, w, inodes, lib);
    h' := SilentTurns(s, t, h, files, w, inodes, lib, looks, 0, 8, calm);
    var r := Turns(s, t, looks, 0, 8, lib);
    ToldSame(r.0, Closing(r.0, r.2), r.1, h', files, inodes, lib, calm);
  }

  // ---------------------------------------------------------------- catching up

  /** Bytes and beginnings from file j on: no history has more records there. */
  function Rest(files: Files, j: nat): nat
    decreases |files| - j
  {
    if j >= |files| then 0 else |files[j]| + 1 + Rest(files, j + 1)
  }

  lemma {:induction false} RestFalls(files: Files, i: nat, j: nat)
    requires i <= j
    ensures Rest(files, i) >= Rest(files, j)
    decreases j
  {
    if i < j {
      RestFalls(files, i, j - 1);
    }
  }

  /** Every record uses up some of it. */
  lemma {:induction false} HistoryEnds(h: seq<Entry>, files: Files, lib: Library, calm: bool, k: nat)
    requires History(h, files, lib, calm) && k < |h|
    ensures h[k].file < |files| && h[k].end <= |files[h[k].file]|
    ensures k + 1 + (|files[h[k].file]| - h[k].end) + Rest(files, h[k].file + 1) <= Rest(files, 0)
    decreases k
  {
    hide LineEnd, Window, Cuts, Consumes, Marks;
    assert Within(h[k], files);
    if k == 0 {
      RestFalls(files, 0, h[0].file);
    } else {
      HistoryEnds(h, files, lib, calm, k - 1);
      FollowsAhead(h[k - 1], h[k], files, calm);
      assert Follows(h[k - 1], h[k], files, calm);
      if h[k].file != h[k - 1].file {
        RestFalls(files, h[k - 1].file + 1, h[k].file);
      }
    }
  }

  /** n polls in the same climate. */
  function Watching(w: Climate, n: nat): seq<Happening> {
    seq(n, _ => Watches(w))
  }

  /** What n polls of quiet files make of a source and its store. */
  function Watched(s: System, files: Files, w: Climate, inodes: nat -> Inode, lib: Library, n: nat): System {
    if n == 0 then s else PollAmong(Watched(s, files, w, inodes, lib, n - 1), files, w, inodes, lib)
  }

  lemma PlayedNext(events: seq<Happening>, e: Happening, start: Bytes, inodes: nat -> Inode, lib: Library)
    ensures Played(events + [e], start, inodes, lib) == Then(Played(events, start, inodes, lib), e, inodes, lib)
  {
    hide Then;
    assert (events + [e])[..|events|] == events;
  }

  lemma WatchedPlayed(events: seq<Happening>, start: Bytes, w: Climate, n: nat, inodes: nat -> Inode, lib: Library)
    requires Silent(w, Played(events, start, inodes, lib).files)
    ensures var s := Played(events, start, inodes, lib);
      Played(events + Watching(w, n), start, inodes, lib) == Scene(Watched(s.system, s.files, w, inodes, lib, n), s.files)
    decreases n
  {
    hide PollAmong, During, Silent, Step, Played;
    var all := events + Watching(w, n);
    if n == 0 {
      assert all == events;
    } else {
      assert all == (events + Watching(w, n - 1)) + [Watches(w)];
      PlayedNext(events + Watching(w, n - 1), Watches(w), start, inodes, lib);
      WatchedPlayed(events, start, w, n - 1, inodes, lib);
      SilentFiles(Played(events, start, inodes, lib).files, w, 51);
    }
  }

  lemma {:induction false} WatchedTold(
    s: System, h: seq<Entry>, files: Files, w: Climate, inodes: nat -> Inode, lib: Library, n: nat, calm: bool)
    returns (h': seq<Entry>)
    requires LibraryOk(lib) && Willing(lib) && Ranged(inodes) && Apart(inodes) && Fits(h, files) && files != [] && Silent(w, files)
    requires Told(s.source, s.tables, h, files, inodes, lib, calm)
    ensures var r := Watched(s, files, w, inodes, lib, n);
      Told(r.source, r.tables, h', files, inodes, lib, calm) && Grows(h, h') && (Idle(h', files) || |h'| >= |h| + 8 * n)
    decreases n
  {
    hide LibraryOk, Willing, Ranged, Apart, Told, Fits, Silent, Idle, PollAmong;
    h' := h;
    if n > 0 {
      h' := WatchedTold(s, h, files, w, inodes, lib, n - 1, calm);
      FitsOn(h, h', files);
      h' := SilentPoll(Watched(s, files, w, inodes, lib, n - 1), h', files, w, inodes, lib, calm);
    }
  }

  /** Enough of them leave the source idle at the end of the last file. */
  lemma WatchedIdle(s: System, h: seq<Entry>, files: Files, w: Climate, inodes: nat -> Inode, lib: Library, n: nat, calm: bool)
    returns (h': seq<Entry>)
    requires LibraryOk(lib) && Willing(lib) && Ranged(inodes) && Apart(inodes) && Fits(h, files) && files != [] && Silent(w, files)
    requires Told(s.source, s.tables, h, files, inodes, lib, calm) && 8 * n > Rest(files, 0)
    ensures var r := Watched(s, files, w, inodes, lib, n);
      Told(r.source, r.tables, h', files, inodes, lib, calm) && Grows(h, h') && Idle(h', files)
  {
    hide LibraryOk, Willing, Ranged, Apart, Told, Fits, Silent, Idle, Watched;
    h' := WatchedTold(s, h, files, w, inodes, lib, n, calm);
    var r := Watched(s, files, w, inodes, lib, n);
    ToldParts(r.source, r.tables, h', files, inodes, lib, calm);
    if h' != [] {
      HistoryEnds(h', files, lib, calm, |h'| - 1);
    }
  }

  /**
  After any history whatever, however often the files have been rotated: once everybody is quiet, enough polls bring the
  source to the last file and as far into it as it goes. So with calm writers every file it has moved on from is recorded
  to its end, and the last up to a line still unfinished.
  */
  lemma CatchesUp(events: seq<Happening>, start: Bytes, w: Climate, n: nat, inodes: nat -> Inode, lib: Library)
    requires LibraryOk(lib) && Willing(lib) && Ranged(inodes) && Apart(inodes) && Fits([], Played(events, start, inodes, lib).files)
    requires Silent(w, Played(events, start, inodes, lib).files) && 8 * n > Rest(Played(events, start, inodes, lib).files, 0)
    ensures var s, files := Played(events + Watching(w, n), start, inodes, lib), Played(events, start, inodes, lib).files;
      && s.files == files
      && exists h :: Told(s.system.source, s.system.tables, h, files, inodes, lib, Calm(events, start, inodes, lib))
                    && Base(h) == 0 && Idle(h, files)
  {
    hide LibraryOk, Willing, Ranged, Apart, Told, Fits, Silent, Idle, Played, Calm, Watched;
    var calm, s := Calm(events, start, inodes, lib), Played(events, start, inodes, lib);
    PlayedFiles(events, start, inodes, lib);
    var h := PlayedTold(events, start, inodes, lib, calm);
    FitsOn([], h, s.files);
    h := WatchedIdle(s.system, h, s.files, w, inodes, lib, n, calm);
    WatchedPlayed(events, start, w, n, inodes, lib);
  }

  // ---------------------------------------------------------------- the race

  /** Between the read and the look at the path, the last file is written to and replaced. */
  function Race(files: Files, more: Bytes): Climate
    requires files != []
  {
    var after := files[|files| - 1 := files[|files| - 1] + more] + [[]];
    Climate((m: nat) => if m < First(0) + 2 then files else after, (i: nat) => MAX_FRAME + 1, (m: nat) => false, (i: nat) => false,
            (i: nat) => false, (i: nat) => 0)
  }

  lemma {:induction false} RaceFiles(files: Files, more: Bytes, m: nat)
    requires files != []
    ensures During(files, Race(files, more), m)
         == if m <= First(0) + 2 then files else files[|files| - 1 := files[|files| - 1] + more] + [[]]
    decreases m
  {
    var after := files[|files| - 1 := files[|files| - 1] + more] + [[]];
    if m > 0 {
      RaceFiles(files, more, m - 1);
      assert Later(files, after) && Later(files, files) && Later(after, after);
    }
  }

  /**
  A source that has read the last file to its end moves on although more has been written, and that is then in no record:
  the history of the source never comes back to a file (`NeverBack`).
  */
  lemma RaceLoses(s: Source, t: Tables, h: seq<Entry>, files: Files, more: Bytes, inodes: nat -> Inode, lib: Library, calm: bool)
    requires LibraryOk(lib) && Willing(lib) && Ranged(inodes) && Apart(inodes) && files != []
    requires Told(s, t, h, files, inodes, lib, calm) && s.file.Some? && h != []
    requires h[|h| - 1].file + 1 == |files| && h[|h| - 1].end == |files[|files| - 1]|
    requires Fits(h, During(files, Race(files, more), First(0) + 6)) && more != []
    ensures var w := Race(files, more);
      var g, r := During(files, w, First(0) + 6), Turned(s, t, LookFrom(s, files, w, inodes, lib, 0), lib);
      && |g| == |files| + 1 && g[|files| - 1] == files[|files| - 1] + more
      && r.2 == Again && r.0.file == Some(inodes(|files|)) && |Mine(r.1.rows, lib)| == |Mine(t.rows, lib)| + 1
      && h[|h| - 1].end < |g[h[|h| - 1].file]|
  {
    hide LibraryOk, Willing, Ranged, Committed, CutData, Rows, Saved, Mine, History, Told, During, First, Fits, Race, Apart, Last32;
    var w, j := Race(files, more), |files| - 1;
    var look, g := LookFrom(s, files, w, inodes, lib, 0), During(files, w, First(0) + 6);
    RaceFiles(files, more, First(0) + 6);
    RaceLook(files, more, inodes, lib);
    LastEntry(s, t, h, files, inodes, lib, calm);
    RaceFiles(files, more, First(0));
    WhichIs(|files|, inodes, j);
    assert look == LookAmong(files, w, inodes, lib, 0, j);
    hide LookFrom, LookAmong;
    RaceTurn(s, t, h, look, files, g, inodes, lib, calm);
  }

  /** What the turn is told. */
  lemma RaceLook(files: Files, more: Bytes, inodes: nat -> Inode, lib: Library)
    requires files != []
    ensures var look, j := LookAmong(files, Race(files, more), inodes, lib, 0, |files| - 1), |files| - 1;
      && look.len == Some(|files[j]|) && look.tailAt(|files[j]|) == Some(lib.digest(Last32(files[j], |files[j]|)))
      && look.readAt(|files[j]|) == Some([]) && look.path == look.reopened == Some(inodes(|files|))
      && look.sealAt(0) == Some(lib.digest(Last32([], 0))) && !look.refuse
  {
    hide During, Last32;
    RaceFiles(files, more, First(0));
    RaceFiles(files, more, First(0) + 1);
    RaceFiles(files, more, First(0) + 2);
    RaceFiles(files, more, First(0) + 3);
    RaceFiles(files, more, First(0) + 4);
    RaceFiles(files, more, First(0) + 5);
    EmptyTail(files[|files| - 1] + more, []);
  }

  /** And what it makes of that. */
  lemma RaceTurn(
    s: Source, t: Tables, h: seq<Entry>, look: Look, files: Files, g: Files, inodes: nat -> Inode, lib: Library, calm: bool)
    requires LibraryOk(lib) && Willing(lib) && Ranged(inodes) && Apart(inodes)
    requires Told(s, t, h, files, inodes, lib, calm) && s.file.Some? && h != [] && Fits(h, g) && Later(files, g)
    requires h[|h| - 1].file + 1 == |files| < |g| && h[|h| - 1].end == |files[|files| - 1]| && g[|files|] == []
    requires var j := |files| - 1;
      && look.len == Some(|files[j]|) && look.tailAt(|files[j]|) == Some(lib.digest(Last32(files[j], |files[j]|)))
      && look.readAt(|files[j]|) == Some([]) && look.path == look.reopened == Some(inodes(|files|))
      && look.sealAt(0) == Some(lib.digest(Last32([], 0))) && !look.refuse
    ensures var r := Turned(s, t, look, lib);
      r.2 == Again && r.0.file == Some(inodes(|files|)) && |Mine(r.1.rows, lib)| == |Mine(t.rows, lib)| + 1
  {
    hide LibraryOk, Willing, Ranged, Committed, CutData, Rows, Saved, Mine, History, Told, Fits, Last32, Follows;
    LastEntry(s, t, h, files, inodes, lib, calm);
    ToldCounts(s, t, h, files, inodes, lib, calm);
    ToldGrows(s, t, h, files, g, inodes, lib, calm, false);
    ToldParts(s, t, h, g, inodes, lib, false);
    var last, p := h[|h| - 1], s.position.value;
    var e := Entry(|files|, last.epoch + 1, 0, false, Moved);
    RaceCan(h, e, g, lib);
    hide Can, Later;
    var s1 := s.(lag := 0, file := look.reopened);
    CanGoes(s1, t, h, e, PlaceOf(e, inodes), look.sealAt, look.now, g, inodes, lib, false);
    CommitFile(s1, t, PlaceOf(e, inodes), DataFor(e, lib), look.sealAt, look.now, look.refuse, lib);
  }

  lemma RaceCan(h: seq<Entry>, e: Entry, g: Files, lib: Library)
    requires Tip(h, g) && Fits(h, g)
    requires h[|h| - 1].file < e.file < |g| && e == Entry(e.file, h[|h| - 1].epoch + 1, 0, false, Moved)
    ensures Can(h, e, g, lib, false)
  {
  }
}
