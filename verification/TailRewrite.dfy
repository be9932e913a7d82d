/**
A file cut short or written over behind the source's back: the next poll files the note, in the next epoch and at offset 0,
and from there the source reads the new content from its start.
*/
module TailRewrite {
  import opened Common
  import opened Custody
  import opened Tail
  import opened TailPass
  import opened TailFresh
  import opened TailRotation
  import opened TailCoverage
  import opened TailProgress
  import opened TailRuns
  import opened TailCatchUp

  /** Shorter than the offset, or with other bytes before it, as far as the digest can tell. */
  ghost predicate Rewritten(content: Bytes, p: Position, lib: Library) {
    |content| < p.offset || lib.digest(Last32(content, p.offset)) != p.tail
  }

  // ---------------------------------------------------------------- the turn

  /**
  What a turn makes of a file that has its length and the bytes before the offset to show: exactly if they are not what
  the position says, it is begun again in the next epoch; otherwise it is read on.
  */
  lemma TurnNotices(s: Source, t: Tables, look: Look, lib: Library)
    requires s.position.Some? && s.file.Some? && look.len.Some?
    requires look.len.value >= s.position.value.offset && s.position.value.tail != "" ==> look.tailAt(s.position.value.offset).Some?
    ensures var p := s.position.value;
      var s1 := s.(lag := Max(0, look.len.value - p.offset));
      var noted := Committed(s1, t, Position(p.dev, p.ino, 0, SaturatingAdd(p.epoch, 1), "", false), Gap(Truncated),
                             look.sealAt, look.now, look.refuse, lib);
      Turned(s, t, look, lib) ==
        if look.len.value < p.offset || (p.tail != "" && look.tailAt(p.offset) != Some(p.tail)) then
          (noted.0, noted.1, if noted.2 then Again else Stop(Failed))
        else if look.readAt(p.offset) == None then (s1, t, Stop(Failed))
        else Consumed(s1, t, p, ReadOf(look, p.offset), look, lib)
  {
    hide Committed, Consumed;
  }

  /** Every row of the source is of an epoch up to the last record's. */
  lemma RowsAreOlder(s: Source, t: Tables, h: seq<Entry>, files: Files, inodes: nat -> Inode, lib: Library, calm: bool)
    requires Told(s, t, h, files, inodes, lib, calm) && h != []
    ensures var mine := Mine(t.rows, lib);
      |mine| > 0 && forall k :: 0 <= k < |mine| ==> Older(mine[k], h[|h| - 1].epoch + 1, lib)
  {
    hide Mine, IdentityOf, Saved, SavedLast, Follows, Written;
    var mine := Mine(t.rows, lib);
    forall k | 0 <= k < |mine|
      ensures Older(mine[k], h[|h| - 1].epoch + 1, lib)
    {
      if k < Base(h) {
        HistoryAhead(h, files, lib, calm, 0, |h| - 1);
        assert Older(mine[k], Lead(h), lib);
        var q: Position :| q.epoch < Lead(h) && mine[k].identity == IdentityOf(q, lib);
      } else {
        assert RowFor(mine[Base(h) + (k - Base(h))], h[k - Base(h)], inodes, lib);
        HistoryAhead(h, files, lib, calm, k - Base(h), |h| - 1);
        assert PlaceOf(h[k - Base(h)], inodes).epoch <= h[|h| - 1].epoch;
      }
    }
  }

  /** An identity of an epoch above all there is is nobody's. */
  lemma NewEpochUnused(t: Tables, p: Position, lib: Library)
    requires forall k :: 0 <= k < |Mine(t.rows, lib)| ==> Older(Mine(t.rows, lib)[k], p.epoch, lib)
    ensures forall k :: 0 <= k < |t.rows| ==> t.rows[k].identity != IdentityOf(p, lib)
  {
    hide Mine, Generation;
    MineHolds(t.rows, lib);
    forall k | 0 <= k < |t.rows|
      ensures t.rows[k].identity != IdentityOf(p, lib)
    {
      if t.rows[k].identity == IdentityOf(p, lib) {
        assert t.rows[k] in Mine(t.rows, lib);
        var q: Position :| q.epoch < p.epoch && t.rows[k].identity == IdentityOf(q, lib);
        GenerationEpoch(q, p);
      }
    }
  }

  /** The first record of the new content. */
  function NewBeginning(rows: nat, epoch: nat): Entry {
    Entry(0, epoch, 0, false, Began(rows, epoch))
  }

  lemma NewHistory(content: Bytes, lib: Library, rows: nat, epoch: nat, calm: bool)
    requires rows > 0
    ensures History([NewBeginning(rows, epoch)], [content], lib, calm)
  {
  }

  lemma NewRows(mine: seq<Row>, row: Row, epoch: nat, inodes: nat -> Inode, lib: Library)
    requires |mine| > 0 && forall k :: 0 <= k < |mine| ==> Older(mine[k], epoch, lib)
    requires RowFor(row, NewBeginning(|mine|, epoch), inodes, lib)
    ensures Rows(mine + [row], [NewBeginning(|mine|, epoch)], inodes, lib)
  {
    hide RowFor, Older;
    assert forall k :: 0 <= k < |mine| ==> (mine + [row])[k] == mine[k];
  }

  /** The turn that finds the file changed starts a new history of it. */
  lemma RestartTurn(s: Source, t: Tables, look: Look, content: Bytes, inodes: nat -> Inode, lib: Library, p: Position)
    returns (h: seq<Entry>)
    requires LibraryOk(lib) && Willing(lib) && Ranged(inodes) && PlainAmong(look, 0, [content], inodes, lib)
    requires s.position == Some(p) && s.file == Some(inodes(0)) && p.dev == inodes(0).dev && p.ino == inodes(0).ino
    requires p.tail != "" && Rewritten(content, p, lib) && p.epoch < U64_MAX
    requires |Mine(t.rows, lib)| > 0
    requires forall k :: 0 <= k < |Mine(t.rows, lib)| ==> Older(Mine(t.rows, lib)[k], p.epoch + 1, lib)
    ensures var r := Turned(s, t, look, lib);
      && h == [NewBeginning(|Mine(t.rows, lib)|, p.epoch + 1)] && r.2 == Again
      && Told(r.0, r.1, h, [content], inodes, lib, true) && r.0.file.Some?
      && Mine(t.rows, lib) <= Mine(r.1.rows, lib)
  {
    hide LibraryOk, Willing, Ranged, Mine, Committed, Consumed, Last32, IdentityOf, Older, History, Rows, RowFor, Bounded, Saved, Digits;
    var mine := Mine(t.rows, lib);
    var e := NewBeginning(|mine|, p.epoch + 1);
    h := [e];
    var place := Position(p.dev, p.ino, 0, p.epoch + 1, "", false);
    TurnNotices(s, t, look, lib);
    NewEpochUnused(t, place, lib);
    var s1 := s.(lag := Max(0, |content| - p.offset));
    assert Bounded(place.(tail := look.sealAt(0).value)) by {
      PlaceBounded(place, look.sealAt(0).value, inodes, lib, content);
    }
    CommitTaken(s1, t, place, Gap(Truncated), look.sealAt, look.now, lib);
    CommitOutcome(s1, t, place, Gap(Truncated), look.sealAt, look.now, false, lib);
    var r := Committed(s1, t, place, Gap(Truncated), look.sealAt, look.now, false, lib);
    var row := r.1.rows[|t.rows|];
    MineSnoc(t.rows, row, lib);
    NameOf(place, lib);
    RowIsNew(row, e, inodes, lib, place);
    NewHistory(content, lib, |mine|, p.epoch + 1, true);
    NewRows(mine, row, p.epoch + 1, inodes, lib);
  }

  lemma PlaceBounded(p: Position, tail: Text, inodes: nat -> Inode, lib: Library, content: Bytes)
    requires Willing(lib) && Ranged(inodes) && p.dev == inodes(0).dev && p.ino == inodes(0).ino && p.offset == 0 && p.epoch <= U64_MAX
    requires tail == lib.digest(Last32(content, 0))
    ensures Bounded(p.(tail := tail))
  {
  }

  lemma RowIsNew(row: Row, e: Entry, inodes: nat -> Inode, lib: Library, place: Position)
    requires place == PlaceOf(e, inodes) && row.identity == IdentityOf(place, lib) && DataFor(e, lib) == Gap(Truncated)
    requires exists now :: row.payload == Written(IdentityOf(place, lib), Gap(Truncated), now, lib)
    ensures RowFor(row, e, inodes, lib)
  {
    hide Written, IdentityOf;
  }

  // ---------------------------------------------------------------- the poll

  /** Where the source stands when the turns of a poll begin: at the saved position, the file open. */
  lemma StandsAt(
    s: System, h: seq<Entry>, files: Files, inodes: nat -> Inode, content: Bytes, w: Climate, inodes': nat -> Inode, lib: Library, calm: bool)
    requires Told(s.source, s.tables, h, files, inodes, lib, calm) && h != [] && Silent(w, [content])
    requires inodes'(0) == inodes(h[|h| - 1].file)
    ensures Tip(h, files)
    ensures var r := Opened(s.source, s.tables, OpeningAmong([content], w, inodes', lib), lib);
      s.source.file == None ==>
        r.2 && r.1 == s.tables && r.0.position == Some(SealedAt(h[|h| - 1], files, inodes, lib)) && r.0.file == Some(inodes'(0))
    ensures s.source.file.Some? ==>
        s.source.position == Some(SealedAt(h[|h| - 1], files, inodes, lib)) && s.source.file == Some(inodes'(0))
  {
    hide Mine, Rows, History, During, TailIn, Committed, Last32;
    if s.source.file == None {
      ClosedParts(s.source, s.tables, h, files, inodes, lib, calm);
    } else {
      LastEntry(s.source, s.tables, h, files, inodes, lib, calm);
    }
  }

  /** From there, the eight turns of an undisturbed poll. */
  lemma RestartEight(s: Source, t: Tables, content: Bytes, w: Climate, inodes: nat -> Inode, lib: Library, p: Position)
    returns (h: seq<Entry>)
    requires LibraryOk(lib) && Willing(lib) && Ranged(inodes) && Apart(inodes) && Silent(w, [content]) && |content| < U64_MAX
    requires s.position == Some(p) && s.file == Some(inodes(0)) && p.dev == inodes(0).dev && p.ino == inodes(0).ino
    requires p.tail != "" && Rewritten(content, p, lib) && p.epoch + 2 <= U64_MAX
    requires |Mine(t.rows, lib)| > 0
    requires forall k :: 0 <= k < |Mine(t.rows, lib)| ==> Older(Mine(t.rows, lib)[k], p.epoch + 1, lib)
    ensures var r := Ended(s, t, [content], w, inodes, lib);
      && Told(r.source, r.tables, h, [content], inodes, lib, true)
      && h != [] && h[0] == NewBeginning(|Mine(t.rows, lib)|, p.epoch + 1)
      && Mine(t.rows, lib) <= Mine(r.tables.rows, lib)
  {
    hide LibraryOk, Willing, Ranged, Apart, Mine, Turned, Turns, Stage, LookAmong, PlainAmong, Silent, Told, Idle, Rewritten, Older, During;
    var files := [content];
    var looks := LooksAmong(s, t, files, w, inodes, lib);
    SilentFiles(files, w, First(0));
    WhichIs(1, inodes, 0);
    SilentLook(files, w, inodes, lib, 0, 0);
    StageNone(s, t, files, w, inodes, lib);
    var look := LookFrom(s, files, w, inodes, lib, 0);
    assert looks(0) == look == LookAmong(files, w, inodes, lib, 0, 0);
    var h1 := RestartTurn(s, t, look, content, inodes, lib, p);
    var r := Turned(s, t, look, lib);
    StageNext(s, t, files, w, inodes, lib, 0);
    TurnsNext(s, t, looks, 0, 8, lib);
    NewFits(h1, content, |Mine(t.rows, lib)|, p.epoch + 1);
    h := SilentTurns(s, t, h1, files, w, inodes, lib, looks, 1, 7, true);
    var r7 := Turns(r.0, r.1, looks, 1, 7, lib);
    ToldSame(r7.0, Closing(r7.0, r7.2), r7.1, h, files, inodes, lib, true);
    TurnsAppend(r.0, r.1, looks, 1, 7, lib);
    MineGrows(r.1.rows, r7.1.rows, lib);
  }

  lemma StageNone(s: Source, t: Tables, files: Files, w: Climate, inodes: nat -> Inode, lib: Library)
    ensures Stage(s, t, files, w, inodes, lib, 0) == (s, t)
  {
  }

  lemma NewFits(h: seq<Entry>, content: Bytes, rows: nat, epoch: nat)
    requires h == [NewBeginning(rows, epoch)] && epoch + 1 <= U64_MAX && |content| < U64_MAX
    ensures Fits(h, [content])
  {
  }

  /**
  Whatever the source has been through: if the file it is on is cut short or written over so that the digest tells, then
  undisturbed polls leave everything filed so far as it was, file the note at offset 0 of the next epoch, and after it one
  history of the new content from its start, up to where the source is idle; every short whole line of the new content is
  a record of its own.
  */
  lemma RewriteStartsOver(
    s: System, h: seq<Entry>, files: Files, inodes: nat -> Inode, calm: bool,
    content: Bytes, w: Climate, inodes': nat -> Inode, lib: Library, n: nat)
    returns (h': seq<Entry>)
    requires LibraryOk(lib) && Willing(lib) && Ranged(inodes') && Apart(inodes') && (forall b :: lib.digest(b) != "")
    requires Told(s.source, s.tables, h, files, inodes, lib, calm) && Tip(h, files)
    requires inodes'(0) == inodes(h[|h| - 1].file) && h[|h| - 1].epoch + 2 <= U64_MAX
    requires Silent(w, [content]) && |content| < U64_MAX && 8 * n > |content| + 1
    requires Rewritten(content, SealedAt(h[|h| - 1], files, inodes, lib), lib)
    ensures var r := Watched(s, [content], w, inodes', lib, n + 1);
      var old', mine, epoch := Mine(s.tables.rows, lib), Mine(r.tables.rows, lib), h[|h| - 1].epoch + 1;
      && Told(r.source, r.tables, h', [content], inodes', lib, true) && Idle(h', [content])
      && old' <= mine && h'[0] == NewBeginning(|old'|, epoch)
      && LinesStored(content, mine, |old'|, PlaceOf(h'[0], inodes'), lib)
  {
    hide LibraryOk, Willing, Ranged, Apart, Told, Silent, Idle, Mine, Watched, PollAmong, Rewritten, LinesStored, Older, Last32, Within;
    var r1 := PollAmong(s, [content], w, inodes', lib);
    var h1 := RestartPoll(s, h, files, inodes, calm, content, w, inodes', lib);
    WatchedShift(s, [content], w, inodes', lib, n);
    RestFits(content, h1);
    h' := WatchedIdle(r1, h1, [content], w, inodes', lib, n, true);
    var r := Watched(r1, [content], w, inodes', lib, n);
    WatchedAppends(r1, [content], w, inodes', lib, n);
    MineGrows(r1.tables.rows, r.tables.rows, lib);
    FitsOn(h1, h', [content]);
    AllLines(r, h', content, inodes', lib);
  }

  lemma SealedIs(e: Entry, files: Files, inodes: nat -> Inode, lib: Library)
    requires e.file < |files| && e.end <= |files[e.file]| && forall b :: lib.digest(b) != ""
    ensures var p := SealedAt(e, files, inodes, lib);
      p.epoch == e.epoch && p.dev == inodes(e.file).dev && p.ino == inodes(e.file).ino && p.tail != ""
  {
    hide Last32;
  }

  /** The first poll. */
  lemma RestartPoll(
    s: System, h: seq<Entry>, files: Files, inodes: nat -> Inode, calm: bool,
    content: Bytes, w: Climate, inodes': nat -> Inode, lib: Library)
    returns (h': seq<Entry>)
    requires LibraryOk(lib) && Willing(lib) && Ranged(inodes') && Apart(inodes') && (forall b :: lib.digest(b) != "")
    requires Told(s.source, s.tables, h, files, inodes, lib, calm) && Tip(h, files)
    requires inodes'(0) == inodes(h[|h| - 1].file) && h[|h| - 1].epoch + 2 <= U64_MAX
    requires Silent(w, [content]) && |content| < U64_MAX
    requires Rewritten(content, SealedAt(h[|h| - 1], files, inodes, lib), lib)
    ensures var r := PollAmong(s, [content], w, inodes', lib);
      && Told(r.source, r.tables, h', [content], inodes', lib, true)
      && h' != [] && h'[0] == NewBeginning(|Mine(s.tables.rows, lib)|, h[|h| - 1].epoch + 1)
      && Mine(s.tables.rows, lib) <= Mine(r.tables.rows, lib)
  {
    hide LibraryOk, Willing, Ranged, Apart, Mine, Told, Silent, Rewritten, Older, Opened, OpeningAmong, Ended, Last32, NewBeginning, SealedAt,
      PollAmong;
    var p := SealedAt(h[|h| - 1], files, inodes, lib);
    SealedIs(h[|h| - 1], files, inodes, lib);
    StandsAt(s, h, files, inodes, content, w, inodes', lib, calm);
    RowsAreOlder(s.source, s.tables, h, files, inodes, lib, calm);
    PollEnds(s, [content], w, inodes', lib);
    if s.source.file.Some? {
      h' := RestartEight(s.source, s.tables, content, w, inodes', lib, p);
    } else {
      var r := Opened(s.source, s.tables, OpeningAmong([content], w, inodes', lib), lib);
      h' := RestartEight(r.0, r.1, content, w, inodes', lib, p);
    }
  }

  lemma RestFits(content: Bytes, h: seq<Entry>)
    requires h != [] && |content| < U64_MAX && h[0].how.Began? && h[0].how.lead + 1 <= U64_MAX
    ensures Rest([content], 0) == |content| + 1 && Fits(h, [content])
  {
    assert Rest([content], 1) == 0;
  }

  lemma WatchedShift(s: System, files: Files, w: Climate, inodes: nat -> Inode, lib: Library, n: nat)
    ensures Watched(s, files, w, inodes, lib, n + 1) == Watched(PollAmong(s, files, w, inodes, lib), files, w, inodes, lib, n)
    decreases n
  {
    hide PollAmong;
    if n > 0 {
      WatchedShift(s, files, w, inodes, lib, n - 1);
    }
  }

  lemma PollAppends(s: System, files: Files, w: Climate, inodes: nat -> Inode, lib: Library)
    ensures s.tables.rows <= PollAmong(s, files, w, inodes, lib).tables.rows
  {
    hide OpeningAmong, LooksAmong, Opened, Turns, PollAmong;
    var o := OpeningAmong(files, w, inodes, lib);
    PollEnds(s, files, w, inodes, lib);
    OpenAppends(s.source, s.tables, o, lib);
    var r := Opened(s.source, s.tables, o, lib);
    TurnsAppend(s.source, s.tables, LooksAmong(s.source, s.tables, files, w, inodes, lib), 0, 8, lib);
    TurnsAppend(r.0, r.1, LooksAmong(r.0, r.1, files, w, inodes, lib), 0, 8, lib);
  }

  lemma OpenAppends(s: Source, t: Tables, o: Opening, lib: Library)
    ensures t.rows <= Opened(s, t, o, lib).1.rows
  {
    hide Find, IdentityOf;
  }

  lemma WatchedAppends(s: System, files: Files, w: Climate, inodes: nat -> Inode, lib: Library, n: nat)
    ensures s.tables.rows <= Watched(s, files, w, inodes, lib, n).tables.rows
    decreases n
  {
    hide PollAmong;
    if n > 0 {
      WatchedAppends(s, files, w, inodes, lib, n - 1);
      PollAppends(Watched(s, files, w, inodes, lib, n - 1), files, w, inodes, lib);
    }
  }

  /** Every short whole line is a record of its own behind the first `from` rows. */
  ghost predicate LinesStored(content: Bytes, mine: seq<Row>, from: nat, p: Position, lib: Library) {
    forall a: nat, b: nat :: ShortLine(content, 0, a, b) ==>
      LineStored(mine, from, |mine|, Identity(lib.name, Generation(p), b + 1), content[a..b - 1], lib)
  }

  lemma AllLines(s: System, h: seq<Entry>, content: Bytes, inodes: nat -> Inode, lib: Library)
    requires Told(s.source, s.tables, h, [content], inodes, lib, true) && Idle(h, [content]) && Fits(h, [content])
    requires h[0].how.Began? && h[0].file == 0 && h[0].end == 0
    ensures Base(h) <= |Mine(s.tables.rows, lib)|
    ensures LinesStored(content, Mine(s.tables.rows, lib), Base(h), PlaceOf(h[0], inodes), lib)
  {
    hide Told, Mine, Generation, Says, LineStored, PlaceOf, Cuts, Window, Fits;
    ToldCounts(s.source, s.tables, h, [content], inodes, lib, true);
    forall a: nat, b: nat | ShortLine(content, 0, a, b)
      ensures LineStored(Mine(s.tables.rows, lib), Base(h), |Mine(s.tables.rows, lib)|,
                         Identity(lib.name, Generation(PlaceOf(h[0], inodes)), b + 1), content[a..b - 1], lib)
    {
      LinesTold(s.source, s.tables, h, [content], inodes, lib, 0, |h|, a, b);
      LineSays(content[a..b - 1], lib);
      StoredSays(Mine(s.tables.rows, lib), Base(h), |Mine(s.tables.rows, lib)|,
                 Identity(lib.name, Generation(PlaceOf(h[0], inodes)), b + 1), content[a..b - 1], lib);
    }
  }

  lemma StoredSays(mine: seq<Row>, i: nat, k: nat, identity: Identity, line: Bytes, lib: Library)
    requires Among(mine, i, k, identity, ReadLine(line, lib), lib)
    ensures LineStored(mine, i, k, identity, line, lib)
  {
    hide Among, ReadLine, Says;
    LineSays(line, lib);
  }
}
