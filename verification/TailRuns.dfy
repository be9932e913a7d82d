/**
Runs across rotation: files follow one another under one path, each growing, possibly while it is being read and after
its path names another. Whatever the schedule, the source's rows tell one history of consecutive cuts, file after file.
*/
module TailRuns {
  import opened Common
  import opened Custody
  import opened Tail
  import opened TailPass
  import opened TailFresh
  import opened TailRotation
  import opened TailCoverage

  // ---------------------------------------------------------------- files that follow one another

  /** Everything written so far to each file that was ever at the path; the path names the last. */
  type Files = seq<Bytes>

  predicate Later(f: Files, g: Files) {
    0 < |f| <= |g| && forall i :: 0 <= i < |f| ==> f[i] <= g[i]
  }

  /** Nobody has written to a file once another had taken its place. */
  predicate Settled(f: Files, g: Files) {
    |f| <= |g| && forall i :: 0 <= i < |f| - 1 ==> g[i] == f[i]
  }

  /** The last file has not been both written to and replaced. */
  predicate Still(f: Files, g: Files) {
    0 < |f| <= |g| && (|f| < |g| ==> g[|f| - 1] == f[|f| - 1])
  }

  /** No two files share an inode. */
  ghost predicate Apart(inodes: nat -> Inode) {
    forall i, j :: inodes(i) == inodes(j) ==> i == j
  }

  function Content(f: Files, j: nat): Bytes {
    if j < |f| then f[j] else []
  }

  function Named(f: Files): nat {
    if f == [] then 0 else |f| - 1
  }

  // ---------------------------------------------------------------- a poll among them

  /** What happens during a poll, system call by system call. */
  datatype Climate = Climate(
    files: nat -> Files, short: nat -> nat, fail: nat -> bool, missing: nat -> bool, refuse: nat -> bool, now: nat -> nat)

  /** The files once m of a poll's system calls have been made. */
  function During(files: Files, w: Climate, m: nat): Files {
    if m == 0 then files
    else
      var before := During(files, w, m - 1);
      if Later(before, w.files(m - 1)) then w.files(m - 1) else before
  }

  /** A read returns something unless the file ends there. */
  function ReadSome(content: Bytes, failed: bool, short: nat): nat -> Option<Bytes> {
    (offset: nat) =>
      if failed then None
      else if offset >= |content| then Some([])
      else Some(content[offset..Min(|content|, offset + Max(short, 1))])
  }

  function OpeningAmong(files: Files, w: Climate, inodes: nat -> Inode, lib: Library): Opening {
    var j := Named(files);
    Opening(if w.fail(0) then None else Some(inodes(j)), true, |Content(During(files, w, 1), j)|, !w.fail(1),
            TailIn(Content(During(files, w, 2), j), w.fail(2), lib), w.now(0), w.refuse(0))
  }

  /** The calls turn i makes are number First(i) to First(i) + 5. */
  function First(i: nat): nat {
    6 * i + 3
  }

  function LookAmong(files: Files, w: Climate, inodes: nat -> Inode, lib: Library, i: nat, j: nat): Look {
    var m := First(i);
    Look(if w.fail(m) then None else Some(|Content(During(files, w, m), j)|),
         TailIn(Content(During(files, w, m + 1), j), w.fail(m + 1), lib),
         ReadSome(Content(During(files, w, m + 2), j), w.fail(m + 2), w.short(i)),
         if w.missing(i) then None else Some(inodes(Named(During(files, w, m + 3)))),
         if w.fail(m + 4) then None else Some(inodes(Named(During(files, w, m + 4)))),
         TailIn(Content(During(files, w, m + 5), j), w.fail(m + 5), lib),
         w.now(i + 1),
         w.refuse(i + 1))
  }

  /** Which of n files has this inode. */
  function Which(n: nat, inodes: nat -> Inode, inode: Inode): nat {
    if n == 0 then 0 else if inodes(n - 1) == inode then n - 1 else Which(n - 1, inodes, inode)
  }

  /** Turn i looks at the file that is then open. */
  function LookFrom(s: Source, files: Files, w: Climate, inodes: nat -> Inode, lib: Library, i: nat): Look {
    var j := if s.file == None then 0 else Which(|During(files, w, First(i))|, inodes, s.file.value);
    LookAmong(files, w, inodes, lib, i, j)
  }

  /** Source and store after i turns of a poll. */
  function Stage(s: Source, t: Tables, files: Files, w: Climate, inodes: nat -> Inode, lib: Library, i: nat): (Source, Tables) {
    if i == 0 then (s, t)
    else
      var (s', t') := Stage(s, t, files, w, inodes, lib, i - 1);
      var (s'', t'', _) := Turned(s', t', LookFrom(s', files, w, inodes, lib, i - 1), lib);
      (s'', t'')
  }

  function LooksAmong(s: Source, t: Tables, files: Files, w: Climate, inodes: nat -> Inode, lib: Library): nat -> Look {
    (i: nat) => LookFrom(Stage(s, t, files, w, inodes, lib, i).0, files, w, inodes, lib, i)
  }

  /** The whole poll; fifty-one calls. */
  function PollAmong(s: System, files: Files, w: Climate, inodes: nat -> Inode, lib: Library): System {
    var o := OpeningAmong(files, w, inodes, lib);
    var (s1, t1, _) := if s.source.file == None then Opened(s.source, s.tables, o, lib) else (s.source, s.tables, true);
    Step(s, Poll(o, LooksAmong(s1, t1, files, w, inodes, lib)), lib)
  }

  datatype Scene = Scene(system: System, files: Files)

  datatype Happening =
    | Writes(files: Files)
    | Watches(w: Climate)
    | Stops
    | Asks(bytes: Bytes, refuse: bool)
    | Neighbours(name: Text, bytes: Bytes, cp: Option<Checkpoint>, refuse: bool)

  function Then(s: Scene, e: Happening, inodes: nat -> Inode, lib: Library): Scene {
    match e
    case Writes(files) => if Later(s.files, files) then s.(files := files) else s
    case Watches(w) => Scene(PollAmong(s.system, s.files, w, inodes, lib), During(s.files, w, 51))
    case Stops => s.(system := Step(s.system, Restart, lib))
    case Asks(bytes, refuse) => s.(system := Step(s.system, Client(bytes, refuse), lib))
    case Neighbours(name, bytes, cp, refuse) => s.(system := Step(s.system, Collector(name, bytes, cp, refuse), lib))
  }

  function Played(events: seq<Happening>, start: Bytes, inodes: nat -> Inode, lib: Library): Scene {
    if events == [] then Scene(System(NewSource(), Tables([], map[])), [start])
    else Then(Played(events[..|events| - 1], start, inodes, lib), events[|events| - 1], inodes, lib)
  }

  /**
  Writers are done with a file when another takes its place, between the read of a turn and its look at the path
  included; and reads return all they can.
  */
  ghost predicate CalmPoll(files: Files, w: Climate) {
    && (forall m: nat :: Settled(During(files, w, m), During(files, w, m + 1)))
    && (forall i: nat :: Still(During(files, w, First(i) + 2), During(files, w, First(i) + 3)) && w.short(i) > MAX_FRAME)
  }

  ghost predicate Calm(events: seq<Happening>, start: Bytes, inodes: nat -> Inode, lib: Library) {
    events == [] ||
    var files, last := Played(events[..|events| - 1], start, inodes, lib).files, events[|events| - 1];
    && Calm(events[..|events| - 1], start, inodes, lib)
    && (last.Writes? && Later(files, last.files) ==> Settled(files, last.files))
    && (last.Watches? ==> CalmPoll(files, last.w))
  }

  // ---------------------------------------------------------------- histories

  /** Why a record was made. */
  datatype How =
    | Began(base: nat, lead: nat)   // the first: attached, or a rewritten file begun again behind `base` older rows
    | Moved                         // to the file that took the place of one read to its end
    | Resumed                       // in another file, the one before having been replaced while the source was stopped
    | Took(cut: Taken)              // the next bytes of the same file

  datatype Entry = Entry(file: nat, epoch: nat, end: nat, skipping: bool, how: How)

  function DataFor(e: Entry, lib: Library): Data {
    match e.how
    case Began(base, _) => Gap(if base > 0 then Truncated else if lib.replay then Replay else Attached)
    case Moved => Gap(Rotated)
    case Resumed => Gap(Replaced)
    case Took(cut) => DataOf(cut, lib)
  }

  function PlaceOf(e: Entry, inodes: nat -> Inode): Position {
    Position(inodes(e.file).dev, inodes(e.file).ino, e.end, e.epoch, "", e.skipping)
  }

  predicate Succeeds(a: Entry, b: Entry) {
    a.file < b.file && b.epoch == a.epoch + 1 && b.end == 0 && !b.skipping
  }

  /**
  One record after another. The next bytes of the same file, from where the last record ended and with the mark it left;
  or the start of a later file, and if writers were calm, then everything in the one before has been recorded.
  */
  ghost predicate Follows(a: Entry, b: Entry, files: Files, calm: bool) {
    && a.file < |files|
    && match b.how
       case Began(_, _) => false
       case Moved => Succeeds(a, b) && (calm ==> a.end == |files[a.file]|)
       case Resumed => Succeeds(a, b)
       case Took(x) =>
         && b.file == a.file && b.epoch == a.epoch && InContent(files[a.file], x)
         && x.start == a.end && x.skipping == a.skipping && Cuts(x.bytes, x.rotated)
         && b.end == x.start + Consumes(x.bytes) && b.skipping == Marks(x.bytes, x.rotated)
         && (x.rotated ==> a.file + 1 < |files| && (calm ==> x.start <= |files[a.file]| && x.bytes == Window(files[a.file], x.start)))
  }

  ghost predicate Within(e: Entry, files: Files) {
    e.file < |files| && e.end <= |files[e.file]|
  }

  /** Rows of the source from before this history, and the epoch it started in. */
  function Base(h: seq<Entry>): nat {
    if h != [] && h[0].how.Began? then h[0].how.base else 0
  }

  function Lead(h: seq<Entry>): nat {
    if h != [] && h[0].how.Began? then h[0].how.lead else 0
  }

  /** The record a history starts with. */
  predicate Starts(e: Entry, lib: Library) {
    && e.how.Began? && e.epoch == e.how.lead && !e.skipping
    && (if e.how.base == 0 then e.how.lead == 0 && (lib.replay ==> e.end == 0) else e.end == 0)
  }

  /** Every file is shorter than the range of offsets, and there are no more of them than epochs left. */
  ghost predicate Fits(h: seq<Entry>, g: Files) {
    Lead(h) + |g| <= U64_MAX && forall i :: 0 <= i < |g| ==> |g[i]| < U64_MAX
  }

  /** Where the last record is. */
  ghost predicate Tip(h: seq<Entry>, g: Files) {
    h != [] && Within(h[|h| - 1], g) && h[|h| - 1].epoch <= Lead(h) + h[|h| - 1].file
  }

  lemma FitsOn(h: seq<Entry>, h': seq<Entry>, g: Files)
    requires Fits(h, g) && Grows(h, h')
    ensures Fits(h', g)
  {
  }

  lemma GrowsOn(h: seq<Entry>, h': seq<Entry>, h'': seq<Entry>)
    requires Grows(h, h') && Grows(h', h'')
    ensures Grows(h, h'')
  {
  }

  /** More of the same history. */
  predicate Grows(h: seq<Entry>, h': seq<Entry>) {
    h <= h' && Base(h') == Base(h) && Lead(h') == Lead(h)
  }

  ghost predicate History(h: seq<Entry>, files: Files, lib: Library, calm: bool) {
    && (h != [] ==> Starts(h[0], lib))
    && (forall k :: 0 <= k < |h| ==> Within(h[k], files) && h[k].epoch <= Lead(h) + h[k].file)
    && (forall k :: 0 < k < |h| ==> Follows(h[k - 1], h[k], files, calm))
  }

  /** The row of a record: its identity, and its data or the note in its place when that does not fit the wire. */
  ghost predicate RowFor(row: Row, e: Entry, inodes: nat -> Inode, lib: Library) {
    && row.identity == IdentityOf(PlaceOf(e, inodes), lib)
    && exists now :: row.payload == Written(row.identity, DataFor(e, lib), now, lib)
  }

  ghost predicate Rows(mine: seq<Row>, h: seq<Entry>, inodes: nat -> Inode, lib: Library) {
    && |mine| == Base(h) + |h|
    && (forall k :: 0 <= k < |h| ==> RowFor(mine[Base(h) + k], h[k], inodes, lib))
    && (forall k :: 0 <= k < Base(h) ==> Older(mine[k], Lead(h), lib))
  }

  /** A row of an earlier epoch. */
  ghost predicate Older(row: Row, epoch: nat, lib: Library) {
    exists p: Position :: p.epoch < epoch && row.identity == IdentityOf(p, lib)
  }

  /** The position behind a record, with the digest of the bytes before it. */
  function SealedAt(e: Entry, files: Files, inodes: nat -> Inode, lib: Library): Position
    requires e.file < |files| && e.end <= |files[e.file]|
  {
    PlaceOf(e, inodes).(tail := lib.digest(Last32(files[e.file], e.end)))
  }

  ghost predicate SavedLast(saved: Option<Position>, h: seq<Entry>, files: Files, inodes: nat -> Inode, lib: Library) {
    if h == [] then saved == None
    else
      var e := h[|h| - 1];
      e.file < |files| && e.end <= |files[e.file]| && saved == Some(SealedAt(e, files, inodes, lib))
  }

  /** The rows tell this history, the checkpoint stands at its end, and the source is there or nowhere. */
  ghost predicate Told(s: Source, t: Tables, h: seq<Entry>, files: Files, inodes: nat -> Inode, lib: Library, calm: bool) {
    && History(h, files, lib, calm) && Rows(Mine(t.rows, lib), h, inodes, lib)
    && (lib.name in t.checkpoints <==> Saved(t, lib).Some?)
    && SavedLast(Saved(t, lib), h, files, inodes, lib)
    && (s.position.Some? ==> s.position == Saved(t, lib))
    && (s.file == None <==> s.position == None)
    && (s.file.Some? ==> h != [] && s.file == Some(inodes(h[|h| - 1].file)))
  }

  // ---------------------------------------------------------------- time

  lemma LaterTwice(f: Files, g: Files, k: Files)
    requires Later(f, g) && Later(g, k)
    ensures Later(f, k)
  {
    forall i | 0 <= i < |f|
      ensures f[i] <= k[i]
    {
      assert f[i] <= g[i] <= k[i];
    }
  }

  lemma {:induction false} DuringLater(files: Files, w: Climate, m: nat, n: nat)
    requires m <= n && files != []
    ensures Later(During(files, w, m), During(files, w, n))
    decreases n
  {
    if n > 0 && m < n {
      DuringLater(files, w, m, n - 1);
      LaterTwice(During(files, w, m), During(files, w, n - 1), During(files, w, n));
    } else if n > 0 {
      DuringLater(files, w, n - 1, n - 1);
    }
  }

  /** Nothing told changes when files grow, nor, if their writers are calm, what was known to be complete. */
  lemma HistoryGrows(h: seq<Entry>, f: Files, g: Files, lib: Library, calm: bool, calm': bool)
    requires History(h, f, lib, calm) && Later(f, g) && (calm' ==> calm && Settled(f, g))
    ensures History(h, g, lib, calm')
  {
    forall k | 0 < k < |h|
      ensures Follows(h[k - 1], h[k], g, calm')
    {
      assert Within(h[k - 1], f) && Within(h[k], f);
      FollowsGrows(h[k - 1], h[k], f, g, calm, calm');
    }
    assert forall k :: 0 <= k < |h| && Within(h[k], f) ==> f[h[k].file] <= g[h[k].file];
  }

  lemma FollowsGrows(a: Entry, b: Entry, f: Files, g: Files, calm: bool, calm': bool)
    requires Follows(a, b, f, calm) && Within(b, f) && Later(f, g) && (calm' ==> calm && Settled(f, g))
    ensures Follows(a, b, g, calm')
  {
    hide Cuts, Consumes, Marks, Window;
    assert f[a.file] <= g[a.file];
    if b.how.Took? {
      var x := b.how.cut;
      assert g[a.file][x.start..x.start + |x.bytes|] == f[a.file][x.start..x.start + |x.bytes|];
    }
  }

  lemma ToldGrows(
    s: Source, t: Tables, h: seq<Entry>, f: Files, g: Files, inodes: nat -> Inode, lib: Library, calm: bool, calm': bool)
    requires Told(s, t, h, f, inodes, lib, calm) && Later(f, g) && (calm' ==> calm && Settled(f, g))
    ensures Told(s, t, h, g, inodes, lib, calm')
  {
    hide Saved, Mine, Rows;
    HistoryGrows(h, f, g, lib, calm, calm');
    if h != [] {
      var e := h[|h| - 1];
      assert f[e.file] <= g[e.file];
      assert Last32(g[e.file], e.end) == Last32(f[e.file], e.end);
    }
    hide History;
  }

  // ---------------------------------------------------------------- one commit

  predicate Ahead(a: Entry, b: Entry) {
    a.epoch < b.epoch || (a.epoch == b.epoch && a.end < b.end)
  }

  /** Records only go forward. */
  lemma FollowsAhead(a: Entry, b: Entry, files: Files, calm: bool)
    requires Follows(a, b, files, calm)
    ensures Ahead(a, b) && a.file <= b.file && a.epoch <= b.epoch
  {
    hide LineEnd, Window;
  }

  lemma {:induction false} HistoryAhead(h: seq<Entry>, files: Files, lib: Library, calm: bool, j: nat, k: nat)
    requires History(h, files, lib, calm) && j <= k < |h|
    ensures h[j].file <= h[k].file && (j < k ==> Ahead(h[j], h[k]))
    decreases k
  {
    hide Follows;
    if j < k {
      FollowsAhead(h[k - 1], h[k], files, calm);
      HistoryAhead(h, files, lib, calm, j, k - 1);
    }
  }

  /** An entry that can follow. */
  ghost predicate Can(h: seq<Entry>, e: Entry, files: Files, lib: Library, calm: bool) {
    && Within(e, files) && |files[e.file]| < U64_MAX && e.epoch <= Lead(h + [e]) + e.file && e.epoch <= U64_MAX
    && if h == [] then Starts(e, lib) && e.how.base == 0 else Follows(h[|h| - 1], e, files, calm)
  }

  lemma CanExtend(h: seq<Entry>, e: Entry, files: Files, lib: Library, calm: bool)
    requires History(h, files, lib, calm) && Can(h, e, files, lib, calm)
    ensures History(h + [e], files, lib, calm)
  {
    hide Follows, Within;
  }

  /** It is ahead of all there is. */
  lemma CanAhead(h: seq<Entry>, e: Entry, files: Files, lib: Library, calm: bool, k: nat)
    requires History(h, files, lib, calm) && Can(h, e, files, lib, calm) && k < |h|
    ensures Ahead(h[k], e)
  {
    CanExtend(h, e, files, lib, calm);
    HistoryAhead(h + [e], files, lib, calm, k, |h|);
    hide History;
  }

  /** So its identity is nobody's. */
  lemma CanUnused(h: seq<Entry>, e: Entry, t: Tables, p: Position, files: Files, inodes: nat -> Inode, lib: Library, calm: bool)
    requires History(h, files, lib, calm) && Can(h, e, files, lib, calm) && Rows(Mine(t.rows, lib), h, inodes, lib)
    requires p.(tail := "") == PlaceOf(e, inodes)
    ensures forall k :: 0 <= k < |t.rows| ==> t.rows[k].identity != IdentityOf(p, lib)
  {
    hide Mine, Generation, Follows;
    MineHolds(t.rows, lib);
    var mine := Mine(t.rows, lib);
    forall k | 0 <= k < |t.rows|
      ensures t.rows[k].identity != IdentityOf(p, lib)
    {
      if t.rows[k].identity == IdentityOf(p, lib) {
        var i :| 0 <= i < |mine| && mine[i] == t.rows[k];
        RowIsOlder(mine, h, e, i, p, files, inodes, lib, calm);
      }
    }
  }

  /** A row that is there is of an earlier place than what can come next. */
  lemma RowIsOlder(
    mine: seq<Row>, h: seq<Entry>, e: Entry, i: nat, p: Position, files: Files, inodes: nat -> Inode, lib: Library, calm: bool)
    requires History(h, files, lib, calm) && Can(h, e, files, lib, calm) && Rows(mine, h, inodes, lib) && i < |mine|
    requires p.(tail := "") == PlaceOf(e, inodes)
    ensures mine[i].identity != IdentityOf(p, lib)
  {
    hide Generation, Follows;
    if mine[i].identity == IdentityOf(p, lib) {
      if i < Base(h) {
        var q: Position :| q.epoch < Lead(h) && mine[i].identity == IdentityOf(q, lib);
        LeadFirst(h, e, files, lib, calm);
        GenerationEpoch(q, p);
      } else {
        assert RowFor(mine[Base(h) + (i - Base(h))], h[i - Base(h)], inodes, lib);
        CanAhead(h, e, files, lib, calm, i - Base(h));
        GenerationEpoch(PlaceOf(h[i - Base(h)], inodes), p);
      }
    }
  }

  /** No record of a history is of an epoch before it started. */
  lemma LeadFirst(h: seq<Entry>, e: Entry, files: Files, lib: Library, calm: bool)
    requires History(h, files, lib, calm) && Can(h, e, files, lib, calm)
    ensures Lead(h) <= e.epoch
  {
    hide Follows, Within;
    if h != [] {
      CanAhead(h, e, files, lib, calm, 0);
    }
  }

  /** A commit of what comes next: refused and nothing has happened, or one more entry is told. */
  lemma CommitTold(
    s: Source, t: Tables, h: seq<Entry>, e: Entry, p: Position, sealAt: nat -> Option<Text>, now: nat, refuse: bool,
    files: Files, inodes: nat -> Inode, lib: Library, calm: bool)
    requires LibraryOk(lib) && History(h, files, lib, calm) && Rows(Mine(t.rows, lib), h, inodes, lib)
    requires Can(h, e, files, lib, calm) && p.(tail := "") == PlaceOf(e, inodes) && e.file < |files| && e.end <= |files[e.file]|
    requires s.file == Some(inodes(e.file))
    requires sealAt(e.end).Some? ==> sealAt(e.end).value == lib.digest(Last32(files[e.file], e.end))
    ensures var r := Committed(s, t, p, DataFor(e, lib), sealAt, now, refuse, lib);
      && r.0.file == s.file
      && (!r.2 ==> r.1 == t && r.0.position == s.position)
      && (r.2 ==> Told(r.0, r.1, h + [e], files, inodes, lib, calm) && Grows(h, h + [e]))
  {
    hide Mine, Committed, Can, History, LibraryOk, Saved, IdentityOf, Follows;
    CanUnused(h, e, t, p, files, inodes, lib, calm);
    CanBounds(h, e, files, lib, calm);
    CommitOutcome(s, t, p, DataFor(e, lib), sealAt, now, refuse, lib);
    var r := Committed(s, t, p, DataFor(e, lib), sealAt, now, refuse, lib);
    if r.2 {
      CanExtend(h, e, files, lib, calm);
      SameIdentity(PlaceOf(e, inodes), p, lib);
      var row := r.1.rows[|t.rows|];
      MineSnoc(t.rows, row, lib);
      NameOf(p, lib);
      assert RowFor(row, e, inodes, lib);
      RowsSnoc(Mine(t.rows, lib), h, row, e, inodes, lib);
    }
  }

  lemma NameOf(p: Position, lib: Library)
    ensures IdentityOf(p, lib).producer == lib.name
  {
  }

  lemma CanBounds(h: seq<Entry>, e: Entry, files: Files, lib: Library, calm: bool)
    requires Can(h, e, files, lib, calm)
    ensures e.file < |files| && e.end <= |files[e.file]| < U64_MAX && (h == [] ==> Starts(e, lib) && e.how.base == 0)
  {
  }

  lemma RowsSnoc(mine: seq<Row>, h: seq<Entry>, row: Row, e: Entry, inodes: nat -> Inode, lib: Library)
    requires Rows(mine, h, inodes, lib) && RowFor(row, e, inodes, lib) && (h == [] ==> Starts(e, lib) && e.how.base == 0)
    ensures Rows(mine + [row], h + [e], inodes, lib) && Grows(h, h + [e])
  {
    hide RowFor, Older;
    assert forall k :: 0 <= k < |mine| ==> (mine + [row])[k] == mine[k];
  }

  // ---------------------------------------------------------------- one turn

  /** What a turn on file j may be told, with f there when it starts and g when it ends. */
  ghost predicate HonestAmong(look: Look, j: nat, f: Files, g: Files, inodes: nat -> Inode, lib: Library, calm: bool) {
    && Later(f, g) && j < |f|
    && (look.len.Some? ==> |f[j]| <= look.len.value)
    && (forall o: nat :: o <= |f[j]| && look.tailAt(o).Some? ==> look.tailAt(o).value == lib.digest(Last32(g[j], o)))
    && (forall o: nat :: o <= |f[j]| && look.readAt(o).Some? ==> look.readAt(o).value <= g[j][o..])
    && SealHonest(look.sealAt, g[j], lib)
    && PathHonest(look, j, g, inodes, calm)
  }

  /** The path names this file or a later one; if a later one and writers are calm, then this one has been read as it ends. */
  ghost predicate PathHonest(look: Look, j: nat, g: Files, inodes: nat -> Inode, calm: bool) {
    && j < |g|
    && (look.path.Some? && look.path.value != inodes(j) ==>
          && j + 1 < |g| && (look.reopened.Some? ==> exists q :: j < q < |g| && look.reopened.value == inodes(q))
          && (calm ==> forall o: nat :: o <= |g[j]| && look.readAt(o).Some? ==> ReadOf(look, o) == Window(g[j], o)))
  }

  /** The bytes a turn gets. */
  function ReadOf(look: Look, o: nat): Bytes
    requires look.readAt(o).Some?
  {
    var available := look.readAt(o).value;
    available[..Min(|available|, MAX_FRAME + 1)]
  }

  lemma LastEntry(s: Source, t: Tables, h: seq<Entry>, files: Files, inodes: nat -> Inode, lib: Library, calm: bool)
    requires Told(s, t, h, files, inodes, lib, calm) && s.file.Some?
    ensures Tip(h, files)
    ensures var e := h[|h| - 1];
      Within(e, files) && s.position == Some(SealedAt(e, files, inodes, lib)) && s.file == Some(inodes(e.file))
  {
    hide Mine, Saved, Rows;
  }

  lemma TurnTold(
    s: Source, t: Tables, h: seq<Entry>, look: Look, f: Files, g: Files, inodes: nat -> Inode, lib: Library, calm: bool)
    returns (h': seq<Entry>)
    requires LibraryOk(lib) && Apart(inodes) && Told(s, t, h, g, inodes, lib, calm)
    requires s.file.Some? ==>
      && h != [] && h[|h| - 1].file < |f| && h[|h| - 1].end <= |f[h[|h| - 1].file]|
      && HonestAmong(look, h[|h| - 1].file, f, g, inodes, lib, calm)
    requires Fits(h, g)
    ensures var r := Turned(s, t, look, lib); Told(r.0, r.1, h', g, inodes, lib, calm) && Grows(h, h')
  {
    hide LibraryOk, Told, Committed, Consumed, PathHonest, SealHonest, Apart;
    h' := h;
    ToldEither(s, t, h, g, inodes, lib, calm);
    if s.file.Some? && look.len.Some? {
      LastEntry(s, t, h, g, inodes, lib, calm);
      var e, p := h[|h| - 1], s.position.value;
      assert look.len.value >= p.offset;
      assert look.tailAt(p.offset).Some? ==> look.tailAt(p.offset).value == p.tail;
      var s1 := s.(lag := look.len.value - p.offset);
      ToldSame(s, s1, t, h, g, inodes, lib, calm);
      if look.readAt(p.offset).Some? && (p.tail == "" || look.tailAt(p.offset).Some?) {
        h' := ConsumeTold(s1, t, h, p, look, g, inodes, lib, calm);
      }
    }
  }

  lemma ToldEither(s: Source, t: Tables, h: seq<Entry>, g: Files, inodes: nat -> Inode, lib: Library, calm: bool)
    requires Told(s, t, h, g, inodes, lib, calm)
    ensures s.file == None <==> s.position == None
  {
    hide History, Rows, SavedLast, Saved, Mine;
  }

  /** A position and an open file that have not changed. */
  lemma ToldSame(s: Source, s': Source, t: Tables, h: seq<Entry>, g: Files, inodes: nat -> Inode, lib: Library, calm: bool)
    requires Told(s, t, h, g, inodes, lib, calm)
    ensures s'.file == s.file && s'.position == s.position ==> Told(s', t, h, g, inodes, lib, calm)
  {
    hide History, Rows, SavedLast, Saved, Mine;
  }

  lemma ConsumeTold(
    s: Source, t: Tables, h: seq<Entry>, p: Position, look: Look, g: Files, inodes: nat -> Inode, lib: Library, calm: bool)
    returns (h': seq<Entry>)
    requires LibraryOk(lib) && Apart(inodes) && Told(s, t, h, g, inodes, lib, calm) && s.position == Some(p) && s.file.Some?
    requires look.readAt(p.offset).Some? && h != [] && h[|h| - 1].file < |g|
    requires p.offset <= |g[h[|h| - 1].file]| && ReadOf(look, p.offset) <= g[h[|h| - 1].file][p.offset..]
    requires PathHonest(look, h[|h| - 1].file, g, inodes, calm) && SealHonest(look.sealAt, g[h[|h| - 1].file], lib)
    requires Fits(h, g)
    ensures var r := Consumed(s, t, p, ReadOf(look, p.offset), look, lib); Told(r.0, r.1, h', g, inodes, lib, calm) && Grows(h, h')
  {
    hide LibraryOk, Told, Committed, Apart, LineEnd, CutData, SealHonest;
    LastEntry(s, t, h, g, inodes, lib, calm);
    var e, bytes := h[|h| - 1], ReadOf(look, p.offset);
    var rotated := look.path.Some? && look.path.value != Inode(p.dev, p.ino);
    h' := h;
    if bytes == [] {
      if rotated && look.reopened.Some? {
        h' := MoveTold(s, t, h, p, look, g, inodes, lib, calm);
      }
    } else if Cuts(bytes, rotated) && p.offset + Consumes(bytes) <= U64_MAX {
      h' := CutTold(s, t, h, p, bytes, look, g, inodes, lib, calm);
    } else {
      hide Consumed;
      Waits(s, t, p, bytes, look, lib);
    }
  }

  /** What is not cut is waited upon. */
  lemma Waits(s: Source, t: Tables, p: Position, bytes: Bytes, look: Look, lib: Library)
    requires s.file.Some? && bytes != []
    requires !(Cuts(bytes, look.path.Some? && look.path.value != Inode(p.dev, p.ino)) && p.offset + Consumes(bytes) <= U64_MAX)
    ensures var r := Consumed(s, t, p, bytes, look, lib); r.0 == s && r.1 == t
  {
    hide CutData, Committed;
  }

  /** The file before is drained as far as it was seen. */
  lemma MoveTold(
    s: Source, t: Tables, h: seq<Entry>, p: Position, look: Look, g: Files, inodes: nat -> Inode, lib: Library, calm: bool)
    returns (h': seq<Entry>)
    requires LibraryOk(lib) && Apart(inodes) && Told(s, t, h, g, inodes, lib, calm) && s.position == Some(p) && s.file.Some?
    requires look.readAt(p.offset).Some? && ReadOf(look, p.offset) == [] && h != [] && h[|h| - 1].file < |g|
    requires p.offset <= |g[h[|h| - 1].file]| && look.path.Some? && look.path.value != Inode(p.dev, p.ino) && look.reopened.Some?
    requires PathHonest(look, h[|h| - 1].file, g, inodes, calm) && SealHonest(look.sealAt, g[h[|h| - 1].file], lib)
    requires Fits(h, g)
    ensures var r := Consumed(s, t, p, [], look, lib); Told(r.0, r.1, h', g, inodes, lib, calm) && Grows(h, h')
  {
    hide LibraryOk, Committed, Apart, LineEnd, CutData, Rows, Saved, Mine, History, PathHonest, Follows, Can, Told;
    LastEntry(s, t, h, g, inodes, lib, calm);
    var next := MoveCan(h, p, look, g, inodes, lib, calm);
    var place := Position(inodes(next.file).dev, inodes(next.file).ino, 0, SaturatingAdd(p.epoch, 1), "", false);
    var s1 := s.(file := look.reopened);
    ToldParts(s, t, h, g, inodes, lib, calm);
    CommitTold(s1, t, h, next, place, look.sealAt, look.now, look.refuse, g, inodes, lib, calm);
    var r := Committed(s1, t, place, Gap(Rotated), look.sealAt, look.now, look.refuse, lib);
    h' := if r.2 then h + [next] else h;
    ToldSame(s, r.0.(file := s.file), t, h, g, inodes, lib, calm);
  }

  lemma ToldParts(s: Source, t: Tables, h: seq<Entry>, files: Files, inodes: nat -> Inode, lib: Library, calm: bool)
    requires Told(s, t, h, files, inodes, lib, calm)
    ensures History(h, files, lib, calm) && Rows(Mine(t.rows, lib), h, inodes, lib)
  {
    hide History, Rows, Mine, Saved;
  }

  lemma MoveCan(h: seq<Entry>, p: Position, look: Look, g: Files, inodes: nat -> Inode, lib: Library, calm: bool)
    returns (e: Entry)
    requires Tip(h, g) && p == SealedAt(h[|h| - 1], g, inodes, lib)
    requires look.readAt(p.offset).Some? && ReadOf(look, p.offset) == []
    requires look.path.Some? && look.path.value != Inode(p.dev, p.ino) && look.reopened.Some?
    requires PathHonest(look, h[|h| - 1].file, g, inodes, calm) && SealHonest(look.sealAt, g[h[|h| - 1].file], lib)
    requires Fits(h, g)
    ensures e.file < |g| && e.how == Moved && e.end == 0 && !e.skipping && e.epoch == SaturatingAdd(p.epoch, 1)
    ensures Can(h, e, g, lib, calm) && look.reopened.value == inodes(e.file)
    ensures look.sealAt(0).Some? ==> look.sealAt(0).value == lib.digest(Last32(g[e.file], 0))
  {
    hide Window, ReadOf, SealHonest, LineEnd, Cuts, Consumes, Marks, InContent, Last32;
    var last := h[|h| - 1];
    assert look.path.value != inodes(last.file);
    var q :| last.file < q < |g| && look.reopened.value == inodes(q);
    e := Entry(q, last.epoch + 1, 0, false, Moved);
    if calm {
      EmptyWindow(g[last.file], p.offset);
    }
    hide PathHonest;
    EmptyTail(g[q], g[last.file]);
    if look.sealAt(0).Some? {
      SealIs(look.sealAt, g[last.file], 0, lib);
    }
  }

  lemma EmptyWindow(content: Bytes, offset: nat)
    requires offset <= |content| && Window(content, offset) == []
    ensures offset == |content|
  {
  }

  lemma EmptyTail(a: Bytes, b: Bytes)
    ensures Last32(a, 0) == Last32(b, 0)
  {
  }

  lemma CutTold(
    s: Source, t: Tables, h: seq<Entry>, p: Position, bytes: Bytes, look: Look, g: Files, inodes: nat -> Inode, lib: Library, calm: bool)
    returns (h': seq<Entry>)
    requires LibraryOk(lib) && Apart(inodes) && Told(s, t, h, g, inodes, lib, calm) && s.position == Some(p) && s.file.Some?
    requires look.readAt(p.offset).Some? && ReadOf(look, p.offset) == bytes && h != [] && h[|h| - 1].file < |g|
    requires p.offset <= |g[h[|h| - 1].file]| && bytes <= g[h[|h| - 1].file][p.offset..]
    requires PathHonest(look, h[|h| - 1].file, g, inodes, calm) && SealHonest(look.sealAt, g[h[|h| - 1].file], lib)
    requires bytes != [] && Cuts(bytes, look.path.Some? && look.path.value != Inode(p.dev, p.ino))
    requires p.offset + Consumes(bytes) <= U64_MAX
    requires Fits(h, g)
    ensures var r := Consumed(s, t, p, bytes, look, lib); Told(r.0, r.1, h', g, inodes, lib, calm) && Grows(h, h')
  {
    hide LibraryOk, Committed, Apart, CutData, Rows, Saved, Mine, SealHonest, LineEnd, History, Follows, Can, PathHonest, Cuts, Consumes,
      Marks, Window, Told, Consumed;
    LastEntry(s, t, h, g, inodes, lib, calm);
    var e := h[|h| - 1];
    var rotated := look.path.Some? && look.path.value != Inode(p.dev, p.ino);
    var cut := Taken(p.offset, bytes, rotated, p.skipping);
    var next := Entry(e.file, e.epoch, p.offset + Consumes(bytes), Marks(bytes, rotated), Took(cut));
    ConsumedIsCut(s, t, p, bytes, look, lib);
    CutCan(h, next, p, look, g, inodes, lib, calm);
    ToldParts(s, t, h, g, inodes, lib, calm);
    CanBounds(h, next, g, lib, calm);
    if look.sealAt(next.end).Some? {
      SealIs(look.sealAt, g[e.file], next.end, lib);
    }
    var place := p.(offset := next.end, skipping := next.skipping);
    CommitTold(s, t, h, next, place, look.sealAt, look.now, look.refuse, g, inodes, lib, calm);
    var r := Committed(s, t, place, DataFor(next, lib), look.sealAt, look.now, look.refuse, lib);
    ToldSame(s, r.0, t, h, g, inodes, lib, calm);
    h' := if r.2 then h + [next] else h;
  }

  lemma CutCan(h: seq<Entry>, e: Entry, p: Position, look: Look, g: Files, inodes: nat -> Inode, lib: Library, calm: bool)
    requires Tip(h, g) && p == SealedAt(h[|h| - 1], g, inodes, lib)
    requires look.readAt(p.offset).Some? && ReadOf(look, p.offset) <= g[h[|h| - 1].file][p.offset..]
    requires var bytes := ReadOf(look, p.offset);
      var rotated := look.path.Some? && look.path.value != Inode(p.dev, p.ino);
      && Cuts(bytes, rotated)
      && e == Entry(h[|h| - 1].file, h[|h| - 1].epoch, p.offset + Consumes(bytes), Marks(bytes, rotated),
                    Took(Taken(p.offset, bytes, rotated, p.skipping)))
    requires PathHonest(look, h[|h| - 1].file, g, inodes, calm)
    requires Fits(h, g)
    ensures Can(h, e, g, lib, calm)
  {
    hide LineEnd, Window, Consumes, Marks, Last32;
    var last, x := h[|h| - 1], e.how.cut;
    assert x.rotated ==> look.path.value != inodes(last.file);
    assert g[last.file][p.offset..][..|x.bytes|] == g[last.file][p.offset..p.offset + |x.bytes|];
    LastByte(g[last.file], x);
  }

  // ---------------------------------------------------------------- what a turn of a poll is told

  lemma {:induction false} WhichIs(n: nat, inodes: nat -> Inode, j: nat)
    requires Apart(inodes) && j < n
    ensures Which(n, inodes, inodes(j)) == j
  {
    if n - 1 != j {
      WhichIs(n - 1, inodes, j);
    }
  }

  /** A file that has been replaced by the time the path is looked at stands as it was read. */
  lemma {:induction false} StaysPut(files: Files, w: Climate, i: nat, j: nat, m: nat)
    requires files != [] && CalmPoll(files, w) && First(i) + 3 <= m <= First(i) + 6
    requires j < |During(files, w, First(i) + 2)| && j + 1 < |During(files, w, First(i) + 3)|
    ensures j + 1 < |During(files, w, m)| && During(files, w, m)[j] == During(files, w, First(i) + 2)[j]
    decreases m
  {
    hide During;
    if m == First(i) + 3 {
      DuringLater(files, w, m - 1, m);
      assert Settled(During(files, w, m - 1), During(files, w, m - 1 + 1));
      assert Still(During(files, w, First(i) + 2), During(files, w, First(i) + 3));
    } else {
      StaysPut(files, w, i, j, m - 1);
      DuringLater(files, w, m - 1, m);
      assert Settled(During(files, w, m - 1), During(files, w, m - 1 + 1));
    }
  }

  lemma ReadAll(content: Bytes, short: nat, offset: nat)
    requires offset <= |content| && short > MAX_FRAME
    ensures var read := ReadSome(content, false, short)(offset);
      read.Some? && read.value[..Min(|read.value|, MAX_FRAME + 1)] == Window(content, offset)
  {
    if offset == |content| {
      assert Window(content, offset) == [];
    } else {
      var end := Min(|content|, offset + Max(short, 1));
      var k := Min(end - offset, MAX_FRAME + 1);
      assert ReadSome(content, false, short)(offset).value == content[offset..end];
      assert content[offset..end][..k] == content[offset..offset + k] == Window(content, offset);
    }
  }

  lemma PathIsHonest(files: Files, w: Climate, inodes: nat -> Inode, lib: Library, i: nat, j: nat, calm: bool)
    requires files != [] && Apart(inodes) && j < |During(files, w, First(i))| && (calm ==> CalmPoll(files, w))
    ensures PathHonest(LookAmong(files, w, inodes, lib, i, j), j, During(files, w, First(i) + 6), inodes, calm)
  {
    hide During, ReadSome, Window, TailIn;
    var m := First(i);
    hide First;
    var look, g := LookAmong(files, w, inodes, lib, i, j), During(files, w, m + 6);
    DuringLater(files, w, m, m + 2);
    DuringLater(files, w, m, m + 3);
    DuringLater(files, w, m + 3, m + 4);
    DuringLater(files, w, m + 4, m + 6);
    if look.path.Some? && look.path.value != inodes(j) {
      var q := Named(During(files, w, m + 4));
      assert j < q < |g|;
      if calm {
        StaysPut(files, w, i, j, m + 6);
        forall o: nat | o <= |g[j]| && look.readAt(o).Some?
          ensures ReadOf(look, o) == Window(g[j], o)
        {
          ReadAll(g[j], w.short(i), o);
          ReadFails(g[j], w.fail(m + 2), w.short(i), o);
        }
      }
    }
  }

  lemma ReadFails(content: Bytes, failed: bool, short: nat, offset: nat)
    ensures ReadSome(content, failed, short)(offset).Some? ==> !failed
  {
  }

  lemma ReadPrefix(content: Bytes, after: Bytes, failed: bool, short: nat, offset: nat)
    requires content <= after && offset <= |content|
    ensures var read := ReadSome(content, failed, short)(offset); read.Some? ==> read.value <= after[offset..]
  {
    if offset < |content| {
      var end := Min(|content|, offset + Max(short, 1));
      assert content[offset..end] == after[offset..end] == after[offset..][..end - offset];
    }
  }

  lemma TailSeen(a: Bytes, b: Bytes, c: Bytes, failed: bool, lib: Library)
    requires a <= b <= c
    ensures forall o: nat :: o <= |a| && TailIn(b, failed, lib)(o).Some? ==> TailIn(b, failed, lib)(o).value == lib.digest(Last32(c, o))
  {
    TailHonest(b, c, failed, lib);
    hide Last32;
  }

  lemma ReadSeen(a: Bytes, b: Bytes, c: Bytes, failed: bool, short: nat)
    requires a <= b <= c
    ensures forall o: nat :: o <= |a| && ReadSome(b, failed, short)(o).Some? ==> ReadSome(b, failed, short)(o).value <= c[o..]
  {
    forall o: nat | o <= |a| && ReadSome(b, failed, short)(o).Some?
      ensures ReadSome(b, failed, short)(o).value <= c[o..]
    {
      ReadPrefix(b, c, failed, short, o);
    }
  }

  lemma LookIsHonest(files: Files, w: Climate, inodes: nat -> Inode, lib: Library, i: nat, j: nat, calm: bool)
    requires files != [] && Apart(inodes) && j < |During(files, w, First(i))| && (calm ==> CalmPoll(files, w))
    ensures HonestAmong(LookAmong(files, w, inodes, lib, i, j), j, During(files, w, First(i)), During(files, w, First(i) + 6),
                        inodes, lib, calm)
  {
    hide LookAmong, During, SealHonest, PathHonest, CalmPoll, Apart, Last32, First;
    var look, f, g := LookAmong(files, w, inodes, lib, i, j), During(files, w, First(i)), During(files, w, First(i) + 6);
    DuringLater(files, w, First(i), First(i) + 6);
    PathIsHonest(files, w, inodes, lib, i, j, calm);
    SizeClause(files, w, inodes, lib, i, j);
    TailClause(files, w, inodes, lib, i, j);
    ReadClause(files, w, inodes, lib, i, j);
    SealClause(files, w, inodes, lib, i, j);
  }

  lemma SizeClause(files: Files, w: Climate, inodes: nat -> Inode, lib: Library, i: nat, j: nat)
    requires j < |During(files, w, First(i))|
    ensures var look, f := LookAmong(files, w, inodes, lib, i, j), During(files, w, First(i));
      look.len.Some? ==> |f[j]| <= look.len.value
  {
    hide During, TailIn, ReadSome;
  }

  lemma TailClause(files: Files, w: Climate, inodes: nat -> Inode, lib: Library, i: nat, j: nat)
    requires files != [] && j < |During(files, w, First(i))| && Later(During(files, w, First(i)), During(files, w, First(i) + 6))
    ensures var look, f, g := LookAmong(files, w, inodes, lib, i, j), During(files, w, First(i)), During(files, w, First(i) + 6);
      forall o: nat :: o <= |f[j]| && look.tailAt(o).Some? ==> look.tailAt(o).value == lib.digest(Last32(g[j], o))
  {
    hide During, TailIn, ReadSome, Last32;
    var m := First(i);
    Sees(files, w, m, m + 1, m + 6, j);
    TailSeen(During(files, w, m)[j], During(files, w, m + 1)[j], During(files, w, m + 6)[j], w.fail(m + 1), lib);
  }

  lemma ReadClause(files: Files, w: Climate, inodes: nat -> Inode, lib: Library, i: nat, j: nat)
    requires files != [] && j < |During(files, w, First(i))| && Later(During(files, w, First(i)), During(files, w, First(i) + 6))
    ensures var look, f, g := LookAmong(files, w, inodes, lib, i, j), During(files, w, First(i)), During(files, w, First(i) + 6);
      forall o: nat :: o <= |f[j]| && look.readAt(o).Some? ==> look.readAt(o).value <= g[j][o..]
  {
    hide During, TailIn, ReadSome;
    var m := First(i);
    Sees(files, w, m, m + 2, m + 6, j);
    ReadSeen(During(files, w, m)[j], During(files, w, m + 2)[j], During(files, w, m + 6)[j], w.fail(m + 2), w.short(i));
  }

  lemma SealClause(files: Files, w: Climate, inodes: nat -> Inode, lib: Library, i: nat, j: nat)
    requires files != [] && j < |During(files, w, First(i))| && j < |During(files, w, First(i) + 6)|
    ensures SealHonest(LookAmong(files, w, inodes, lib, i, j).sealAt, During(files, w, First(i) + 6)[j], lib)
  {
    hide During, TailIn, ReadSome, SealHonest;
    var m := First(i);
    Sees(files, w, m, m + 5, m + 6, j);
    TailHonest(During(files, w, m + 5)[j], During(files, w, m + 6)[j], w.fail(m + 5), lib);
  }

  /** One file at three moments. */
  lemma Sees(files: Files, w: Climate, a: nat, b: nat, c: nat, j: nat)
    requires files != [] && a <= b <= c && j < |During(files, w, a)|
    ensures j < |During(files, w, b)| && j < |During(files, w, c)|
    ensures During(files, w, a)[j] <= During(files, w, b)[j] <= During(files, w, c)[j]
    ensures Content(During(files, w, b), j) == During(files, w, b)[j]
  {
    hide During;
    DuringLater(files, w, a, b);
    DuringLater(files, w, b, c);
  }

  lemma BoundedBefore(h: seq<Entry>, f: Files, g: Files)
    requires Later(f, g) && Fits(h, g)
    ensures Fits(h, f)
  {
    forall i | 0 <= i < |f|
      ensures |f[i]| < U64_MAX
    {
      assert f[i] <= g[i];
    }
  }

  // ---------------------------------------------------------------- polls

  lemma StageTold(
    s: Source, t: Tables, h: seq<Entry>, files: Files, w: Climate, inodes: nat -> Inode, lib: Library, i: nat, calm: bool)
    returns (h': seq<Entry>)
    requires LibraryOk(lib) && Apart(inodes) && files != [] && (calm ==> CalmPoll(files, w)) && Fits(h, During(files, w, First(i) + 6))
    requires Told(s, t, h, During(files, w, First(i)), inodes, lib, calm)
    ensures var r := Turned(s, t, LookFrom(s, files, w, inodes, lib, i), lib);
      Told(r.0, r.1, h', During(files, w, First(i) + 6), inodes, lib, calm) && Grows(h, h')
  {
    hide LibraryOk, Turned, During, LookAmong, HonestAmong, History, Rows, Saved, Mine;
    var m := First(i);
    var f, g := During(files, w, m), During(files, w, m + 6);
    PollSettled(files, w, m, m + 6, calm);
    ToldGrows(s, t, h, f, g, inodes, lib, calm, calm);
    var look := LookFrom(s, files, w, inodes, lib, i);
    if s.file.Some? {
      LastEntry(s, t, h, f, inodes, lib, calm);
      WhichIs(|f|, inodes, h[|h| - 1].file);
      LookIsHonest(files, w, inodes, lib, i, h[|h| - 1].file, calm);
    }
    h' := TurnTold(s, t, h, look, f, g, inodes, lib, calm);
  }

  lemma {:induction false} PollSettled(files: Files, w: Climate, m: nat, n: nat, calm: bool)
    requires files != [] && m <= n && (calm ==> CalmPoll(files, w))
    ensures Later(During(files, w, m), During(files, w, n)) && (calm ==> Settled(During(files, w, m), During(files, w, n)))
    decreases n
  {
    hide During;
    DuringLater(files, w, m, n);
    if m < n && calm {
      PollSettled(files, w, m, n - 1, calm);
      assert Settled(During(files, w, n - 1), During(files, w, n - 1 + 1));
    }
  }

  lemma StageNext(s: Source, t: Tables, files: Files, w: Climate, inodes: nat -> Inode, lib: Library, i: nat)
    ensures var (s', t') := Stage(s, t, files, w, inodes, lib, i);
      var r := Turned(s', t', LookFrom(s', files, w, inodes, lib, i), lib); Stage(s, t, files, w, inodes, lib, i + 1) == (r.0, r.1)
  {
    hide Turned, LookFrom;
  }

  lemma NoTurns(s: Source, t: Tables, looks: nat -> Look, i: nat, lib: Library)
    ensures Turns(s, t, looks, i, 0, lib) == (s, t, Collecting)
  {
    hide Turned;
  }

  lemma TurnsNext(s: Source, t: Tables, looks: nat -> Look, i: nat, n: nat, lib: Library)
    requires n > 0
    ensures var r := Turned(s, t, looks(i), lib);
      Turns(s, t, looks, i, n, lib) ==
        match r.2 case Again => Turns(r.0, r.1, looks, i + 1, n - 1, lib) case Stop(state) => (r.0, r.1, state)
  {
    hide Turned;
  }

  lemma {:induction false} TurnsTold(
    s0: Source, t0: Tables, h: seq<Entry>, files: Files, w: Climate, inodes: nat -> Inode, lib: Library, looks: nat -> Look,
    i: nat, n: nat, calm: bool)
    returns (h': seq<Entry>)
    requires LibraryOk(lib) && Apart(inodes) && files != [] && (calm ==> CalmPoll(files, w)) && i + n == 8 && Fits(h, During(files, w, 51))
    requires forall k: nat :: looks(k) == LookFrom(Stage(s0, t0, files, w, inodes, lib, k).0, files, w, inodes, lib, k)
    requires var (s, t) := Stage(s0, t0, files, w, inodes, lib, i); Told(s, t, h, During(files, w, First(i)), inodes, lib, calm)
    ensures var (s, t) := Stage(s0, t0, files, w, inodes, lib, i);
      var r := Turns(s, t, looks, i, n, lib); Told(r.0, r.1, h', During(files, w, 51), inodes, lib, calm) && Grows(h, h')
    decreases n
  {
    hide LibraryOk, Turned, Stage, Turns, During, Told, LookFrom, Fits, CalmPoll, Apart, Later, Settled;
    assert First(i) <= 51 && First(i + 1) == First(i) + 6 && (n == 0 ==> First(i) == 51) && (n > 0 ==> First(i) + 6 <= 51);
    hide First;
    var (s, t) := Stage(s0, t0, files, w, inodes, lib, i);
    PollSettled(files, w, First(i), 51, calm);
    if n == 0 {
      NoTurns(s, t, looks, i, lib);
      ToldGrows(s, t, h, During(files, w, First(i)), During(files, w, 51), inodes, lib, calm, calm);
      h' := h;
    } else {
      PollSettled(files, w, First(i) + 6, 51, calm);
      BoundedBefore(h, During(files, w, First(i) + 6), During(files, w, 51));
      var h1 := StageTold(s, t, h, files, w, inodes, lib, i, calm);
      var r := Turned(s, t, looks(i), lib);
      StageNext(s0, t0, files, w, inodes, lib, i);
      TurnsNext(s, t, looks, i, n, lib);
      if r.2 == Again {
        FitsOn(h, h1, During(files, w, 51));
        h' := TurnsTold(s0, t0, h1, files, w, inodes, lib, looks, i + 1, n - 1, calm);
      } else {
        ToldGrows(r.0, r.1, h1, During(files, w, First(i) + 6), During(files, w, 51), inodes, lib, calm, calm);
        h' := h1;
      }
    }
  }

  /** What a closed source leaves behind. */
  lemma ClosedParts(s: Source, t: Tables, h: seq<Entry>, g: Files, inodes: nat -> Inode, lib: Library, calm: bool)
    requires Told(s, t, h, g, inodes, lib, calm) && s.file == None
    ensures s.position == None && History(h, g, lib, calm) && Rows(Mine(t.rows, lib), h, inodes, lib)
    ensures h == [] <==> lib.name !in t.checkpoints
    ensures h != [] ==> Tip(h, g) && lib.load(t.checkpoints[lib.name]) == Some(SealedAt(h[|h| - 1], g, inodes, lib))
  {
    hide Rows, Mine, Follows;
  }

  /** A source without file and position tells what the store does. */
  lemma ToldShut(s: Source, s': Source, t: Tables, h: seq<Entry>, g: Files, inodes: nat -> Inode, lib: Library, calm: bool)
    requires Told(s, t, h, g, inodes, lib, calm)
    ensures s'.file == None && s'.position == None ==> Told(s', t, h, g, inodes, lib, calm)
  {
    hide History, Rows, SavedLast, Saved, Mine;
  }

  /** And one that has taken up the saved position. */
  lemma ToldResumed(s: Source, s': Source, t: Tables, h: seq<Entry>, g: Files, inodes: nat -> Inode, lib: Library, calm: bool)
    requires Told(s, t, h, g, inodes, lib, calm) && h != [] && h[|h| - 1].file < |g| && h[|h| - 1].end <= |g[h[|h| - 1].file]|
    requires s'.file == Some(inodes(h[|h| - 1].file)) && s'.position == Some(SealedAt(h[|h| - 1], g, inodes, lib))
    ensures Told(s', t, h, g, inodes, lib, calm)
  {
    hide History, Rows, Saved, Mine;
  }

  lemma OpeningSees(files: Files, w: Climate, inodes: nat -> Inode, lib: Library)
    requires files != []
    ensures var o, g, j := OpeningAmong(files, w, inodes, lib), During(files, w, First(0)), Named(files);
      && (o.found.Some? ==> o.found.value == inodes(j)) && o.regular && j < |files| <= |g|
      && o.len <= |g[j]| && SealHonest(o.sealAt, g[j], lib)
  {
    assert First(0) == 3 && During(files, w, 0) == files;
    hide During, TailIn, SealHonest, First;
    Sees(files, w, 0, 1, 3, Named(files));
    Sees(files, w, 0, 2, 3, Named(files));
    DuringLater(files, w, 0, 3);
    TailHonest(During(files, w, 2)[Named(files)], During(files, w, 3)[Named(files)], w.fail(2), lib);
  }

  lemma OpenCan(h: seq<Entry>, e: Entry, j: nat, g: Files, lib: Library, calm: bool)
    requires Fits(h, g) && j < |g|
    requires h == [] ==> e == Entry(j, 0, e.end, false, Began(0, 0)) && e.end <= |g[j]| && (lib.replay ==> e.end == 0)
    requires h != [] ==> Tip(h, g) && h[|h| - 1].file < j && e == Entry(j, h[|h| - 1].epoch + 1, 0, false, Resumed)
    ensures Can(h, e, g, lib, calm)
  {
  }

  /** Opening: the saved position is taken up, or a first record made, or one that says the file before is lost. */
  lemma OpenTold(
    s: Source, t: Tables, h: seq<Entry>, files: Files, w: Climate, inodes: nat -> Inode, lib: Library, calm: bool)
    returns (h': seq<Entry>)
    requires LibraryOk(lib) && Apart(inodes) && files != [] && Fits(h, During(files, w, First(0))) && s.file == None
    requires Told(s, t, h, During(files, w, First(0)), inodes, lib, calm)
    requires h != [] ==> h[|h| - 1].file < |files|
    ensures var r := Opened(s, t, OpeningAmong(files, w, inodes, lib), lib);
      && (if r.2 then r.0.position.Some? && r.0.file.Some? else r.0.position == None)
      && Told(r.0.(file := if r.2 then r.0.file else None), r.1, h', During(files, w, First(0)), inodes, lib, calm) && Grows(h, h')
  {
    hide LibraryOk, Committed, Rows, Saved, Mine, History, Follows, Can, During, TailIn, Told, SavedLast, OpeningAmong, First;
    var o, g, j := OpeningAmong(files, w, inodes, lib), During(files, w, First(0)), Named(files);
    h' := h;
    ClosedParts(s, t, h, g, inodes, lib, calm);
    OpeningSees(files, w, inodes, lib);
    var r := Opened(s, t, o, lib);
    ToldShut(s, r.0.(file := None), t, h, g, inodes, lib, calm);
    if o.found.Some? && o.loadable {
      if h != [] && h[|h| - 1].file == j {
        ToldResumed(s, r.0, t, h, g, inodes, lib, calm);
      } else {
        var e := if h == [] then Entry(j, 0, if lib.replay then 0 else o.len, false, Began(0, 0))
                 else Entry(j, h[|h| - 1].epoch + 1, 0, false, Resumed);
        h' := FirstTold(s, t, h, e, o, g, inodes, lib, calm);
      }
    }
  }

  /** The record made when there is no position to take up. */
  lemma FirstTold(
    s: Source, t: Tables, h: seq<Entry>, e: Entry, o: Opening, g: Files, inodes: nat -> Inode, lib: Library, calm: bool)
    returns (h': seq<Entry>)
    requires LibraryOk(lib) && Apart(inodes) && Fits(h, g) && Told(s, t, h, g, inodes, lib, calm) && s.file == None
    requires e.file < |g| && o.found == Some(inodes(e.file)) && o.regular && o.loadable && o.len <= |g[e.file]|
    requires SealHonest(o.sealAt, g[e.file], lib)
    requires h == [] ==> e == Entry(e.file, 0, if lib.replay then 0 else o.len, false, Began(0, 0))
    requires h != [] ==> h[|h| - 1].file < e.file && e == Entry(e.file, h[|h| - 1].epoch + 1, 0, false, Resumed)
    ensures var r := Opened(s, t, o, lib);
      && (if r.2 then r.0.position.Some? && r.0.file.Some? else r.0.position == None)
      && Told(r.0.(file := if r.2 then r.0.file else None), r.1, h', g, inodes, lib, calm) && Grows(h, h')
  {
    hide LibraryOk, Committed, Rows, Saved, Mine, History, Follows, Can, Told, SealHonest;
    ClosedParts(s, t, h, g, inodes, lib, calm);
    OpenCan(h, e, e.file, g, lib, calm);
    var s1, p := s.(file := o.found), PlaceOf(e, inodes);
    if o.sealAt(e.end).Some? {
      SealIs(o.sealAt, g[e.file], e.end, lib);
    }
    CommitTold(s1, t, h, e, p, o.sealAt, o.now, o.refuse, g, inodes, lib, calm);
    var r := Committed(s1, t, p, DataFor(e, lib), o.sealAt, o.now, o.refuse, lib);
    assert Opened(s, t, o, lib) == r;
    ToldShut(s, r.0.(file := None), t, h, g, inodes, lib, calm);
    if r.2 {
      ToldOpen(r.0, r.1, h + [e], g, inodes, lib, calm);
    }
    h' := if r.2 then h + [e] else h;
  }

  lemma ToldOpen(s: Source, t: Tables, h: seq<Entry>, g: Files, inodes: nat -> Inode, lib: Library, calm: bool)
    requires Told(s, t, h, g, inodes, lib, calm)
    ensures s.file == None <==> s.position == None
  {
    hide History, Rows, SavedLast, Saved, Mine;
  }

  /** The turns of a poll and its end. */
  lemma EightTold(
    s: Source, t: Tables, h: seq<Entry>, files: Files, w: Climate, inodes: nat -> Inode, lib: Library, calm: bool)
    returns (h': seq<Entry>)
    requires LibraryOk(lib) && Apart(inodes) && files != [] && (calm ==> CalmPoll(files, w)) && Fits(h, During(files, w, 51))
    requires Told(s, t, h, During(files, w, First(0)), inodes, lib, calm) && s.file.Some? && s.position.Some?
    ensures var r := Turns(s, t, LooksAmong(s, t, files, w, inodes, lib), 0, 8, lib);
      Told(Closing(r.0, r.2), r.1, h', During(files, w, 51), inodes, lib, calm) && Grows(h, h')
  {
    hide LibraryOk, Apart, During, Told, CalmPoll, Fits, Turns, LookFrom, First;
    var looks := LooksAmong(s, t, files, w, inodes, lib);
    h' := TurnsTold(s, t, h, files, w, inodes, lib, looks, 0, 8, calm);
    var r := Turns(s, t, looks, 0, 8, lib);
    TurnsFile(s, t, looks, 0, 8, lib);
    TurnsPosition(s, t, looks, 0, 8, lib);
    ToldSame(r.0, Closing(r.0, r.2), r.1, h', During(files, w, 51), inodes, lib, calm);
  }

  lemma PollTold(
    s: System, h: seq<Entry>, files: Files, w: Climate, inodes: nat -> Inode, lib: Library, calm: bool)
    returns (h': seq<Entry>)
    requires LibraryOk(lib) && Apart(inodes) && files != [] && (calm ==> CalmPoll(files, w)) && Fits(h, During(files, w, 51))
    requires Told(s.source, s.tables, h, files, inodes, lib, calm)
    ensures var r := PollAmong(s, files, w, inodes, lib);
      Told(r.source, r.tables, h', During(files, w, 51), inodes, lib, calm) && Grows(h, h')
  {
    hide LibraryOk, Apart, During, Told, CalmPoll, Fits, Opened, Turns, OpeningAmong, LooksAmong, Later, Settled, First;
    FirstCalls(files, w, calm);
    BoundedBefore(h, During(files, w, First(0)), During(files, w, 51));
    ToldGrows(s.source, s.tables, h, files, During(files, w, First(0)), inodes, lib, calm, calm);
    ToldOpen(s.source, s.tables, h, files, inodes, lib, calm);
    PollEnds(s, files, w, inodes, lib);
    if s.source.file.Some? {
      h' := EightTold(s.source, s.tables, h, files, w, inodes, lib, calm);
    } else {
      LastFile(s.source, s.tables, h, files, inodes, lib, calm);
      h' := OpenTold(s.source, s.tables, h, files, w, inodes, lib, calm);
      var r := Opened(s.source, s.tables, OpeningAmong(files, w, inodes, lib), lib);
      if r.2 {
        FitsOn(h, h', During(files, w, 51));
        h' := EightTold(r.0, r.1, h', files, w, inodes, lib, calm);
      } else {
        var g, end := During(files, w, First(0)), During(files, w, 51);
        ToldGrows(r.0.(file := None), r.1, h', g, end, inodes, lib, calm, calm);
        ToldSame(r.0.(file := None), Closing(r.0, Failed), r.1, h', end, inodes, lib, calm);
      }
    }
  }

  lemma FirstCalls(files: Files, w: Climate, calm: bool)
    requires files != [] && (calm ==> CalmPoll(files, w))
    ensures var f, g := During(files, w, First(0)), During(files, w, 51);
      && Later(files, f) && Later(f, g) && (calm ==> Settled(files, f) && Settled(f, g))
  {
    assert During(files, w, 0) == files && First(0) == 3;
    hide During, First, CalmPoll;
    PollSettled(files, w, 0, 3, calm);
    PollSettled(files, w, 3, 51, calm);
  }

  /** How a poll ends, by where it started. */
  lemma PollEnds(s: System, files: Files, w: Climate, inodes: nat -> Inode, lib: Library)
    ensures var r := Opened(s.source, s.tables, OpeningAmong(files, w, inodes, lib), lib);
      PollAmong(s, files, w, inodes, lib) ==
        if s.source.file.Some? then Ended(s.source, s.tables, files, w, inodes, lib)
        else if r.2 then Ended(r.0, r.1, files, w, inodes, lib)
        else System(Closing(r.0, Failed), r.1)
  {
    hide Opened, Turns, OpeningAmong, LooksAmong;
  }

  function Ended(s: Source, t: Tables, files: Files, w: Climate, inodes: nat -> Inode, lib: Library): System {
    var r := Turns(s, t, LooksAmong(s, t, files, w, inodes, lib), 0, 8, lib);
    System(Closing(r.0, r.2), r.1)
  }

  /** The source when a poll has ended in a state. */
  function Closing(s: Source, state: State): Source {
    if state != Failed then s.(state := state)
    else s.(file := if s.position == None then None else s.file, state := Failed, errors := SaturatingAdd(s.errors, 1))
  }

  lemma LastFile(s: Source, t: Tables, h: seq<Entry>, g: Files, inodes: nat -> Inode, lib: Library, calm: bool)
    requires Told(s, t, h, g, inodes, lib, calm)
    ensures h != [] ==> h[|h| - 1].file < |g|
  {
    hide Rows, Saved, Mine, Follows;
  }

  // ---------------------------------------------------------------- runs

  lemma {:induction false} PlayedFiles(events: seq<Happening>, start: Bytes, inodes: nat -> Inode, lib: Library)
    ensures Played(events, start, inodes, lib).files != []
    ensures events != [] ==>
      Later(Played(events[..|events| - 1], start, inodes, lib).files, Played(events, start, inodes, lib).files)
  {
    hide Step, PollAmong, During;
    if events != [] {
      PlayedFiles(events[..|events| - 1], start, inodes, lib);
      var s, e := Played(events[..|events| - 1], start, inodes, lib), events[|events| - 1];
      if e.Watches? {
        assert During(s.files, e.w, 0) == s.files by {
          NothingYet(s.files, e.w);
        }
        DuringLater(s.files, e.w, 0, 51);
      }
    }
  }

  lemma NothingYet(files: Files, w: Climate)
    ensures During(files, w, 0) == files
  {
  }

  lemma {:induction false} PlayedTold(events: seq<Happening>, start: Bytes, inodes: nat -> Inode, lib: Library, calm: bool)
    returns (h: seq<Entry>)
    requires LibraryOk(lib) && Apart(inodes) && Fits([], Played(events, start, inodes, lib).files)
    requires calm ==> Calm(events, start, inodes, lib)
    ensures var s := Played(events, start, inodes, lib); Told(s.system.source, s.system.tables, h, s.files, inodes, lib, calm) && Grows([], h)
  {
    hide LibraryOk, Told, Apart, Fits, PollAmong, During, CalmPoll, Submitted, Later, Settled;
    if events == [] {
      h := [];
      BornTold([start], inodes, lib, calm);
    } else {
      var init, e := events[..|events| - 1], events[|events| - 1];
      PlayedFiles(init, start, inodes, lib);
      PlayedFiles(events, start, inodes, lib);
      var s, s' := Played(init, start, inodes, lib), Played(events, start, inodes, lib);
      BoundedBefore([], s.files, s'.files);
      h := PlayedTold(init, start, inodes, lib, calm);
      FitsOn([], h, s'.files);
      h := ThenTold(s, h, e, inodes, lib, calm);
    }
  }

  lemma ThenTold(s: Scene, h: seq<Entry>, e: Happening, inodes: nat -> Inode, lib: Library, calm: bool) returns (h': seq<Entry>)
    requires LibraryOk(lib) && Apart(inodes) && s.files != [] && Fits(h, Then(s, e, inodes, lib).files)
    requires Told(s.system.source, s.system.tables, h, s.files, inodes, lib, calm)
    requires calm ==> (e.Writes? && Later(s.files, e.files) ==> Settled(s.files, e.files)) && (e.Watches? ==> CalmPoll(s.files, e.w))
    ensures var s' := Then(s, e, inodes, lib); Told(s'.system.source, s'.system.tables, h', s'.files, inodes, lib, calm) && Grows(h, h')
  {
    hide LibraryOk, Told, Apart, Fits, PollAmong, During, CalmPoll, Submitted, Later, Settled;
    h' := h;
    var source, t := s.system.source, s.system.tables;
    match e
    case Writes(files) =>
      if Later(s.files, files) {
        ToldGrows(source, t, h, s.files, files, inodes, lib, calm, calm);
      }
    case Watches(w) => h' := PollTold(s.system, h, s.files, w, inodes, lib, calm);
    case Stops => ToldShut(source, NewSource().(attempts := source.attempts), t, h, s.files, inodes, lib, calm);
    case Asks(bytes, refuse) =>
      if !(lib.decode(bytes).Some? && Reserved(lib.decode(bytes).value.producer)) {
        ClientsCannotSpeak(bytes, lib);
        OthersTold(source, t, bytes, None, refuse, h, s.files, inodes, lib, calm);
      }
    case Neighbours(name, bytes, cp, refuse) =>
      if Another(lib, name, bytes, cp) {
        OthersTold(source, t, bytes, cp, refuse, h, s.files, inodes, lib, calm);
      }
  }

  lemma BornTold(files: Files, inodes: nat -> Inode, lib: Library, calm: bool)
    ensures Told(NewSource(), Tables([], map[]), [], files, inodes, lib, calm)
  {
  }

  lemma OthersTold(
    s: Source, t: Tables, bytes: Bytes, cp: Option<Checkpoint>, refuse: bool, h: seq<Entry>, files: Files, inodes: nat -> Inode,
    lib: Library, calm: bool)
    requires Told(s, t, h, files, inodes, lib, calm)
    requires lib.decode(bytes).Some? ==> lib.decode(bytes).value.producer != lib.name
    requires cp.Some? ==> cp.value.source != lib.name
    ensures Told(s, Submitted(t, lib.decode, bytes, cp, refuse).0, h, files, inodes, lib, calm)
  {
    hide History, Rows, SavedLast, Mine, Submitted, Saved;
    OthersElsewhere(t, bytes, cp, refuse, lib);
  }

  /** Somebody else's submission touches neither the source's rows nor its checkpoint. */
  lemma OthersElsewhere(t: Tables, bytes: Bytes, cp: Option<Checkpoint>, refuse: bool, lib: Library)
    requires lib.decode(bytes).Some? ==> lib.decode(bytes).value.producer != lib.name
    requires cp.Some? ==> cp.value.source != lib.name
    ensures var t' := Submitted(t, lib.decode, bytes, cp, refuse).0;
      && Mine(t'.rows, lib) == Mine(t.rows, lib) && Saved(t', lib) == Saved(t, lib)
      && (lib.name in t'.checkpoints <==> lib.name in t.checkpoints)
  {
    var t' := Submitted(t, lib.decode, bytes, cp, refuse).0;
    if t'.rows != t.rows {
      hide Mine, Find;
      MineSnoc(t.rows, t'.rows[|t.rows|], lib);
    }
  }

  // ---------------------------------------------------------------- the theorems

  /**
  Under every schedule of writes, rotations, polls, short reads, errors, refusals and crashes the source's rows tell one
  history: consecutive cuts of the files in the order they came, each file begun once and at its start, nothing cut
  twice, the saved position where the last record ends; and where writers are calm, nothing left behind in a file the
  source has moved on from.
  */
  lemma OneHistory(events: seq<Happening>, start: Bytes, inodes: nat -> Inode, lib: Library)
    requires LibraryOk(lib) && Apart(inodes) && Fits([], Played(events, start, inodes, lib).files)
    ensures var s := Played(events, start, inodes, lib);
      exists h :: Base(h) == 0 && Told(s.system.source, s.system.tables, h, s.files, inodes, lib, Calm(events, start, inodes, lib))
  {
    var h := PlayedTold(events, start, inodes, lib, Calm(events, start, inodes, lib));
  }

  /** A line of at most 32768 bytes, its newline included, that starts where the source came in or behind a newline. */
  predicate ShortLine(content: Bytes, origin: nat, a: nat, b: nat) {
    && origin <= a < b <= |content| && b - a <= MAX_LINE && content[b - 1] == NEWLINE && NEWLINE !in content[a..b - 1]
    && (a == origin || content[a - 1] == NEWLINE)
  }

  /** Too short a read of a line has no newline. */
  lemma ShortReadOpen(x: Taken, content: Bytes, origin: nat, a: nat, b: nat)
    requires ShortLine(content, origin, a, b) && InContent(content, x) && x.start == a
    ensures |x.bytes| < b - a ==> LineEnd(x.bytes) == None
  {
    hide LineEnd;
    if |x.bytes| < b - a {
      assert x.bytes == content[a..b - 1][..|x.bytes|];
      NoNewline(x.bytes);
    }
  }

  /** A cut at the start of a short line takes exactly that line. */
  lemma CutTakesLine(x: Taken, content: Bytes, origin: nat, a: nat, b: nat)
    requires ShortLine(content, origin, a, b) && InContent(content, x) && x.start == a && Cuts(x.bytes, x.rotated)
    requires x.rotated ==> x.bytes == Window(content, a)
    ensures LineEnd(x.bytes) == Some(b - a) && x.bytes[..b - a - 1] == content[a..b - 1]
  {
    hide LineEnd;
    ShortReadOpen(x, content, origin, a, b);
    var line, bytes := content[a..b - 1], x.bytes;
    assert bytes[b - a - 1] == content[b - 1];
    assert bytes[..b - a - 1] == line;
    assert bytes == line + [NEWLINE] + bytes[b - a..];
    FirstNewline(line, bytes[b - a..]);
  }

  /** A cut before it ends at it or before it, and at it only with the line ended. */
  lemma CutStopsAtLine(x: Taken, content: Bytes, a: nat)
    requires InContent(content, x) && x.start < a <= |content| && content[a - 1] == NEWLINE
    ensures x.start + Consumes(x.bytes) <= a && (x.start + Consumes(x.bytes) == a ==> LineEnd(x.bytes).Some?)
  {
    hide LineEnd;
    if x.start + |x.bytes| >= a {
      assert x.bytes[a - 1 - x.start] == content[a - 1];
      NewlineBounds(x.bytes, a - 1 - x.start);
    }
  }

  /** A record of the file made of exactly this line. */
  ghost predicate LineAt(e: Entry, files: Files, lib: Library, file: nat, a: nat, b: nat) {
    && file < |files| && a < b <= |files[file]|
    && e.file == file && e.how.Took? && e.how.cut.start == a && e.end == b && DataFor(e, lib) == ReadLine(files[file][a..b - 1], lib)
  }

  /** The last file has been read as far as it goes: to its end, or to a line still unfinished. */
  ghost predicate Idle(h: seq<Entry>, files: Files) {
    && h != [] && h[|h| - 1].file + 1 == |files| && h[|h| - 1].end <= |files[|files| - 1]|
    && !Cuts(Window(files[|files| - 1], h[|h| - 1].end), false)
  }

  /** The records of a file end before k because the source moved on, or because it is idle there. */
  ghost predicate Finished(h: seq<Entry>, files: Files, k: nat) {
    0 < k <= |h| && if k < |h| then h[k].how == Moved else Idle(h, files)
  }

  /** What an idle source has left is no line. */
  lemma IdleHasNoLine(content: Bytes, offset: nat, b: nat)
    requires offset < b <= |content| && content[b - 1] == NEWLINE
    ensures Cuts(Window(content, offset), false)
  {
    var window := Window(content, offset);
    if |window| <= MAX_FRAME {
      assert window[b - 1 - offset] == NEWLINE;
      NewlineBounds(window, b - 1 - offset);
    }
  }

  lemma {:induction false} LineTaken(h: seq<Entry>, files: Files, lib: Library, origin: nat, i: nat, k: nat, a: nat, b: nat)
    requires History(h, files, lib, true) && i < k && Finished(h, files, k) && h[i].file == h[k - 1].file
    requires h[i].file < |files| && ShortLine(files[h[i].file], origin, a, b)
    requires origin <= h[i].end <= a && (h[i].end == a ==> !h[i].skipping)
    ensures exists n :: i < n < k && LineAt(h[n], files, lib, h[i].file, a, b)
    decreases k - i
  {
    hide LineEnd, Window, ReadLine, Cuts, Consumes, Marks, History;
    var file := h[i].file;
    var content := files[file];
    NextCut(h, files, lib, i, k, b);
    var x := h[i + 1].how.cut;
    if h[i].end == a {
      CutTakesLine(x, content, origin, a, b);
      TakenLine(x, content, a, b, lib);
      assert LineAt(h[i + 1], files, lib, file, a, b);
    } else {
      CutStopsAtLine(x, content, a);
      EndMarks(x, a);
      LineTaken(h, files, lib, origin, i + 1, k, a, b);
    }
  }

  lemma EndMarks(x: Taken, a: nat)
    ensures LineEnd(x.bytes).Some? ==> !Marks(x.bytes, x.rotated)
  {
  }

  lemma TakenLine(x: Taken, content: Bytes, a: nat, b: nat, lib: Library)
    requires a < b <= |content| && LineEnd(x.bytes) == Some(b - a) && x.bytes[..b - a - 1] == content[a..b - 1]
    requires b - a <= MAX_LINE && !x.skipping
    ensures Consumes(x.bytes) == b - a && DataOf(x, lib) == ReadLine(content[a..b - 1], lib)
  {
    hide LineEnd, ReadLine;
  }

  /** Before the source moves on, and with something of the file left, the next record is a cut of the same file. */
  lemma NextCut(h: seq<Entry>, files: Files, lib: Library, i: nat, k: nat, b: nat)
    requires History(h, files, lib, true) && i < k && Finished(h, files, k) && h[i].file == h[k - 1].file
    requires h[i].file < |files| && h[i].end < b <= |files[h[i].file]| && files[h[i].file][b - 1] == NEWLINE
    ensures i + 1 < k && h[i + 1].how.Took? && h[i + 1].file == h[i].file
    ensures var x := h[i + 1].how.cut;
      && InContent(files[h[i].file], x) && x.start == h[i].end && x.skipping == h[i].skipping && Cuts(x.bytes, x.rotated)
      && h[i + 1].end == x.start + Consumes(x.bytes) && h[i + 1].skipping == Marks(x.bytes, x.rotated)
      && (x.rotated ==> x.bytes == Window(files[h[i].file], x.start))
  {
    hide LineEnd, Window, Cuts, Consumes, Marks;
    if k < |h| {
      assert Follows(h[k - 1], h[k], files, true);
    } else if i + 1 == k {
      IdleHasNoLine(files[h[i].file], h[i].end, b);
    }
    assert i + 1 < k;
    HistoryAhead(h, files, lib, true, i + 1, k - 1);
    assert Follows(h[i], h[i + 1], files, true);
  }

  /**
  Rotation loses no line when writers are calm: once the source has moved on from a file to the one that took its place,
  or is idle in the last, every short whole line of it from where the source came in is in the store, a record of its own.
  */
  lemma LinesSurvive(
    events: seq<Happening>, start: Bytes, inodes: nat -> Inode, lib: Library, h: seq<Entry>, i: nat, k: nat, a: nat, b: nat)
    requires LibraryOk(lib) && Apart(inodes) && Calm(events, start, inodes, lib)
    requires var s := Played(events, start, inodes, lib);
      && Fits(h, s.files) && Told(s.system.source, s.system.tables, h, s.files, inodes, lib, true)
      && i < k && Finished(h, s.files, k) && h[i].file == h[k - 1].file && !h[i].how.Took?
      && h[i].file < |s.files| && ShortLine(s.files[h[i].file], h[i].end, a, b)
    ensures var s := Played(events, start, inodes, lib);
      var mine, line := Mine(s.system.tables.rows, lib), s.files[h[i].file][a..b - 1];
      LineStored(mine, Base(h) + i, Base(h) + k, Identity(lib.name, Generation(PlaceOf(h[i], inodes)), b + 1), line, lib)
  {
    hide Told, Says, Played;
    var s := Played(events, start, inodes, lib);
    LinesTold(s.system.source, s.system.tables, h, s.files, inodes, lib, i, k, a, b);
    LineSays(s.files[h[i].file][a..b - 1], lib);
  }

  /** The same of any state that tells a history. */
  lemma LinesTold(
    s: Source, t: Tables, h: seq<Entry>, files: Files, inodes: nat -> Inode, lib: Library, i: nat, k: nat, a: nat, b: nat)
    requires Fits(h, files) && Told(s, t, h, files, inodes, lib, true)
    requires i < k && Finished(h, files, k) && h[i].file == h[k - 1].file && !h[i].how.Took?
    requires h[i].file < |files| && ShortLine(files[h[i].file], h[i].end, a, b)
    ensures Among(Mine(t.rows, lib), Base(h) + i, Base(h) + k, Identity(lib.name, Generation(PlaceOf(h[i], inodes)), b + 1),
                  ReadLine(files[h[i].file][a..b - 1], lib), lib)
  {
    hide Mine, Generation, ReadLine, Saved, LineEnd, Window, Cuts, Consumes, Marks, SavedLast, History, Rows, DataFor, Carries,
      IdentityOf, PlaceOf, Base;
    var mine, file := Mine(t.rows, lib), h[i].file;
    BeginsUnmarked(h, files, lib, i);
    LineTaken(h, files, lib, h[i].end, i, k, a, b);
    var n :| i < n < k && LineAt(h[n], files, lib, file, a, b);
    SameEpoch(h, files, lib, i, n);
    assert |files[file]| < U64_MAX;
    LineIdentity(h[i], h[n], inodes, lib);
    RowCarries(mine, h, n, inodes, lib);
    assert mine[Base(h) + n].identity == Identity(lib.name, Generation(PlaceOf(h[i], inodes)), b + 1);
  }

  /** A row between i and k with this identity and this data. */
  ghost predicate Among(mine: seq<Row>, i: nat, k: nat, identity: Identity, data: Data, lib: Library) {
    exists n :: i < n < k && n < |mine| && mine[n].identity == identity && Carries(mine[n], data, lib)
  }

  /** And what it says is the line. */
  ghost predicate LineStored(mine: seq<Row>, i: nat, k: nat, identity: Identity, line: Bytes, lib: Library) {
    exists data :: Says(line, data, lib) && Among(mine, i, k, identity, data, lib)
  }

  lemma RowCarries(mine: seq<Row>, h: seq<Entry>, n: nat, inodes: nat -> Inode, lib: Library)
    requires Rows(mine, h, inodes, lib) && n < |h|
    ensures var row := Base(h) + n; row < |mine| && mine[row].identity == IdentityOf(PlaceOf(h[n], inodes), lib)
    ensures Carries(mine[Base(h) + n], DataFor(h[n], lib), lib)
  {
    hide IdentityOf, Written;
    assert RowFor(mine[Base(h) + n], h[n], inodes, lib);
  }

  lemma LineIdentity(a: Entry, e: Entry, inodes: nat -> Inode, lib: Library)
    requires a.file == e.file && a.epoch == e.epoch && e.end < U64_MAX
    ensures IdentityOf(PlaceOf(e, inodes), lib) == Identity(lib.name, Generation(PlaceOf(a, inodes)), e.end + 1)
  {
    hide Digits;
  }

  /** What starts a file leaves no mark. */
  lemma BeginsUnmarked(h: seq<Entry>, files: Files, lib: Library, i: nat)
    requires History(h, files, lib, true) && i < |h| && !h[i].how.Took?
    ensures !h[i].skipping
  {
    hide LineEnd, Window, Cuts, Consumes, Marks;
    if i > 0 {
      assert Follows(h[i - 1], h[i], files, true);
    }
  }

  /** Within a file the epoch does not change. */
  lemma {:induction false} SameEpoch(h: seq<Entry>, files: Files, lib: Library, i: nat, n: nat)
    requires History(h, files, lib, true) && i <= n < |h| && h[i].file == h[n].file
    ensures h[i].epoch == h[n].epoch
    decreases n
  {
    hide LineEnd, Window, Cuts, Consumes, Marks;
    if i < n {
      HistoryAhead(h, files, lib, true, i, n - 1);
      assert Follows(h[n - 1], h[n], files, true);
      SameEpoch(h, files, lib, i, n - 1);
    }
  }

  /**
  Whatever the writers do: a log in a history starts where the source came in or behind a newline exactly when the record
  before it was not an unterminated cut taken while the path named another file.
  */
  lemma LogsInHistory(h: seq<Entry>, files: Files, lib: Library, calm: bool, k: nat)
    requires History(h, files, lib, calm) && 0 < k < |h| && h[k].how.Took? && IsLog(DataFor(h[k], lib))
    ensures var x, before := h[k].how.cut, h[k - 1];
      && h[k].file < |files| && x.start <= |files[h[k].file]| && (before.how.Took? ==> x.start > 0)
      && ((before.how.Took? ==> files[h[k].file][x.start - 1] == NEWLINE)
          <==> !(before.how.Took? && LineEnd(before.how.cut.bytes) == None && before.how.cut.rotated))
  {
    hide LineEnd, Window, ReadLine;
    assert Follows(h[k - 1], h[k], files, calm);
    if h[k - 1].how.Took? {
      TookIsCut(h, files, lib, calm, k - 1);
      LastByte(files[h[k].file], h[k - 1].how.cut);
    }
  }

  lemma TookIsCut(h: seq<Entry>, files: Files, lib: Library, calm: bool, k: nat)
    requires History(h, files, lib, calm) && k < |h| && h[k].how.Took?
    ensures h[k].file < |files| && InContent(files[h[k].file], h[k].how.cut)
    ensures var x := h[k].how.cut; h[k].end == x.start + Consumes(x.bytes) && h[k].skipping == Marks(x.bytes, x.rotated)
  {
    hide LineEnd, Window, Cuts, Consumes, Marks;
    assert k > 0;
    assert Follows(h[k - 1], h[k], files, calm);
  }

  // ---------------------------------------------------------------- what moving on leaves behind

  lemma ReadsNothing(content: Bytes, failed: bool, short: nat, offset: nat)
    requires offset <= |content|
    ensures var read := ReadSome(content, failed, short)(offset);
      read.Some? && read.value[..Min(|read.value|, MAX_FRAME + 1)] == [] ==> offset == |content|
  {
    if offset < |content| {
      assert Min(|content|, offset + Max(short, 1)) > offset;
    }
  }

  /** A turn changes files only after a read that found nothing. */
  lemma LeavesAfterNothing(s: Source, t: Tables, look: Look, lib: Library)
    requires s.position.Some? && s.file.Some? && Turned(s, t, look, lib).0.file != s.file
    ensures look.readAt(s.position.value.offset).Some? && ReadOf(look, s.position.value.offset) == []
  {
    hide Submitted, CutData, LineEnd, IdentityOf;
  }

  /**
  The turn that moves on has recorded all of the file as it was when last read; so it leaves nothing behind exactly when
  nobody has written to the file since that read.
  */
  lemma MovingOnLeaves(
    s: Source, t: Tables, h: seq<Entry>, files: Files, w: Climate, inodes: nat -> Inode, lib: Library, i: nat, calm: bool)
    requires Apart(inodes) && files != [] && Told(s, t, h, During(files, w, First(i)), inodes, lib, calm) && s.file.Some? && h != []
    requires Turned(s, t, LookFrom(s, files, w, inodes, lib, i), lib).0.file != s.file
    ensures var e, read, g := h[|h| - 1], During(files, w, First(i) + 2), During(files, w, First(i) + 6);
      && e.file < |read| <= |g| && read[e.file] <= g[e.file] && e.end == |read[e.file]|
      && (e.end == |g[e.file]| <==> g[e.file] == read[e.file])
  {
    hide Turned, During, Told, Apart, First, ReadSome;
    LastEntry(s, t, h, During(files, w, First(i)), inodes, lib, calm);
    var e, look := h[|h| - 1], LookFrom(s, files, w, inodes, lib, i);
    WhichIs(|During(files, w, First(i))|, inodes, e.file);
    LeavesAfterNothing(s, t, look, lib);
    Sees(files, w, First(i), First(i) + 2, First(i) + 6, e.file);
    DuringLater(files, w, First(i) + 2, First(i) + 6);
    ReadsNothing(During(files, w, First(i) + 2)[e.file], w.fail(First(i) + 2), w.short(i), e.end);
  }

  /** And for good: a history never comes back to a file. */
  lemma {:induction false} NeverBack(h: seq<Entry>, files: Files, lib: Library, calm: bool, j: nat, k: nat)
    requires History(h, files, lib, calm) && j < k < |h| && h[j].file < h[j + 1].file
    ensures h[k].file > h[j].file
  {
    hide History;
    HistoryAhead(h, files, lib, calm, j + 1, k);
  }
}
