/**
Whatever the file system and the store answer, across truncation, rotation, refused commits and restarts, every
submission of a file source moves its checkpoint strictly forward and carries a fresh identity.
*/
module TailFresh {
  import opened Common
  import opened Custody
  import opened Tail

  datatype System = System(source: Source, tables: Tables)

  datatype Move =
    | Poll(o: Opening, looks: nat -> Look)
    | Restart
    | Client(bytes: Bytes, refuse: bool)                                          // a request body at the daemon's socket
    | Collector(name: Text, bytes: Bytes, cp: Option<Checkpoint>, refuse: bool)   // another source of the daemon

  /** Names only the daemon's own collectors may use. */
  predicate Reserved(producer: Text) {
    producer == "host" || "file:" <= producer || "journal:" <= producer
  }

  /** What `handle` makes of a submission: a reserved producer is refused, and a client brings no checkpoint. */
  function Handled(t: Tables, decode: Decoder, bytes: Bytes, refuse: bool): Tables {
    if decode(bytes).Some? && Reserved(decode(bytes).value.producer) then t
    else Submitted(t, decode, bytes, None, refuse).0
  }

  /** Whatever a client sends, it adds no row and moves no checkpoint under a name of the daemon's own collectors. */
  lemma ClientsAddNothingReserved(t: Tables, decode: Decoder, bytes: Bytes, refuse: bool)
    ensures var t' := Handled(t, decode, bytes, refuse);
      && t.rows <= t'.rows && t'.checkpoints == t.checkpoints
      && forall k :: |t.rows| <= k < |t'.rows| ==>
           var producer := t'.rows[k].identity.producer;
           producer != "host" && !("file:" <= producer) && !("journal:" <= producer)
  {
    hide Find;
  }

  /** Every collector has a name of its own and files its records and its checkpoint under it. */
  predicate Another(lib: Library, name: Text, bytes: Bytes, cp: Option<Checkpoint>) {
    && name != lib.name
    && (lib.decode(bytes).Some? ==> lib.decode(bytes).value.producer == name)
    && (cp.Some? ==> cp.value.source == name)
  }

  /** Attempts are history and outlive a restart. */
  function Step(s: System, move: Move, lib: Library): System {
    match move
    case Poll(o, looks) =>
      var (source, tables) := Polled(s.source, s.tables, o, looks, lib);
      System(source, tables)
    case Restart => s.(source := NewSource().(attempts := s.source.attempts))
    case Client(bytes, refuse) => s.(tables := Handled(s.tables, lib.decode, bytes, refuse))
    case Collector(name, bytes, cp, refuse) =>
      if !Another(lib, name, bytes, cp) then s else s.(tables := Submitted(s.tables, lib.decode, bytes, cp, refuse).0)
  }

  function Run(moves: seq<Move>, lib: Library): System {
    if moves == [] then System(NewSource(), Tables([], map[]))
    else Step(Run(moves[..|moves| - 1], lib), moves[|moves| - 1], lib)
  }

  /**
  The source is called file: and its id; saving and loading are inverse; an encoded record that decodes carries the
  identity it was given.
  */
  ghost predicate LibraryOk(lib: Library) {
    && "file:" <= lib.name
    && (forall p :: lib.load(lib.save(p)) == Some(p))
    && (forall i, d, now :: lib.decode(lib.encode(i, d, now)).Some? ==> lib.decode(lib.encode(i, d, now)).value == i)
  }

  // ---------------------------------------------------------------- generations tell epochs apart

  lemma {:induction false} DigitsOnly(n: nat)
    ensures ':' !in Digits(n)
  {
    if n >= 10 {
      DigitsOnly(n / 10);
    }
  }

  lemma {:induction false} DigitsInjective(m: nat, n: nat)
    requires Digits(m) == Digits(n)
    ensures m == n
  {
    var a, b := Digits(m), Digits(n);
    if m >= 10 && n >= 10 {
      assert a[..|a| - 1] == Digits(m / 10) && b[..|b| - 1] == Digits(n / 10);
      assert a[|a| - 1] == ('0' as int + m % 10) as char && b[|b| - 1] == ('0' as int + n % 10) as char;
      DigitsInjective(m / 10, n / 10);
    } else if m >= 10 {
      DigitsLonger(m);
    } else if n >= 10 {
      DigitsLonger(n);
    }
  }

  lemma DigitsLonger(n: nat)
    requires n >= 10
    ensures |Digits(n)| >= 2
  {
    assert |Digits(n / 10)| >= 1;
  }

  lemma AfterLastColon(a: Text, b: Text, c: Text, d: Text)
    requires a + ":" + b == c + ":" + d && ':' !in b && ':' !in d
    ensures b == d
  {
    var x, y := a + ":" + b, c + ":" + d;
    assert x[|a|] == ':' && y[|c|] == ':';
    forall i | |a| < i < |x|
      ensures x[i] != ':'
    {
      assert x[i] == b[i - |a| - 1];
    }
    forall i | |c| < i < |y|
      ensures y[i] != ':'
    {
      assert y[i] == d[i - |c| - 1];
    }
    assert x[|a| + 1..] == b && y[|c| + 1..] == d;
  }

  lemma GenerationEpoch(p: Position, q: Position)
    requires Generation(p) == Generation(q)
    ensures p.epoch == q.epoch
  {
    hide Digits;
    DigitsOnly(p.epoch);
    DigitsOnly(q.epoch);
    AfterLastColon(Digits(p.dev) + ":" + Digits(p.ino), Digits(p.epoch), Digits(q.dev) + ":" + Digits(q.ino), Digits(q.epoch));
    DigitsInjective(p.epoch, q.epoch);
  }

  // ---------------------------------------------------------------- the invariant

  predicate Before(p: Position, q: Position) {
    p.epoch < q.epoch || (p.epoch == q.epoch && p.offset < q.offset)
  }

  /** Neither counter of the attempt had reached the end of its range. */
  predicate Below(a: Attempt, lib: Library) {
    && a.next.offset < U64_MAX
    && (a.before.Some? ==> lib.load(a.before.value).Some? && lib.load(a.before.value).value.epoch < U64_MAX)
  }

  /** It moved strictly forward, and the store did not know its identity. */
  predicate Fresh(a: Attempt, lib: Library) {
    && (a.before.Some? ==> lib.load(a.before.value).Some? && Before(lib.load(a.before.value).value, a.next))
    && a.reply != Err(Conflict)
    && (a.reply.Ok? ==> !a.reply.value.duplicate)
  }

  ghost predicate AllBelow(attempts: seq<Attempt>, n: nat, lib: Library) {
    forall j :: 0 <= j < n && j < |attempts| ==> Below(attempts[j], lib)
  }

  function Saved(t: Tables, lib: Library): Option<Position> {
    if lib.name in t.checkpoints then lib.load(t.checkpoints[lib.name]) else None
  }

  ghost predicate Stored(row: Row, attempts: seq<Attempt>, lib: Library) {
    exists k :: 0 <= k < |attempts| && attempts[k].reply.Ok? && row.identity == IdentityOf(attempts[k].next, lib)
  }

  ghost predicate Strong(s: Source, t: Tables, lib: Library) {
    && (lib.name in t.checkpoints <==> Saved(t, lib).Some?)
    && (s.position.Some? ==> Saved(t, lib) == s.position)
    && (forall k :: 0 <= k < |t.rows| && t.rows[k].identity.producer == lib.name ==> Stored(t.rows[k], s.attempts, lib))
    && (forall k :: 0 <= k < |s.attempts| && s.attempts[k].reply.Ok? ==>
          Saved(t, lib).Some? && !Before(Saved(t, lib).value, s.attempts[k].next))
  }

  ghost predicate FreshSoFar(attempts: seq<Attempt>, lib: Library) {
    forall k :: 0 <= k < |attempts| && AllBelow(attempts, k + 1, lib) ==> Fresh(attempts[k], lib)
  }

  ghost predicate Inv(s: Source, t: Tables, lib: Library) {
    && FreshSoFar(s.attempts, lib)
    && (AllBelow(s.attempts, |s.attempts|, lib) ==> Strong(s, t, lib))
  }

  // ---------------------------------------------------------------- one commit

  /** A position ahead of everything stored has an identity nobody used. */
  lemma Unused(s: Source, t: Tables, p: Position, lib: Library)
    requires Strong(s, t, lib) && AllBelow(s.attempts, |s.attempts|, lib) && p.offset < U64_MAX
    requires Saved(t, lib).Some? ==> Before(Saved(t, lib).value, p)
    ensures Find(t.rows, IdentityOf(p, lib)) == None
  {
    hide Find, Digits, Generation;
    forall k | 0 <= k < |t.rows|
      ensures t.rows[k].identity != IdentityOf(p, lib)
    {
      if t.rows[k].identity.producer == lib.name {
        assert Stored(t.rows[k], s.attempts, lib);
        var j :| 0 <= j < |s.attempts| && s.attempts[j].reply.Ok? && t.rows[k].identity == IdentityOf(s.attempts[j].next, lib);
        var q := s.attempts[j].next;
        assert Below(s.attempts[j], lib);
        if Generation(p) == Generation(q) {
          GenerationEpoch(p, q);
        }
      }
    }
  }

  lemma CommitKeeps(s: Source, t: Tables, p: Position, data: Data, sealAt: nat -> Option<Text>, now: nat, refuse: bool, lib: Library)
    requires LibraryOk(lib) && Inv(s, t, lib)
    requires AllBelow(s.attempts, |s.attempts|, lib) && Saved(t, lib).Some? && Saved(t, lib).value.epoch < U64_MAX
         ==> Before(Saved(t, lib).value, p)
    ensures var r := Committed(s, t, p, data, sealAt, now, refuse, lib); Inv(r.0, r.1, lib)
  {
    var (s', t', ok) := Committed(s, t, p, data, sealAt, now, refuse, lib);
    if s' != s {
      hide Find, IdentityOf, Strong, Inv;
      var a := s'.attempts[|s.attempts|];
      assert s'.attempts == s.attempts + [a];
      if AllBelow(s.attempts, |s.attempts|, lib) && Below(a, lib) {
        assert Strong(s, t, lib) by {
          UseInv(s, t, lib);
        }
        SavedBefore(s, t, lib);
        Unused(s, t, a.next, lib);
        assert Fresh(a, lib);
        StrongCommit(s, t, s', t', a, lib);
      }
      InvExtend(s, t, s', t', a, lib);
    }
  }

  lemma UseInv(s: Source, t: Tables, lib: Library)
    requires Inv(s, t, lib) && AllBelow(s.attempts, |s.attempts|, lib)
    ensures Strong(s, t, lib)
  {
  }

  lemma SavedBefore(s: Source, t: Tables, lib: Library)
    requires Strong(s, t, lib)
    ensures lib.name in t.checkpoints ==> Saved(t, lib) == lib.load(t.checkpoints[lib.name]) && Saved(t, lib).Some?
    ensures lib.name !in t.checkpoints ==> Saved(t, lib) == None
  {
  }

  /** Strong after a fresh attempt: refused and nothing moved, or stored with its checkpoint. */
  lemma StrongCommit(s: Source, t: Tables, s': Source, t': Tables, a: Attempt, lib: Library)
    requires Strong(s, t, lib) && LibraryOk(lib) && s'.attempts == s.attempts + [a]
    requires Saved(t, lib).Some? ==> Before(Saved(t, lib).value, a.next)
    requires a.reply.Err? ==> t' == t && s'.position == s.position
    requires a.reply.Ok? ==> exists bytes :: t'.rows == t.rows + [Row(IdentityOf(a.next, lib), bytes)]
    requires a.reply.Ok? ==> t'.checkpoints == t.checkpoints[lib.name := lib.save(a.next)] && s'.position == Some(a.next)
    ensures Strong(s', t', lib)
  {
    hide IdentityOf;
    forall k | 0 <= k < |t'.rows| && t'.rows[k].identity.producer == lib.name
      ensures Stored(t'.rows[k], s'.attempts, lib)
    {
      if k < |t.rows| {
        assert t'.rows[k] == t.rows[k] && Stored(t.rows[k], s.attempts, lib);
        var j :| 0 <= j < |s.attempts| && s.attempts[j].reply.Ok? && t.rows[k].identity == IdentityOf(s.attempts[j].next, lib);
        assert s'.attempts[j] == s.attempts[j];
      } else {
        assert s'.attempts[|s.attempts|] == a;
      }
    }
  }

  lemma InvExtend(s: Source, t: Tables, s': Source, t': Tables, a: Attempt, lib: Library)
    requires Inv(s, t, lib) && s'.attempts == s.attempts + [a]
    requires AllBelow(s.attempts, |s.attempts|, lib) && Below(a, lib) ==> Fresh(a, lib) && Strong(s', t', lib)
    ensures Inv(s', t', lib)
  {
    hide Strong, Below, Fresh;
    var n := |s.attempts|;
    if AllBelow(s'.attempts, n + 1, lib) {
      assert Below(s'.attempts[n], lib);
      forall j | 0 <= j < n
        ensures Below(s.attempts[j], lib)
      {
        assert s'.attempts[j] == s.attempts[j];
      }
    }
    forall k | 0 <= k < |s'.attempts| && AllBelow(s'.attempts, k + 1, lib)
      ensures Fresh(s'.attempts[k], lib)
    {
      if k < n {
        assert s'.attempts[k] == s.attempts[k];
        forall j | 0 <= j < k + 1
          ensures Below(s.attempts[j], lib)
        {
          assert s'.attempts[j] == s.attempts[j];
        }
      }
    }
  }

  // ---------------------------------------------------------------- polls and runs

  /** Fields the invariant does not read. */
  lemma Elsewhere(s: Source, s': Source, t: Tables, lib: Library)
    requires Inv(s, t, lib) && s'.attempts == s.attempts && (s'.position == s.position || s'.position == None)
    ensures Inv(s', t, lib)
  {
  }

  lemma OpenKeeps(s: Source, t: Tables, o: Opening, lib: Library)
    requires LibraryOk(lib) && Inv(s, t, lib) && s.position == None
    ensures var r := Opened(s, t, o, lib); Inv(r.0, r.1, lib)
  {
    hide Committed, LibraryOk;
    if o.found.Some? && o.regular && o.loadable {
      var inode := o.found.value;
      var s' := s.(file := Some(inode));
      assert Inv(s', t, lib);
      var saved := if lib.name in t.checkpoints then Some(t.checkpoints[lib.name]) else None;
      if saved == None {
        CommitKeeps(s', t, Position(inode.dev, inode.ino, if lib.replay then 0 else o.len, 0, "", false),
                    Gap(if lib.replay then Replay else Attached), o.sealAt, o.now, o.refuse, lib);
      } else if lib.load(saved.value).Some? {
        var p := lib.load(saved.value).value;
        CommitKeeps(s', t, Position(inode.dev, inode.ino, 0, SaturatingAdd(p.epoch, 1), "", false), Gap(Replaced),
                    o.sealAt, o.now, o.refuse, lib);
      }
    }
  }

  lemma TurnKeeps(s: Source, t: Tables, look: Look, lib: Library)
    requires LibraryOk(lib) && Inv(s, t, lib)
    ensures var r := Turned(s, t, look, lib); Inv(r.0, r.1, lib)
  {
    hide Committed, Consumed, LibraryOk;
    if s.position.Some? && s.file.Some? && look.len.Some? {
      var p := s.position.value;
      var s1 := s.(lag := if look.len.value >= p.offset then look.len.value - p.offset else 0);
      Elsewhere(s, s1, t, lib);
      CommitKeeps(s1, t, Position(p.dev, p.ino, 0, SaturatingAdd(p.epoch, 1), "", false), Gap(Truncated),
                  look.sealAt, look.now, look.refuse, lib);
      hide Inv;
      if look.readAt(p.offset).Some? {
        var available := look.readAt(p.offset).value;
        ConsumeKeeps(s1, t, p, available[..Min(|available|, MAX_FRAME + 1)], look, lib);
      }
    }
  }

  lemma ConsumeKeeps(s: Source, t: Tables, p: Position, bytes: Bytes, look: Look, lib: Library)
    requires LibraryOk(lib) && Inv(s, t, lib) && s.file.Some? && s.position == Some(p)
    ensures var r := Consumed(s, t, p, bytes, look, lib); Inv(r.0, r.1, lib)
  {
    hide Committed, LibraryOk, CutData;
    if bytes == [] {
      if look.reopened.Some? {
        var inode := look.reopened.value;
        var s1 := s.(file := Some(inode));
        var next := Position(inode.dev, inode.ino, 0, SaturatingAdd(p.epoch, 1), "", false);
        Elsewhere(s, s1, t, lib);
        CommitKeeps(s1, t, next, Gap(Rotated), look.sealAt, look.now, look.refuse, lib);
        var r := Committed(s1, t, next, Gap(Rotated), look.sealAt, look.now, look.refuse, lib);
        Elsewhere(r.0, r.0.(file := s.file), r.1, lib);
        hide Inv;
      }
    } else {
      var rotated := look.path.Some? && look.path.value != Inode(p.dev, p.ino);
      var end := LineEnd(bytes);
      var consume := if end.Some? then end.value else |bytes|;
      var next := p.(offset := p.offset + consume, skipping := end == None && !rotated);
      CommitKeeps(s, t, next, CutData(bytes, end, p.skipping, rotated, lib), look.sealAt, look.now, look.refuse, lib);
      hide Inv;
    }
  }

  lemma {:induction false} TurnsKeep(s: Source, t: Tables, looks: nat -> Look, i: nat, n: nat, lib: Library)
    requires LibraryOk(lib) && Inv(s, t, lib)
    ensures var r := Turns(s, t, looks, i, n, lib); Inv(r.0, r.1, lib)
    decreases n
  {
    hide Turned, LibraryOk, Inv;
    if n > 0 {
      TurnKeeps(s, t, looks(i), lib);
      var r := Turned(s, t, looks(i), lib);
      if r.2 == Again {
        TurnsKeep(r.0, r.1, looks, i + 1, n - 1, lib);
      }
    }
  }

  lemma PollKeeps(s: Source, t: Tables, o: Opening, looks: nat -> Look, lib: Library)
    requires LibraryOk(lib) && Inv(s, t, lib) && (s.file == None ==> s.position == None)
    ensures var r := Polled(s, t, o, looks, lib); Inv(r.0, r.1, lib) && (r.0.file == None ==> r.0.position == None)
  {
    hide Opened, Turns, LibraryOk;
    var (s1, t1, open) := if s.file == None then Opened(s, t, o, lib) else (s, t, true);
    if s.file == None {
      OpenKeeps(s, t, o, lib);
      OpenFile(s, t, o, lib);
    }
    if open {
      TurnsKeep(s1, t1, looks, 0, 8, lib);
      TurnsFile(s1, t1, looks, 0, 8, lib);
    }
    var (s2, t2, state) := if open then Turns(s1, t1, looks, 0, 8, lib) else (s1, t1, Failed);
    var r := Polled(s, t, o, looks, lib);
    Elsewhere(s2, r.0, t2, lib);
  }

  /** A source without a file has no position either. */
  lemma OpenFile(s: Source, t: Tables, o: Opening, lib: Library)
    requires s.file == None && s.position == None
    ensures var r := Opened(s, t, o, lib); r.0.file == None ==> r.0.position == None && !r.2
  {
    hide Submitted;
  }

  lemma TurnFile(s: Source, t: Tables, look: Look, lib: Library)
    requires s.file.Some?
    ensures Turned(s, t, look, lib).0.file.Some?
  {
    hide Committed, CutData, LineEnd;
    assert forall s, t, p, data, sealAt, now, refuse ::
      Committed(s, t, p, data, sealAt, now, refuse, lib).0.file == s.file by {
      forall s, t, p, data, sealAt, now, refuse
        ensures Committed(s, t, p, data, sealAt, now, refuse, lib).0.file == s.file
      {
        CommitFile(s, t, p, data, sealAt, now, refuse, lib);
      }
    }
  }

  lemma CommitFile(s: Source, t: Tables, p: Position, data: Data, sealAt: nat -> Option<Text>, now: nat, refuse: bool, lib: Library)
    ensures Committed(s, t, p, data, sealAt, now, refuse, lib).0.file == s.file
  {
    hide Submitted;
  }

  lemma {:induction false} TurnsFile(s: Source, t: Tables, looks: nat -> Look, i: nat, n: nat, lib: Library)
    requires s.file.Some?
    ensures Turns(s, t, looks, i, n, lib).0.file.Some?
    decreases n
  {
    hide Turned;
    if n > 0 {
      var r := Turned(s, t, looks(i), lib);
      TurnFile(s, t, looks(i), lib);
      if r.2 == Again {
        TurnsFile(r.0, r.1, looks, i + 1, n - 1, lib);
      }
    }
  }

  lemma ForeignKeeps(s: Source, t: Tables, bytes: Bytes, cp: Option<Checkpoint>, refuse: bool, lib: Library)
    requires Inv(s, t, lib)
    requires lib.decode(bytes).Some? ==> lib.decode(bytes).value.producer != lib.name
    requires cp.Some? ==> cp.value.source != lib.name
    ensures Inv(s, Submitted(t, lib.decode, bytes, cp, refuse).0, lib)
  {
    hide Find, IdentityOf, FreshSoFar;
    var t' := Submitted(t, lib.decode, bytes, cp, refuse).0;
    assert Saved(t', lib) == Saved(t, lib);
  }

  /** What passes the refusal is filed under somebody else's name. */
  lemma ClientsCannotSpeak(bytes: Bytes, lib: Library)
    requires LibraryOk(lib) && !(lib.decode(bytes).Some? && Reserved(lib.decode(bytes).value.producer))
    ensures lib.decode(bytes).Some? ==> lib.decode(bytes).value.producer != lib.name
  {
  }

  lemma {:induction false} RunInv(moves: seq<Move>, lib: Library)
    requires LibraryOk(lib)
    ensures var s := Run(moves, lib); Inv(s.source, s.tables, lib) && (s.source.file == None ==> s.source.position == None)
  {
    hide LibraryOk, Inv;
    if moves == [] {
      InitInv(lib);
    } else {
      var s, move := Run(moves[..|moves| - 1], lib), moves[|moves| - 1];
      RunInv(moves[..|moves| - 1], lib);
      match move
      case Poll(o, looks) => PollKeeps(s.source, s.tables, o, looks, lib);
      case Restart => Elsewhere(s.source, NewSource().(attempts := s.source.attempts), s.tables, lib);
      case Client(bytes, refuse) =>
        if !(lib.decode(bytes).Some? && Reserved(lib.decode(bytes).value.producer)) {
          ClientsCannotSpeak(bytes, lib);
          ForeignKeeps(s.source, s.tables, bytes, None, refuse, lib);
        }
      case Collector(name, bytes, cp, refuse) =>
        if Another(lib, name, bytes, cp) {
          ForeignKeeps(s.source, s.tables, bytes, cp, refuse, lib);
        }
    }
  }

  lemma InitInv(lib: Library)
    ensures Inv(NewSource(), Tables([], map[]), lib)
  {
  }

  /**
  In every run, as long as no counter has saturated, each submission of the source is strictly ahead of the saved
  checkpoint, and the store never answers it with a conflict or a duplicate.
  */
  lemma SubmissionsAreFresh(moves: seq<Move>, lib: Library, k: nat)
    requires LibraryOk(lib) && k < |Run(moves, lib).source.attempts|
    requires forall j :: 0 <= j <= k ==> Below(Run(moves, lib).source.attempts[j], lib)
    ensures Fresh(Run(moves, lib).source.attempts[k], lib)
  {
    hide Run, Below, Fresh, LibraryOk;
    RunInv(moves, lib);
    assert AllBelow(Run(moves, lib).source.attempts, k + 1, lib);
  }

  /** And what the source remembers is what the store has saved, so a crash costs it nothing. */
  lemma MemoryIsSaved(moves: seq<Move>, lib: Library)
    requires LibraryOk(lib) && Run(moves, lib).source.position.Some?
    requires forall j :: 0 <= j < |Run(moves, lib).source.attempts| ==> Below(Run(moves, lib).source.attempts[j], lib)
    ensures Saved(Run(moves, lib).tables, lib) == Run(moves, lib).source.position
  {
    hide Run, Below, LibraryOk;
    RunInv(moves, lib);
  }

  /** No client and no other collector can put a record under the source's name: every one there is an attempt of its own. */
  lemma RowsAreOwn(moves: seq<Move>, lib: Library, k: nat)
    requires LibraryOk(lib) && k < |Run(moves, lib).tables.rows|
    requires forall j :: 0 <= j < |Run(moves, lib).source.attempts| ==> Below(Run(moves, lib).source.attempts[j], lib)
    ensures var s := Run(moves, lib);
      s.tables.rows[k].identity.producer == lib.name ==> Stored(s.tables.rows[k], s.source.attempts, lib)
  {
    hide Run, Below, LibraryOk, Stored;
    RunInv(moves, lib);
  }

  // ---------------------------------------------------------------- at the end of the range

  /** A position at the last offset has the identity of the one before it. */
  lemma LastOffsetRepeats(p: Position, lib: Library)
    ensures IdentityOf(p.(offset := U64_MAX), lib) == IdentityOf(p.(offset := U64_MAX - 1), lib)
  {
    hide Digits;
  }

  /**
  In the last epoch a truncation cannot move the epoch on: its record has the identity of the epoch's first record, and
  once that is stored the store answers with a conflict or a duplicate, and the attempt is not fresh.
  */
  lemma LastEpochRepeats(
    s: Source, t: Tables, p: Position, sealAt: nat -> Option<Text>, now: nat, refuse: bool, lib: Library, k: nat)
    requires LibraryOk(lib) && s.file.Some? && sealAt(0).Some? && p.epoch == U64_MAX
    requires k < |t.rows| && t.rows[k].identity == IdentityOf(p.(offset := 0), lib)
    requires var next := Position(p.dev, p.ino, 0, SaturatingAdd(p.epoch, 1), sealAt(0).value, false);
      var i := IdentityOf(next, lib);
      && !BadPosition(Some(Checkpoint(lib.name, lib.save(next))))
      && lib.decode(lib.encode(i, if lib.fits(i, Gap(Truncated), now) then Gap(Truncated) else Gap(WireLimit), now)).Some?
    ensures var next := Position(p.dev, p.ino, 0, SaturatingAdd(p.epoch, 1), "", false);
      var r := Committed(s, t, next, Gap(Truncated), sealAt, now, refuse, lib);
      && |r.0.attempts| == |s.attempts| + 1 && r.1 == t
      && (var reply := r.0.attempts[|s.attempts|].reply; reply == Err(Conflict) || (reply.Ok? && reply.value.duplicate))
      && !Fresh(r.0.attempts[|s.attempts|], lib)
  {
    hide Digits;
    var next := Position(p.dev, p.ino, 0, SaturatingAdd(p.epoch, 1), sealAt(0).value, false);
    assert IdentityOf(next, lib) == t.rows[k].identity;
    assert Find(t.rows, IdentityOf(next, lib)).Some?;
    hide Find, IdentityOf;
  }
}
