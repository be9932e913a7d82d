/** The file source: tailing with a checkpoint moved in the custody transaction, fabric/src/spindle/sources.rs. */
module Tail {
  import opened Common
  import Json
  import Observations
  import opened Custody

  type Bytes = seq<byte>

  const MAX_LINE := 32768
  const NEWLINE: byte := 0x0A

  datatype Inode = Inode(dev: nat, ino: nat)

  datatype Position = Position(dev: nat, ino: nat, offset: nat, epoch: nat, tail: Text, skipping: bool)

  datatype Reason = Replaced | Replay | Attached | Truncated | Rotated | RotatedLine | Oversized | BadLine | BadFields | BadJson | WireLimit

  datatype Data = Log(message: Bytes) | JsonLog(fields: seq<Json.Field>) | Gap(reason: Reason)

  datatype Format = PlainText | Jsonl

  /** The source's configuration, and the parts of the standard libraries and of serde it leans on. */
  datatype Library = Library(
    name: Text,
    replay: bool,
    format: Format,
    digest: Bytes -> Text,
    parse: Bytes -> Option<seq<Json.Field>>,
    probe: seq<Json.Field> -> bool,
    fits: (Identity, Data, nat) -> bool,
    encode: (Identity, Data, nat) -> Bytes,
    decode: Decoder,
    save: Position -> Text,
    load: Text -> Option<Position>)

  /** What the operating system and the store answer during one turn of the loop; None is an I/O error or an absent path. */
  datatype Look = Look(
    len: Option<nat>,
    tailAt: nat -> Option<Text>,
    readAt: nat -> Option<Bytes>,
    path: Option<Inode>,
    reopened: Option<Inode>,
    sealAt: nat -> Option<Text>,
    now: nat,
    refuse: bool)

  /** What they answer while the file is being opened. */
  datatype Opening = Opening(
    found: Option<Inode>, regular: bool, len: nat, loadable: bool, sealAt: nat -> Option<Text>, now: nat, refuse: bool)

  datatype State = Fresh | Collecting | CaughtUp | PartialLine | Failed

  /** A submission to the store: the checkpoint it found, the one it carried, and the answer. */
  datatype Attempt = Attempt(before: Option<Text>, next: Position, reply: Result<Receipt, Refusal>)

  datatype Source = Source(
    file: Option<Inode>, position: Option<Position>, lag: nat, errors: nat, state: State, attempts: seq<Attempt>)

  function NewSource(): Source {
    Source(None, None, 0, 0, Fresh, [])
  }

  // ---------------------------------------------------------------- identities

  function Digits(n: nat): (r: Text)
    ensures r != []
  {
    if n < 10 then [('0' as int + n) as char] else Digits(n / 10) + [('0' as int + n % 10) as char]
  }

  function Generation(p: Position): Text {
    Digits(p.dev) + ":" + Digits(p.ino) + ":" + Digits(p.epoch)
  }

  function IdentityOf(p: Position, lib: Library): Identity {
    Identity(lib.name, Generation(p), SaturatingAdd(p.offset, 1))
  }

  // ---------------------------------------------------------------- cutting bytes into records

  /** The length of the first line, its newline included. */
  function LineEnd(bytes: Bytes): (r: Option<nat>)
    ensures r.Some? ==> 0 < r.value <= |bytes| && bytes[r.value - 1] == NEWLINE && NEWLINE !in bytes[..r.value - 1]
    ensures r == None ==> NEWLINE !in bytes
  {
    if bytes == [] then None
    else if bytes[0] == NEWLINE then Some(1)
    else
      match LineEnd(bytes[1..])
      case None => None
      case Some(n) =>
        assert bytes[..n] == [bytes[0]] + bytes[1..][..n - 1];
        Some(n + 1)
  }

  function ReadLine(line: Bytes, lib: Library): Data {
    match lib.format
    case PlainText => if line != [] && Observations.Utf8(line) then Log(line) else Gap(BadLine)
    case Jsonl =>
      if !Json.Shallow(line, MAX_LINE, Observations.MAX_DEPTH) then Gap(BadJson)
      else
        match lib.parse(line)
        case None => Gap(BadJson)
        case Some(fields) => if lib.probe(fields) then JsonLog(fields) else Gap(BadFields)
  }

  /** The record made of the next `consume` bytes. */
  function CutData(bytes: Bytes, end: Option<nat>, skipping: bool, rotated: bool, lib: Library): Data
    requires end.Some? ==> 0 < end.value <= |bytes|
  {
    var consume := if end.Some? then end.value else |bytes|;
    if skipping || end == None || consume > MAX_LINE then
      Gap(if rotated && end == None then RotatedLine else Oversized)
    else ReadLine(bytes[..consume - 1], lib)
  }

  // ---------------------------------------------------------------- one commit

  function Committed(s: Source, t: Tables, p: Position, data: Data, sealAt: nat -> Option<Text>, now: nat, refuse: bool, lib: Library)
    : (Source, Tables, bool)
  {
    if s.file == None then (s, t, false)
    else
      match sealAt(p.offset)
      case None => (s, t, false)
      case Some(tail) =>
        var next := p.(tail := tail);
        var identity := IdentityOf(next, lib);
        var fitted := if lib.fits(identity, data, now) then data else Gap(WireLimit);
        var cp := Checkpoint(lib.name, lib.save(next));
        var (t', reply) := Submitted(t, lib.decode, lib.encode(identity, fitted, now), Some(cp), refuse);
        var before := if lib.name in t.checkpoints then Some(t.checkpoints[lib.name]) else None;
        var s' := s.(attempts := s.attempts + [Attempt(before, next, reply)]);
        if reply.Err? then (s', t', false) else (s'.(position := Some(next)), t', true)
  }

  // ---------------------------------------------------------------- opening

  /** The part of a poll that runs when no file is open; false ends the poll with an error. */
  function Opened(s: Source, t: Tables, o: Opening, lib: Library): (Source, Tables, bool) {
    match o.found
    case None => (s, t, false)
    case Some(inode) =>
      if !o.regular || !o.loadable then (s, t, false)
      else
        var saved := if lib.name in t.checkpoints then Some(t.checkpoints[lib.name]) else None;
        if saved.Some? && lib.load(saved.value) == None then (s, t, false)
        else
          var s' := s.(file := Some(inode));
          if saved == None then
            Committed(s', t, Position(inode.dev, inode.ino, if lib.replay then 0 else o.len, 0, "", false),
                      Gap(if lib.replay then Replay else Attached), o.sealAt, o.now, o.refuse, lib)
          else
            var p := lib.load(saved.value).value;
            if p.dev == inode.dev && p.ino == inode.ino then (s'.(position := Some(p)), t, true)
            else
              Committed(s', t, Position(inode.dev, inode.ino, 0, SaturatingAdd(p.epoch, 1), "", false),
                        Gap(Replaced), o.sealAt, o.now, o.refuse, lib)
  }

  // ---------------------------------------------------------------- one turn of the loop

  datatype Turn = Again | Stop(state: State)

  function Turned(s: Source, t: Tables, look: Look, lib: Library): (Source, Tables, Turn) {
    if s.position == None || s.file == None || look.len == None then (s, t, Stop(Failed))
    else
      var p := s.position.value;
      var s1 := s.(lag := if look.len.value >= p.offset then look.len.value - p.offset else 0);
      if look.len.value >= p.offset && p.tail != "" && look.tailAt(p.offset) == None then (s1, t, Stop(Failed))
      else if look.len.value < p.offset || (p.tail != "" && look.tailAt(p.offset) != Some(p.tail)) then
        var (s2, t2, ok) := Committed(s1, t, Position(p.dev, p.ino, 0, SaturatingAdd(p.epoch, 1), "", false), Gap(Truncated),
                                      look.sealAt, look.now, look.refuse, lib);
        (s2, t2, if ok then Again else Stop(Failed))
      else
        match look.readAt(p.offset)
        case None => (s1, t, Stop(Failed))
        case Some(available) => Consumed(s1, t, p, available[..Min(|available|, MAX_FRAME + 1)], look, lib)
  }

  /** The rest of the turn, once the bytes are read. */
  function Consumed(s: Source, t: Tables, p: Position, bytes: Bytes, look: Look, lib: Library): (Source, Tables, Turn)
    requires s.file.Some?
  {
    var rotated := look.path.Some? && look.path.value != Inode(p.dev, p.ino);
    if bytes == [] then
      if !rotated then (s, t, Stop(CaughtUp))
      else
        match look.reopened
        case None => (s, t, Stop(Failed))
        case Some(inode) =>
          var (s', t', ok) := Committed(s.(file := Some(inode)), t,
                                        Position(inode.dev, inode.ino, 0, SaturatingAdd(p.epoch, 1), "", false), Gap(Rotated),
                                        look.sealAt, look.now, look.refuse, lib);
          if ok then (s', t', Again) else (s'.(file := s.file), t', Stop(Failed))
    else
      var end := LineEnd(bytes);
      if end == None && |bytes| <= MAX_FRAME && !rotated then (s, t, Stop(PartialLine))
      else
        var consume := if end.Some? then end.value else |bytes|;
        if p.offset + consume > U64_MAX then (s, t, Stop(Failed))
        else
          var next := p.(offset := p.offset + consume, skipping := end == None && !rotated);
          var (s', t', ok) := Committed(s, t, next, CutData(bytes, end, p.skipping, rotated, lib),
                                        look.sealAt, look.now, look.refuse, lib);
          (s', t', if ok then Again else Stop(Failed))
  }

  /** Up to `n` turns. */
  function Turns(s: Source, t: Tables, looks: nat -> Look, i: nat, n: nat, lib: Library): (Source, Tables, State)
    decreases n
  {
    if n == 0 then (s, t, Collecting)
    else
      var (s', t', turn) := Turned(s, t, looks(i), lib);
      match turn
      case Again => Turns(s', t', looks, i + 1, n - 1, lib)
      case Stop(state) => (s', t', state)
  }

  /** A whole poll. A failure before any position is known closes the file again. */
  function Polled(s: Source, t: Tables, o: Opening, looks: nat -> Look, lib: Library): (Source, Tables) {
    var (s1, t1, open) := if s.file == None then Opened(s, t, o, lib) else (s, t, true);
    var (s2, t2, state) := if open then Turns(s1, t1, looks, 0, 8, lib) else (s1, t1, Failed);
    if state != Failed then (s2.(state := state), t2)
    else (s2.(file := if s2.position == None then None else s2.file, state := Failed, errors := SaturatingAdd(s2.errors, 1)), t2)
  }

  // ---------------------------------------------------------------- the object the daemon keeps

  class FileSource {
    var file: Option<Inode>
    var position: Option<Position>
    var lag: nat
    var errors: nat
    var state: State
    ghost var attempts: seq<Attempt>
    const lib: Library

    ghost function Snapshot(): Source
      reads this
    {
      Source(file, position, lag, errors, state, attempts)
    }

    constructor (lib: Library)
      ensures Snapshot() == NewSource() && this.lib == lib
    {
      file, position, lag, errors, state := None, None, 0, 0, Fresh;
      attempts := [];
      this.lib := lib;
    }

    method Commit(store: Store, p: Position, data: Data, sealAt: nat -> Option<Text>, now: nat, refuse: bool) returns (ok: bool)
      requires store.Valid() && store.decode == lib.decode
      modifies this, store
      ensures store.Valid()
      ensures (Snapshot(), store.tables, ok)
           == Committed(old(Snapshot()), old(store.tables), p, data, sealAt, now, refuse, lib)
    {
      hide TablesOk, Submitted, IdentityOf;
      if file == None {
        return false;
      }
      var tail := sealAt(p.offset);
      if tail == None {
        return false;
      }
      var next := p.(tail := tail.value);
      var identity := IdentityOf(next, lib);
      var fitted := if lib.fits(identity, data, now) then data else Gap(WireLimit);
      ghost var before := if lib.name in store.tables.checkpoints then Some(store.tables.checkpoints[lib.name]) else None;
      var reply := store.Submit(lib.encode(identity, fitted, now), Some(Checkpoint(lib.name, lib.save(next))), refuse);
      attempts := attempts + [Attempt(before, next, reply)];
      if reply.Err? {
        return false;
      }
      position := Some(next);
      return true;
    }

    method Open(store: Store, o: Opening) returns (ok: bool)
      requires store.Valid() && store.decode == lib.decode && file == None
      modifies this, store
      ensures store.Valid()
      ensures (Snapshot(), store.tables, ok) == Opened(old(Snapshot()), old(store.tables), o, lib)
    {
      hide TablesOk, Committed;
      if o.found == None || !o.regular || !o.loadable {
        return false;
      }
      var inode := o.found.value;
      var saved := if lib.name in store.tables.checkpoints then Some(store.tables.checkpoints[lib.name]) else None;
      if saved.Some? && lib.load(saved.value) == None {
        return false;
      }
      file := Some(inode);
      if saved == None {
        var p := Position(inode.dev, inode.ino, if lib.replay then 0 else o.len, 0, "", false);
        ok := Commit(store, p, Gap(if lib.replay then Replay else Attached), o.sealAt, o.now, o.refuse);
      } else {
        var p := lib.load(saved.value).value;
        if p.dev == inode.dev && p.ino == inode.ino {
          position := Some(p);
          ok := true;
        } else {
          var next := Position(inode.dev, inode.ino, 0, SaturatingAdd(p.epoch, 1), "", false);
          ok := Commit(store, next, Gap(Replaced), o.sealAt, o.now, o.refuse);
        }
      }
    }

    method TakeTurn(store: Store, look: Look) returns (turn: Turn)
      requires store.Valid() && store.decode == lib.decode
      modifies this, store
      ensures store.Valid()
      ensures (Snapshot(), store.tables, turn) == Turned(old(Snapshot()), old(store.tables), look, lib)
    {
      hide TablesOk, Committed, Consumed;
      if position == None || file == None || look.len == None {
        return Stop(Failed);
      }
      var p := position.value;
      lag := if look.len.value >= p.offset then look.len.value - p.offset else 0;
      var truncated := look.len.value < p.offset;
      if !truncated && p.tail != "" {
        var tail := look.tailAt(p.offset);
        if tail == None {
          return Stop(Failed);
        }
        truncated := tail.value != p.tail;
      }
      if truncated {
        var next := Position(p.dev, p.ino, 0, SaturatingAdd(p.epoch, 1), "", false);
        var ok := Commit(store, next, Gap(Truncated), look.sealAt, look.now, look.refuse);
        return if ok then Again else Stop(Failed);
      }
      var available := look.readAt(p.offset);
      if available == None {
        return Stop(Failed);
      }
      turn := Consume(store, p, available.value[..Min(|available.value|, MAX_FRAME + 1)], look);
    }

    method Consume(store: Store, p: Position, bytes: Bytes, look: Look) returns (turn: Turn)
      requires store.Valid() && store.decode == lib.decode && file.Some?
      modifies this, store
      ensures store.Valid()
      ensures (Snapshot(), store.tables, turn) == Consumed(old(Snapshot()), old(store.tables), p, bytes, look, lib)
    {
      hide TablesOk, Committed, CutData;
      var rotated := look.path.Some? && look.path.value != Inode(p.dev, p.ino);
      if bytes == [] {
        if !rotated {
          return Stop(CaughtUp);
        }
        if look.reopened == None {
          return Stop(Failed);
        }
        var old' := file;
        file := look.reopened;
        var next := Position(file.value.dev, file.value.ino, 0, SaturatingAdd(p.epoch, 1), "", false);
        var ok := Commit(store, next, Gap(Rotated), look.sealAt, look.now, look.refuse);
        if !ok {
          file := old';
          return Stop(Failed);
        }
        return Again;
      }
      var end := LineEnd(bytes);
      if end == None && |bytes| <= MAX_FRAME && !rotated {
        return Stop(PartialLine);
      }
      var consume := if end.Some? then end.value else |bytes|;
      if p.offset + consume > U64_MAX {
        return Stop(Failed);
      }
      var next := p.(offset := p.offset + consume, skipping := end == None && !rotated);
      var ok := Commit(store, next, CutData(bytes, end, p.skipping, rotated, lib), look.sealAt, look.now, look.refuse);
      return if ok then Again else Stop(Failed);
    }

    method PollInner(store: Store, o: Opening, looks: nat -> Look) returns (r: State)
      requires store.Valid() && store.decode == lib.decode
      modifies this, store
      ensures store.Valid()
      ensures var (s1, t1, open) :=
                if old(file) == None then Opened(old(Snapshot()), old(store.tables), o, lib) else (old(Snapshot()), old(store.tables), true);
              (Snapshot(), store.tables, r) == if open then Turns(s1, t1, looks, 0, 8, lib) else (s1, t1, Failed)
    {
      hide TablesOk, Opened, Turned;
      if file == None {
        var ok := Open(store, o);
        if !ok {
          return Failed;
        }
      }
      ghost var start := Turns(Snapshot(), store.tables, looks, 0, 8, lib);
      for i := 0 to 8
        invariant store.Valid() && Turns(Snapshot(), store.tables, looks, i, 8 - i, lib) == start
      {
        var turn := TakeTurn(store, looks(i));
        if turn.Stop? {
          return turn.state;
        }
      }
      return Collecting;
    }

    method Poll(store: Store, o: Opening, looks: nat -> Look)
      requires store.Valid() && store.decode == lib.decode
      modifies this, store
      ensures store.Valid()
      ensures (Snapshot(), store.tables) == Polled(old(Snapshot()), old(store.tables), o, looks, lib)
    {
      hide TablesOk, Opened, Turns;
      var r := PollInner(store, o, looks);
      state := r;
      if r == Failed {
        if position == None {
          file := None;
        }
        errors := SaturatingAdd(errors, 1);
      }
    }
  }
}
