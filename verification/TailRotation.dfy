/**
Cuts of one descriptor while its path may name another file: an unterminated cut taken then forgets that the line goes
on, and that is the one way the tail of a line becomes a log.
*/
module TailRotation {
  import opened Common
  import Observations
  import opened Custody
  import opened Tail

  /** What one turn reads at most, and whether the path named another file. */
  datatype Read = Read(upTo: nat, rotated: bool)

  /** A committed cut: where it starts, what the read returned, and the mark it found. */
  datatype Taken = Taken(start: nat, bytes: Bytes, rotated: bool, skipping: bool)

  /** Bytes that are committed rather than waited upon. */
  predicate Cuts(bytes: Bytes, rotated: bool) {
    bytes != [] && (LineEnd(bytes).Some? || |bytes| > MAX_FRAME || rotated)
  }

  function Consumes(bytes: Bytes): nat {
    if LineEnd(bytes).Some? then LineEnd(bytes).value else |bytes|
  }

  /** Whether the line is marked as going on. */
  predicate Marks(bytes: Bytes, rotated: bool) {
    LineEnd(bytes) == None && !rotated
  }

  function DataOf(x: Taken, lib: Library): Data {
    CutData(x.bytes, LineEnd(x.bytes), x.skipping, x.rotated, lib)
  }

  /** The turn itself: exactly these bytes are committed, with this data and this mark. */
  lemma ConsumedIsCut(s: Source, t: Tables, p: Position, bytes: Bytes, look: Look, lib: Library)
    requires s.file.Some? && bytes != [] && p.offset + Consumes(bytes) <= U64_MAX
    ensures var rotated := look.path.Some? && look.path.value != Inode(p.dev, p.ino);
      var next := p.(offset := p.offset + Consumes(bytes), skipping := Marks(bytes, rotated));
      var c := Committed(s, t, next, DataOf(Taken(p.offset, bytes, rotated, p.skipping), lib), look.sealAt, look.now, look.refuse, lib);
      Consumed(s, t, p, bytes, look, lib)
      == if Cuts(bytes, rotated) then (c.0, c.1, if c.2 then Again else Stop(Failed)) else (s, t, Stop(PartialLine))
  {
    hide LineEnd, Committed, CutData;
  }

  /**
  What is filed for a cut: a note if the line was already known to be too long, has no end yet, or is over 32768 bytes with
  its newline, and the note says rotation exactly if the path names another file and the line has no end; otherwise the line.
  */
  lemma CutSays(x: Taken, lib: Library)
    requires x.bytes != []
    ensures var data, terminated := DataOf(x, lib), NEWLINE in x.bytes;
      && (x.skipping || !terminated || Consumes(x.bytes) > 32768 ==> data == Gap(if x.rotated && !terminated then RotatedLine else Oversized))
      && (!x.skipping && terminated && Consumes(x.bytes) <= 32768 ==>
            var line := x.bytes[..Consumes(x.bytes) - 1];
            NEWLINE !in line && x.bytes[|line|] == NEWLINE && data == ReadLine(line, lib))
  {
    hide LineEnd, ReadLine;
    var end := LineEnd(x.bytes);
    if end.Some? {
      assert x.bytes[end.value - 1] == NEWLINE;
    }
  }

  /**
  How a turn fails: with nothing done and the error counted at the end of the poll, if the length, the bytes before the
  offset or the next bytes cannot be had, or the file at the path cannot be opened when this one is done.
  */
  lemma TurnFails(s: Source, t: Tables, look: Look, lib: Library)
    requires s.position.Some? && s.file.Some?
    requires var p := s.position.value;
      || look.len == None
      || (look.len.value >= p.offset && p.tail != "" && look.tailAt(p.offset) == None)
      || (look.len.value >= p.offset && (p.tail == "" || look.tailAt(p.offset) == Some(p.tail))
          && (look.readAt(p.offset) == None
              || (look.readAt(p.offset) == Some([]) && look.path.Some? && look.path.value != Inode(p.dev, p.ino) && look.reopened == None)))
    ensures var r := Turned(s, t, look, lib); r.0 == s.(lag := r.0.lag) && r.1 == t && r.2 == Stop(Failed)
  {
    hide Committed;
  }

  /** A cut that would pass the 64-bit range is not made; a commit that fails leaves the source on the file it has. */
  lemma CutFails(s: Source, t: Tables, p: Position, bytes: Bytes, look: Look, lib: Library)
    requires s.file.Some?
    ensures var rotated := look.path.Some? && look.path.value != Inode(p.dev, p.ino);
      var r := Consumed(s, t, p, bytes, look, lib);
      && (bytes != [] && Cuts(bytes, rotated) && p.offset + Consumes(bytes) > U64_MAX ==> r == (s, t, Stop(Failed)))
      && (bytes == [] && rotated && look.reopened.Some? ==>
            var at := Position(look.reopened.value.dev, look.reopened.value.ino, 0, SaturatingAdd(p.epoch, 1), "", false);
            var c := Committed(s.(file := look.reopened), t, at, Gap(Rotated), look.sealAt, look.now, look.refuse, lib);
            r == if c.2 then (c.0, c.1, Again) else (c.0.(file := s.file), c.1, Stop(Failed)))
  {
    hide Committed, LineEnd, CutData;
  }

  /** And at the end of a file whose path has not changed, or cannot be looked at, it says so. */
  lemma TurnCatchesUp(s: Source, t: Tables, p: Position, look: Look, lib: Library)
    requires s.file.Some? && (look.path == None || look.path.value == Inode(p.dev, p.ino))
    ensures Consumed(s, t, p, [], look, lib) == (s, t, Stop(CaughtUp))
  {
  }

  /** What such a read returns. */
  function Returned(content: Bytes, offset: nat, upTo: nat): (bytes: Bytes)
    requires offset <= |content|
    ensures offset + |bytes| <= |content| && bytes == content[offset..offset + |bytes|]
  {
    content[offset..Min(|content|, offset + Min(upTo, MAX_FRAME + 1))]
  }

  /** The cuts a descriptor's turns commit, from an offset, for any reads and any comings and goings of the path. */
  function Cutting(content: Bytes, offset: nat, skipping: bool, tries: seq<Read>): seq<Taken>
    requires offset <= |content|
    decreases |tries|
  {
    if tries == [] then []
    else
      var bytes := Returned(content, offset, tries[0].upTo);
      var rotated := tries[0].rotated;
      if Cuts(bytes, rotated) then
        [Taken(offset, bytes, rotated, skipping)]
        + Cutting(content, offset + Consumes(bytes), Marks(bytes, rotated), tries[1..])
      else Cutting(content, offset, skipping, tries[1..])
  }

  ghost predicate InContent(content: Bytes, x: Taken) {
    x.bytes != [] && x.start + |x.bytes| <= |content| && x.bytes == content[x.start..x.start + |x.bytes|]
  }

  /** Cut k lies in the content, starts where the one before ended, and finds the mark that one left. */
  ghost predicate Chained(content: Bytes, offset: nat, skipping: bool, taken: seq<Taken>, k: nat)
    requires k < |taken|
  {
    && InContent(content, taken[k])
    && taken[k].start == (if k == 0 then offset else taken[k - 1].start + Consumes(taken[k - 1].bytes))
    && taken[k].skipping == if k == 0 then skipping else Marks(taken[k - 1].bytes, taken[k - 1].rotated)
  }

  lemma ChainedCons(content: Bytes, x: Taken, rest: seq<Taken>, k: nat)
    requires InContent(content, x) && k <= |rest|
    requires k > 0 ==> Chained(content, x.start + Consumes(x.bytes), Marks(x.bytes, x.rotated), rest, k - 1)
    ensures Chained(content, x.start, x.skipping, [x] + rest, k)
  {
    hide LineEnd, Consumes, Marks, InContent;
  }

  lemma CuttingNone(content: Bytes, offset: nat, skipping: bool)
    requires offset <= |content|
    ensures Cutting(content, offset, skipping, []) == []
  {
  }

  lemma CuttingNext(content: Bytes, offset: nat, skipping: bool, tries: seq<Read>)
    requires offset <= |content| && tries != []
    ensures var bytes, rotated := Returned(content, offset, tries[0].upTo), tries[0].rotated;
      if Cuts(bytes, rotated) then
        && offset + Consumes(bytes) <= |content| && InContent(content, Taken(offset, bytes, rotated, skipping))
        && Cutting(content, offset, skipping, tries)
           == [Taken(offset, bytes, rotated, skipping)] + Cutting(content, offset + Consumes(bytes), Marks(bytes, rotated), tries[1..])
      else Cutting(content, offset, skipping, tries) == Cutting(content, offset, skipping, tries[1..])
  {
    hide LineEnd, Marks, Returned;
  }

  lemma {:induction false} CuttingNth(content: Bytes, offset: nat, skipping: bool, tries: seq<Read>, k: nat)
    requires offset <= |content| && k < |Cutting(content, offset, skipping, tries)|
    ensures Chained(content, offset, skipping, Cutting(content, offset, skipping, tries), k)
    decreases |tries|
  {
    hide *;
    CuttingNone(content, offset, skipping);
    CuttingNext(content, offset, skipping, tries);
    var bytes, rotated := Returned(content, offset, tries[0].upTo), tries[0].rotated;
    if Cuts(bytes, rotated) {
      var rest := Cutting(content, offset + Consumes(bytes), Marks(bytes, rotated), tries[1..]);
      if k > 0 {
        CuttingNth(content, offset + Consumes(bytes), Marks(bytes, rotated), tries[1..], k - 1);
      }
      ChainedCons(content, Taken(offset, bytes, rotated, skipping), rest, k);
    } else {
      CuttingNth(content, offset, skipping, tries[1..], k);
    }
  }

  /** A line was read, not a note made. */
  predicate IsLog(d: Data) {
    d.Log? || d.JsonLog?
  }

  /** The byte before a cut's end is a newline exactly if the cut was terminated. */
  lemma LastByte(content: Bytes, x: Taken)
    requires InContent(content, x)
    ensures var end := x.start + Consumes(x.bytes);
      x.start < end <= |content| && (content[end - 1] == NEWLINE <==> LineEnd(x.bytes).Some?)
  {
    var n := Consumes(x.bytes);
    assert x.bytes[n - 1] == content[x.start + n - 1];
    assert LineEnd(x.bytes) == None ==> x.bytes[n - 1] in x.bytes;
  }

  /**
  A log starts at a line boundary exactly when the cut before it was not an unterminated one taken while the path
  named another file.
  */
  lemma LogsAtBoundaries(content: Bytes, offset: nat, tries: seq<Read>, lib: Library, k: nat)
    requires offset <= |content| && k < |Cutting(content, offset, false, tries)|
    ensures var taken := Cutting(content, offset, false, tries);
      && taken[k].start <= |content| && (k > 0 ==> taken[k].start > 0)
      && (IsLog(DataOf(taken[k], lib)) ==>
            ((k == 0 || content[taken[k].start - 1] == NEWLINE)
             <==> !(k > 0 && LineEnd(taken[k - 1].bytes) == None && taken[k - 1].rotated)))
  {
    hide LineEnd, Cutting;
    var taken := Cutting(content, offset, false, tries);
    CuttingNth(content, offset, false, tries, k);
    if k > 0 {
      CuttingNth(content, offset, false, tries, k - 1);
      LastByte(content, taken[k - 1]);
    }
  }

  /**
  And it does happen: 65537 bytes of an unfinished line, read while the path names another file, leave no mark, and the
  rest of that line is then taken for a line.
  */
  lemma RotationLosesTheMark(s: Source, t: Tables, p: Position, look: Look, lib: Library)
    requires s.file.Some? && p.offset == 0 && look.path.Some? && look.path.value != Inode(p.dev, p.ino)
    requires lib.format == PlainText
    ensures var long: Bytes := seq(MAX_FRAME + 1, _ => 0x78);
      var next := p.(offset := MAX_FRAME + 1, skipping := false);
      var c := Committed(s, t, next, Gap(RotatedLine), look.sealAt, look.now, look.refuse, lib);
      && Consumed(s, t, p, long, look, lib) == (c.0, c.1, if c.2 then Again else Stop(Failed))
      && DataOf(Taken(MAX_FRAME + 1, [0x74, NEWLINE], true, false), lib) == Log([0x74])
      && (long + [0x74, NEWLINE])[MAX_FRAME] != NEWLINE
  {
    var long: Bytes := seq(MAX_FRAME + 1, _ => 0x78);
    assert LineEnd(long) == None by {
      NoNewline(long);
    }
    ConsumedIsCut(s, t, p, long, look, lib);
    hide Committed;
    var rest: Bytes := [0x74, NEWLINE];
    assert rest[1..] == [NEWLINE] && LineEnd(rest[1..]) == Some(1) && LineEnd(rest) == Some(2);
    assert rest[..1] == [0x74] && [0x74][1..] == [];
    assert Observations.Utf8([0x74]);
  }

  lemma {:induction false} NoNewline(bytes: Bytes)
    requires NEWLINE !in bytes
    ensures LineEnd(bytes) == None
  {
    if bytes != [] {
      NoNewline(bytes[1..]);
    }
  }
}
