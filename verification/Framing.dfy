/** One connection of the daemon: incremental framing of the request and of the reply, fabric/src/spindle/server.rs. */
module Framing {
  import opened Common

  type Bytes = seq<byte>

  /** A big-endian length. */
  function BigEndian(b: Bytes): nat
    requires |b| == 4
  {
    ((b[0] as int * 256 + b[1]) * 256 + b[2]) * 256 + b[3]
  }

  function ToBigEndian(n: nat): (r: Bytes)
    ensures |r| == 4
  {
    var q := n / 256;
    [q / 256 / 256 % 256, q / 256 % 256, q % 256, n % 256]
  }

  /** The first byte counts most. */
  lemma BigEndianIs(a: byte, b: byte, c: byte, d: byte)
    ensures BigEndian([a, b, c, d]) == 0x100_0000 * a + 0x1_0000 * b + 0x100 * c + d
  {
  }

  lemma BigEndianBack(n: nat)
    requires n < 0x1_0000_0000
    ensures BigEndian(ToBigEndian(n)) == n
  {
    var q := n / 256;
    assert q / 256 / 256 < 256 && n == q * 256 + n % 256 && q == q / 256 * 256 + q % 256;
    assert q / 256 == q / 256 / 256 * 256 + q / 256 % 256;
  }

  /** The frame a stream announces, if all of it is there: a length within the limit, and that many bytes. */
  function Announced(stream: Bytes): Option<Bytes> {
    if |stream| < 4 then None
    else
      var size := BigEndian(stream[..4]);
      if 0 < size <= MAX_FRAME && 4 + size <= |stream| then Some(stream[4..4 + size]) else None
  }

  lemma Whole(stream: Bytes, header: Bytes, body: Bytes)
    requires |header| == 4 && 0 < BigEndian(header) == |body| <= MAX_FRAME && header + body <= stream
    ensures Announced(stream) == Some(body) && stream[4..4 + |body|] == body
  {
    assert stream[..4] == (header + body)[..4] == header;
    assert stream[4..4 + |body|] == (header + body)[4..] == body;
  }

  lemma Joined(stream: Bytes, was: nat, pos: nat, header: Bytes, body: Bytes)
    requires was <= pos <= |stream| && stream[..was] == header + body
    ensures stream[..pos] == header + (body + stream[was..pos])
  {
    assert stream[..pos] == stream[..was] + stream[was..pos];
  }

  /** What is sent back: too long a reply is replaced by a short one. */
  function Framed(reply: Bytes, overflow: Bytes): (r: Bytes)
    ensures r != []
  {
    var text := if |reply| > MAX_REPLY then overflow else reply;
    ToBigEndian(|text|) + text
  }

  lemma FramedReadsBack(reply: Bytes, overflow: Bytes)
    requires |overflow| <= MAX_REPLY
    ensures var r := Framed(reply, overflow);
      |r| >= 4 && BigEndian(r[..4]) == |r| - 4 && r[4..] == if |reply| > MAX_REPLY then overflow else reply
  {
    var n := |Framed(reply, overflow)| - 4;
    assert Framed(reply, overflow)[..4] == ToBigEndian(n);
    assert n / 256 / 256 / 256 == 0;
  }

  /** One read or write on the socket: some of what is asked for, nothing now, nothing ever again, or an error. */
  datatype Io = Gives(upTo: nat) | WouldBlock | Closed | Broken

  datatype Progressed = Waiting | Body(bytes: Bytes) | Ended

  /** No end of the connection and no error. */
  ghost predicate Steady(io: nat -> Io) {
    forall i :: io(i).Gives? || io(i).WouldBlock?
  }

  /** Nor a write of nothing. */
  ghost predicate Flowing(io: nat -> Io) {
    forall i :: io(i).WouldBlock? || (io(i).Gives? && io(i).upTo > 0)
  }

  /** The socket gives whatever is asked of it, as long as there is something. */
  ghost predicate Generous(io: nat -> Io) {
    forall i :: io(i).Gives? && io(i).upTo >= 8192
  }

  /** What n writes in a row accept. */
  function Accepts(io: nat -> Io, n: nat): nat {
    if n == 0 then 0 else Accepts(io, n - 1) + if io(n - 1).Gives? then io(n - 1).upTo else 0
  }

  /** Visits among the first n at which the socket has something. */
  function Offers(io: nat -> nat -> Io, n: nat): nat {
    if n == 0 then 0 else Offers(io, n - 1) + if io(n - 1)(0).Gives? then 1 else 0
  }

  // ---------------------------------------------------------------- one visit's reads and writes

  predicate Ends(io: Io) {
    io.Closed? || io.Broken?
  }

  /** What one read brings, of what has arrived. */
  function Yield(io: Io, len: nat, left: nat): nat {
    if io.Gives? then Min(Min(Max(io.upTo, 1), len), left) else 0
  }

  /** Up to n reads towards a goal, from the k-th on: where they stop, and which read brought nothing or would be next. */
  function ReadsTo(arrived: nat, pos: nat, goal: nat, most: nat, io: nat -> Io, k: nat, n: nat): (r: (nat, nat))
    requires pos <= arrived
    ensures pos <= r.0 <= arrived && (pos <= goal ==> r.0 <= goal)
    decreases n
  {
    if n == 0 || pos >= goal then (pos, k)
    else
      var got := Yield(io(k), Min(goal - pos, most), arrived - pos);
      if got == 0 then (pos, k) else ReadsTo(arrived, pos + got, goal, most, io, k + 1, n - 1)
  }

  lemma ReadOn(arrived: nat, pos: nat, goal: nat, most: nat, io: nat -> Io, k: nat, n: nat)
    requires pos <= arrived
    ensures ReadsTo(arrived, pos, goal, most, io, k, n) ==
      if n == 0 || pos >= goal || Yield(io(k), Min(goal - pos, most), arrived - pos) == 0 then (pos, k)
      else ReadsTo(arrived, pos + Yield(io(k), Min(goal - pos, most), arrived - pos), goal, most, io, k + 1, n - 1)
  {
  }

  /** What one turn of reading comes to: first the header, then eight reads of the announced body. */
  function Turned(stream: Bytes, pos: nat, io: nat -> Io): (nat, Progressed)
    requires pos <= |stream|
  {
    var (p, k) := ReadsTo(|stream|, pos, 4, 4, io, 0, 4);
    if p < 4 then (p, if Ends(io(k)) then Ended else Waiting)
    else
      var size := BigEndian(stream[..4]);
      if size == 0 || size > MAX_FRAME then (p, Ended)
      else
        var (q, j) := ReadsTo(|stream|, p, 4 + size, 8192, io, k, 8);
        (q, if q == 4 + size then Body(stream[4..q]) else if j < k + 8 && Ends(io(j)) then Ended else Waiting)
  }

  /** Up to n writes from the k-th on: how much is out then, and whether there is more to do. */
  function Wrote(total: nat, done: nat, io: nat -> Io, k: nat, n: nat): (nat, bool)
    requires done < total
    decreases n
  {
    if n == 0 || io(k) == WouldBlock then (done, true)
    else if Ends(io(k)) || io(k).upTo == 0 then (done, false)
    else if io(k).upTo >= total - done then (total, false)
    else Wrote(total, done + io(k).upTo, io, k + 1, n - 1)
  }

  /** Reads only move on; from a socket that gives what is asked they reach the goal, or take all that has arrived. */
  lemma {:induction false} ReadsGet(arrived: nat, pos: nat, goal: nat, most: nat, io: nat -> Io, k: nat, n: nat)
    requires pos <= arrived && 0 < most <= 8192
    ensures var (q, j) := ReadsTo(arrived, pos, goal, most, io, k, n);
      && k <= j <= k + n && (io(k).Gives? && pos < Min(goal, arrived) && n > 0 ==> q > pos)
      && (Generous(io) && goal <= pos + most * n ==> q == Max(pos, Min(goal, arrived)))
    decreases n
  {
    if n > 0 && pos < goal {
      var got := Yield(io(k), Min(goal - pos, most), arrived - pos);
      if got > 0 {
        assert most * n == most + most * (n - 1);
        ReadsGet(arrived, pos + got, goal, most, io, k + 1, n - 1);
      }
    }
  }

  /** What a turn is good for, wherever in a frame it begins. */
  lemma TurnMeans(stream: Bytes, pos: nat, io: nat -> Io)
    requires pos <= |stream|
    requires pos > 4 ==> 0 < BigEndian(stream[..4]) <= MAX_FRAME && pos < 4 + BigEndian(stream[..4])
    ensures var (q, r) := Turned(stream, pos, io);
      && pos <= q <= 4 + MAX_FRAME
      && (r == Waiting && io(0).Gives? && pos < |stream| ==> q > pos)
      && (r == Ended && Steady(io) ==> |stream| >= 4 && !(0 < BigEndian(stream[..4]) <= MAX_FRAME))
      && (Generous(io) ==> (r.Body? <==> Announced(stream).Some?) && (r == Waiting ==> q == |stream|))
  {
    hide BigEndian, ReadsTo;
    ReadsGet(|stream|, pos, 4, 4, io, 0, 4);
    var (p, k) := ReadsTo(|stream|, pos, 4, 4, io, 0, 4);
    if p >= 4 {
      ReadOn(|stream|, pos, 4, 4, io, 0, 4);
      ReadsGet(|stream|, p, 4 + BigEndian(stream[..4]), 8192, io, k, 8);
    }
  }

  /** Writes stop at the end while they flow; all accepted, they put out the sum of what they take. */
  lemma {:induction false} WritesPut(total: nat, done: nat, io: nat -> Io, k: nat, n: nat)
    requires done < total
    ensures var (out, more) := Wrote(total, done, io, k, n);
      && done <= out <= total && (more ==> out < total && (io(k).Gives? && io(k).upTo > 0 && n > 0 ==> out > done))
      && (!more && Flowing(io) ==> out == total)
      && ((forall i :: k <= i < k + n ==> io(i).Gives? && io(i).upTo > 0) ==>
            out == Min(total, done + Accepts(io, k + n) - Accepts(io, k)) && (more <==> out < total))
    decreases n
  {
    if n > 0 && io(k).Gives? && 0 < io(k).upTo {
      AcceptsMore(io, k + 1, k + n);
      if io(k).upTo < total - done {
        WritesPut(total, done + io(k).upTo, io, k + 1, n - 1);
      }
    }
  }

  lemma WriteOn(total: nat, done: nat, io: nat -> Io, k: nat, n: nat)
    requires done < total
    ensures Wrote(total, done, io, k, n) ==
      if n == 0 || io(k) == WouldBlock then (done, true)
      else if Ends(io(k)) || io(k).upTo == 0 then (done, false)
      else if io(k).upTo >= total - done then (total, false)
      else Wrote(total, done + io(k).upTo, io, k + 1, n - 1)
  {
  }

  lemma AcceptsNone(io: nat -> Io)
    ensures Accepts(io, 0) == 0
  {
  }

  lemma AcceptsMore(io: nat -> Io, m: nat, n: nat)
    requires m <= n
    ensures Accepts(io, m) <= Accepts(io, n)
    decreases n
  {
    if m < n {
      AcceptsMore(io, m, n - 1);
    }
  }

  /** A connection, and everything its peer ever sends. */
  class Connection {
    const stream: Bytes
    var pos: nat
    var header: Bytes
    var body: Bytes
    var output: Bytes
    var written: nat
    ghost var sent: Bytes
    // history: bodies handed out and what they were answered; visits, those at which the socket had something; whether
    // the socket has been steady and its writes flowing; whether the deadline ended it
    ghost var handled: seq<Bytes>
    ghost var replies: seq<Bytes>
    ghost var visits: nat
    ghost var offers: nat
    ghost var steady: bool
    ghost var flowing: bool
    ghost var late: bool

    /** Waiting for the rest of a frame: every byte taken is in the header or the body, and the frame is not complete. */
    ghost predicate Reading()
      reads this`pos, this`header, this`body, this`output, this`written, this`sent
    {
      && output == [] && written == 0 && sent == []
      && pos <= |stream| && stream[..pos] == header + body
      && |header| <= 4 && (|header| < 4 ==> body == [])
      && (body != [] ==> 0 < BigEndian(header) <= MAX_FRAME)
      && (|header| == 4 && 0 < BigEndian(header) <= MAX_FRAME ==> |body| < BigEndian(header))
    }

    /** The announced bytes, and no others, have been taken. */
    ghost predicate Taken(b: Bytes)
      reads this`pos, this`header, this`body
    {
      Announced(stream) == Some(b) && pos == 4 + |b| && |header| == 4 && body == []
    }

    /** A reply is partly out. */
    ghost predicate Replying()
      reads this`output, this`written, this`sent
    {
      output != [] && written < |output| && sent == output[..written]
    }

    constructor (stream: Bytes)
      ensures Reading() && this.stream == stream && pos == 0
      ensures handled == [] && replies == [] && visits == 0 && offers == 0 && steady && flowing && !late
    {
      this.stream := stream;
      pos, header, body, output, written := 0, [], [], [], 0;
      sent, handled, replies, visits, offers, steady, flowing, late := [], [], [], 0, 0, true, true, false;
    }

    /** At least one byte, at most what was asked for, and never more than has arrived. */
    method Read(len: nat, io: Io) returns (r: Io, bytes: Bytes)
      requires pos <= |stream| && len > 0
      modifies this`pos
      ensures old(pos) <= pos <= |stream| && bytes == stream[old(pos)..pos] && |bytes| <= len
      ensures r.Gives? <==> bytes != []
      ensures io.Gives? && old(pos) < |stream| ==> bytes != []
      ensures pos == old(pos) + Yield(io, len, |stream| - old(pos))
      ensures r == if pos > old(pos) || !io.Gives? then io else WouldBlock
    {
      if !io.Gives? {
        return io, [];
      }
      var n := Min(Min(Max(io.upTo, 1), len), |stream| - pos);
      bytes := stream[pos..pos + n];
      pos := pos + n;
      r := if n == 0 then WouldBlock else io;
    }

    /**
    `progress` while no reply is pending. Given something to read it advances; a body comes out in the very call that
    takes its last byte, and a frame that is all there, of any allowed length, in one call of a socket that gives what is
    asked; only a bad length or the end of the socket ends it.
    */
    method Progress(io: nat -> Io) returns (r: Progressed)
      requires Reading()
      modifies this`pos, this`header, this`body
      ensures pos >= old(pos) && pos <= 4 + MAX_FRAME
      ensures r == Waiting ==> Reading() && (io(0).Gives? && old(pos) < |stream| ==> pos > old(pos))
      ensures r.Body? ==> Taken(r.bytes)
      ensures r == Ended && Steady(io) ==> |stream| >= 4 && !(0 < BigEndian(stream[..4]) <= MAX_FRAME)
      ensures Generous(io) ==> (r.Body? <==> Announced(stream).Some?) && (r == Waiting ==> pos == |stream|)
      ensures (pos, r) == Turned(stream, old(pos), io)
    {
      hide ReadsTo, BigEndian, Announced;
      assert pos > 4 ==> header == stream[..pos][..4] == stream[..4];
      TurnMeans(stream, pos, io);
      var k;
      r, k := TakeHeader(io);
      if r == Waiting || r == Ended {
        return;
      }
      assert header == stream[..pos][..4] == stream[..4];
      var size := BigEndian(header);
      if size == 0 || size > MAX_FRAME {
        return Ended;
      }
      r := TakeBody(io, k);
    }

    /** The first loop; Body([]) means the header is complete. The reads done so far are counted. */
    method TakeHeader(io: nat -> Io) returns (r: Progressed, k: nat)
      requires Reading()
      modifies this`pos, this`header
      ensures Reading() && (|header| == 4 <==> pos >= 4)
      ensures (pos, k) == ReadsTo(|stream|, old(pos), 4, 4, io, 0, 4)
      ensures r == if pos >= 4 then Body([]) else if Ends(io(k)) then Ended else Waiting
    {
      hide ReadsTo, BigEndian, Announced;
      k := 0;
      while |header| < 4
        invariant Reading() && k <= |header|
        invariant ReadsTo(|stream|, old(pos), 4, 4, io, 0, 4) == ReadsTo(|stream|, pos, 4, 4, io, k, 4 - k)
        decreases 4 - |header|
      {
        ReadOn(|stream|, pos, 4, 4, io, k, 4 - k);
        var got, bytes := Read(4 - |header|, io(k));
        match got
        case Closed => return Ended, k;
        case WouldBlock => return Waiting, k;
        case Broken => return Ended, k;
        case Gives(_) =>
          assert stream[..pos] == (header + bytes) + [];
          header := header + bytes;
          k := k + 1;
      }
      ReadOn(|stream|, pos, 4, 4, io, k, 4 - k);
      r := Body([]);
    }

    /** The second loop: at most eight reads of at most 8192 bytes, never past the announced size. */
    method TakeBody(io: nat -> Io, first: nat) returns (r: Progressed)
      requires Reading() && |header| == 4 && header == stream[..4] && 0 < BigEndian(header) <= MAX_FRAME
      modifies this`pos, this`body
      ensures var (q, j) := ReadsTo(|stream|, old(pos), 4 + BigEndian(header), 8192, io, first, 8);
        && pos == q
        && r == if q == 4 + BigEndian(header) then Body(stream[4..q]) else if j < first + 8 && Ends(io(j)) then Ended else Waiting
      ensures r == Waiting ==> Reading()
      ensures r.Body? ==> Taken(r.bytes)
    {
      hide ReadsTo, Announced, BigEndian;
      var size := BigEndian(header);
      for i := 0 to 8
        invariant Reading()
        invariant ReadsTo(|stream|, old(pos), 4 + size, 8192, io, first, 8) == ReadsTo(|stream|, pos, 4 + size, 8192, io, first + i, 8 - i)
      {
        ghost var was := pos;
        ReadOn(|stream|, pos, 4 + size, 8192, io, first + i, 8 - i);
        var got, bytes := Read(Min(size - |body|, 8192), io(first + i));
        match got
        case Closed => return Ended;
        case WouldBlock => return Waiting;
        case Broken => return Ended;
        case Gives(_) =>
          Joined(stream, was, pos, header, body);
          body := body + bytes;
          if |body| == size {
            ReadOn(|stream|, pos, 4 + size, 8192, io, first + i + 1, 7 - i);
            Whole(stream, header, body);
            r := Body(body);
            body := [];
            return;
          }
      }
      ReadOn(|stream|, pos, 4 + size, 8192, io, first + 8, 0);
      r := Waiting;
    }

    /** The framed reply takes the body's place. */
    method Install(reply: Bytes, overflow: Bytes)
      requires output == [] && written == 0 && sent == []
      modifies this`output
      ensures output == Framed(reply, overflow) && Replying()
    {
      output := Framed(reply, overflow);
    }

    /** `write_reply`: what has gone out is a prefix of the reply; each accepted write lengthens it; it stops at the end. */
    method WriteReply(io: nat -> Io) returns (more: bool)
      requires Replying()
      modifies this`written, this`sent
      ensures old(written) <= written <= |output| && sent == output[..written]
      ensures more ==> Replying() && (io(0).Gives? && io(0).upTo > 0 ==> written > old(written))
      ensures !more && Flowing(io) ==> sent == output
      ensures (written, more) == Wrote(|output|, old(written), io, 0, 8)
      ensures (forall i :: 0 <= i < 8 ==> io(i).Gives? && io(i).upTo > 0) ==>
                written == Min(|output|, old(written) + Accepts(io, 8)) && (more <==> written < |output|)
    {
      hide Accepts, Wrote;
      WritesPut(|output|, written, io, 0, 8);
      assert Accepts(io, 0) == 0 by {
        AcceptsNone(io);
      }
      for i := 0 to 8
        invariant Replying() && written >= old(written)
        invariant Wrote(|output|, old(written), io, 0, 8) == Wrote(|output|, written, io, i, 8 - i)
      {
        WriteOn(|output|, written, io, i, 8 - i);
        match io(i)
        case WouldBlock => return true;
        case Closed => return false;
        case Broken => return false;
        case Gives(upTo) =>
          var n := Min(upTo, |output| - written);
          if n == 0 {
            return false;
          }
          assert output[..written] + output[written..written + n] == output[..written + n];
          sent := sent + output[written..written + n];
          written := written + n;
          if written == |output| {
            assert output[..written] == output;
            return false;
          }
      }
      WriteOn(|output|, written, io, 8, 0);
      more := true;
    }

    /** One visit of the sweep: a pending reply is written on; otherwise the frame is read on, and a complete one answered. */
    method Visit(io: nat -> Io, out: nat -> Io, handle: Bytes -> Bytes, overflow: Bytes) returns (keep: bool, got: Option<Bytes>)
      requires Reading() || Replying()
      modifies this`pos, this`header, this`body, this`output, this`written, this`sent
      ensures pos >= old(pos)
      ensures got.Some? ==> old(Reading()) && Taken(got.value) && output == Framed(handle(got.value), overflow)
      ensures old(Replying()) ==> got == None && output == old(output) && old(written) <= written
      ensures output != [] ==> written <= |output| && sent == output[..written]
      ensures keep && old(Reading()) && got == None ==> Reading() && (io(0).Gives? && old(pos) < |stream| ==> pos > old(pos))
      ensures keep && (old(Replying()) || got.Some?) ==> Replying()
      ensures !keep && old(Reading()) && got == None && Steady(io) ==> |stream| >= 4 && !(0 < BigEndian(stream[..4]) <= MAX_FRAME)
      ensures !keep && old(Reading()) && got == None ==> output == [] && sent == []
      ensures old(Reading()) && Generous(io) ==> got == Announced(stream)
      ensures !keep && (old(Replying()) || got.Some?) && Flowing(out) ==> sent == output
      ensures old(Reading()) ==>
                (pos, if got.Some? then Body(got.value) else if keep then Waiting else Ended) == Turned(stream, old(pos), io)
      ensures old(Replying()) ==> (written, keep) == Wrote(|output|, old(written), out, 0, 8)
      ensures got.Some? ==> (written, keep) == Wrote(|output|, 0, out, 0, 8)
    {
      if output != [] {
        keep := WriteReply(out);
        return keep, None;
      }
      var r := Progress(io);
      match r
      case Waiting => return true, None;
      case Ended => return false, None;
      case Body(bytes) =>
        Install(handle(bytes), overflow);
        keep := WriteReply(out);
        return keep, Some(bytes);
    }

    /**
    Visits until the connection is dropped or the visits run out. At most one body is ever handed out, and it is the
    announced one; if the whole frame is there and is offered often enough, exactly that one is. The peer gets a prefix
    of its framed reply, all of it when writes flow and the connection is let go.
    */
    method Serve(visits: nat, io: nat -> nat -> Io, out: nat -> nat -> Io, handle: Bytes -> Bytes, overflow: Bytes)
      returns (bodies: seq<Bytes>, keep: bool)
      requires Reading() && pos == 0
      modifies this
      ensures |bodies| <= 1 && (bodies != [] ==> Announced(stream) == Some(bodies[0]))
      ensures sent <= if bodies == [] then [] else Framed(handle(bodies[0]), overflow)
      ensures (forall k :: Steady(io(k))) && Announced(stream).Some? ==>
                Offers(io, visits) >= 4 + |Announced(stream).value| ==> bodies == [Announced(stream).value]
      ensures bodies != [] && !keep && (forall k :: Flowing(out(k))) ==> sent == Framed(handle(bodies[0]), overflow)
    {
      bodies, keep := [], true;
      for k := 0 to visits
        invariant |bodies| <= 1 && keep
        invariant bodies == [] ==> Reading() && (Announced(stream).Some? ==> pos >= Offers(io, k))
        invariant bodies != [] ==> Replying() && output == Framed(handle(bodies[0]), overflow) && Announced(stream) == Some(bodies[0])
      {
        ghost var was := pos;
        assert bodies == [] && Announced(stream).Some? ==> pos < |stream| by {
          if bodies == [] && Announced(stream).Some? {
            Incomplete();
          }
        }
        var got;
        keep, got := Visit(io(k), out(k), handle, overflow);
        if got.Some? {
          bodies := bodies + [got.value];
        }
        if !keep {
          if bodies == [] && Announced(stream).Some? {
            assert Steady(io(k)) ==> false;
          }
          return;
        }
      }
      if bodies == [] && Announced(stream).Some? {
        Incomplete();
      }
    }

    /** At most one body was handed out, the announced one, and nothing but its framed reply has gone out. */
    ghost predicate Orderly(overflow: Bytes)
      reads this`handled, this`replies, this`sent
    {
      && |handled| == |replies| <= 1 && (handled != [] ==> Announced(stream) == Some(handled[0]))
      && sent <= if handled == [] then [] else Framed(replies[0], overflow)
    }

    /** Still served: its frame is not complete, for want of offers, or its reply is partly out. */
    ghost predicate Live(overflow: Bytes)
      reads this
    {
      && Orderly(overflow) && !late
      && (handled == [] ==>
            Reading() && (Announced(stream).Some? ==> offers <= pos && offers < 4 + |Announced(stream).value|))
      && (handled != [] ==> Replying() && output == Framed(replies[0], overflow))
    }

    /** Let go: before its deadline only with the whole reply out, or because the peer gave no whole frame or broke off. */
    ghost predicate Gone(overflow: Bytes)
      reads this
    {
      && Orderly(overflow)
      && (!late && steady && Announced(stream).Some? ==> handled != [])
      && (!late && flowing && handled != [] ==> sent == Framed(replies[0], overflow))
    }

    /** A visit, with its history kept. */
    method Attend(io: nat -> Io, out: nat -> Io, handle: Bytes -> Bytes, overflow: Bytes) returns (keep: bool)
      requires Live(overflow)
      modifies this
      ensures if keep then Live(overflow) else Gone(overflow)
      ensures visits == old(visits) + 1 && offers == old(offers) + (if io(0).Gives? then 1 else 0)
      ensures steady == (old(steady) && Steady(io)) && flowing == (old(flowing) && Flowing(out)) && !late
      ensures old(handled) <= handled && old(replies) <= replies && old(sent) <= sent
      ensures handled != old(handled) ==> replies == [handle(handled[0])]
    {
      hide Announced, Framed, Steady, Flowing, Reading, Replying, Orderly;
      Phase(overflow);
      if output != [] {
        keep := AttendReply(out, overflow);
      } else {
        keep := AttendRequest(io, out, handle, overflow);
      }
      Tally(io, out);
    }

    /** What a visit adds to the history. */
    ghost method Tally(io: nat -> Io, out: nat -> Io)
      modifies this`visits, this`offers, this`steady, this`flowing
      ensures visits == old(visits) + 1 && offers == old(offers) + (if io(0).Gives? then 1 else 0)
      ensures steady == (old(steady) && Steady(io)) && flowing == (old(flowing) && Flowing(out))
    {
      visits, offers := visits + 1, offers + if io(0).Gives? then 1 else 0;
      steady, flowing := steady && Steady(io), flowing && Flowing(out);
    }

    /** A reply is pending exactly once a body has been handed out. */
    lemma Phase(overflow: Bytes)
      requires Live(overflow)
      ensures (output != [] <==> handled != []) && (handled == [] ==> replies == [] && sent == [])
    {
      hide Announced, Framed;
    }

    method AttendReply(out: nat -> Io, overflow: Bytes) returns (keep: bool)
      requires Live(overflow) && handled != []
      modifies this`written, this`sent
      ensures Orderly(overflow) && old(sent) <= sent
      ensures if keep then Replying() else Flowing(out) ==> sent == Framed(replies[0], overflow)
    {
      hide Announced, Framed, Flowing;
      keep := WriteReply(out);
    }

    method AttendRequest(io: nat -> Io, out: nat -> Io, handle: Bytes -> Bytes, overflow: Bytes) returns (keep: bool)
      requires Live(overflow) && handled == []
      modifies this`pos, this`header, this`body, this`output, this`written, this`sent, this`handled, this`replies
      ensures Orderly(overflow) && (handled != [] ==> replies == [handle(handled[0])])
      ensures handled != [] && keep ==> Replying() && output == Framed(replies[0], overflow)
      ensures handled != [] && !keep && Flowing(out) ==> sent == Framed(replies[0], overflow)
      ensures handled == [] && keep ==> Reading() && pos >= old(pos)
      ensures handled == [] && keep && Announced(stream).Some? ==>
                pos < 4 + |Announced(stream).value| && (io(0).Gives? ==> pos > old(pos))
      ensures handled == [] && !keep && Steady(io) ==> Announced(stream) == None
    {
      hide Framed, Flowing, Steady;
      if Announced(stream).Some? {
        Incomplete();
      }
      var got;
      keep, got := Visit(io, out, handle, overflow);
      if got.Some? {
        handled, replies := [got.value], [handle(got.value)];
      } else if keep && Announced(stream).Some? {
        Incomplete();
      }
    }

    /** The deadline has passed: no visit. */
    method Expire(overflow: Bytes)
      requires Live(overflow)
      modifies this`late
      ensures Gone(overflow) && late
    {
      late := true;
    }

    /** While the frame is not complete, less than the announced frame has been taken. */
    lemma Incomplete()
      requires Reading() && Announced(stream).Some?
      ensures pos < 4 + |Announced(stream).value| <= |stream|
    {
      if |header| == 4 {
        assert header == stream[..pos][..4] == stream[..4];
      }
    }
  }
}
