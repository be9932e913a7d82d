/** The daemon's tick: accepting connections and sweeping over those it has, fabric/src/spindle/server.rs. */
module Server {
  import opened Common
  import opened Framing

  /** Somebody at the listener: all they ever send, and whether they are the daemon's own user. */
  datatype Peer = Peer(stream: Bytes, own: bool)

  /** Those let in: the first of the daemon's own user, while there is room. */
  function Admitted(arrivals: seq<Peer>, room: nat): seq<Bytes> {
    if arrivals == [] || room == 0 then []
    else if arrivals[0].own then [arrivals[0].stream] + Admitted(arrivals[1..], room - 1)
    else Admitted(arrivals[1..], room)
  }

  function Own(arrivals: seq<Peer>): seq<Bytes> {
    if arrivals == [] then [] else (if arrivals[0].own then [arrivals[0].stream] else []) + Own(arrivals[1..])
  }

  lemma {:induction false} AdmittedFirst(arrivals: seq<Peer>, room: nat)
    ensures Admitted(arrivals, room) == Own(arrivals)[..Min(room, |Own(arrivals)|)]
  {
    if arrivals != [] {
      AdmittedFirst(arrivals[1..], if arrivals[0].own && room > 0 then room - 1 else room);
    }
  }

  /** Deadlines passed among the first n visits of a tick. */
  function Passed(w: Surroundings, n: nat): nat {
    if n == 0 then 0 else Passed(w, n - 1) + if w.expired(n - 1) then 1 else 0
  }

  function Streams(s: seq<Connection>): seq<Bytes> {
    seq(|s|, k requires 0 <= k < |s| => s[k].stream)
  }

  function Reversed<C>(s: seq<C>): seq<C> {
    seq(|s|, i requires 0 <= i < |s| => s[|s| - 1 - i])
  }

  ghost predicate Distinct<C>(s: seq<C>) {
    forall i, j :: 0 <= i < j < |s| ==> s[i] != s[j]
  }

  /** What the outside does during a tick; visits are counted from 0. */
  datatype Surroundings = Surroundings(
    accepting: bool,
    arrivals: seq<Peer>,
    expired: nat -> bool,
    io: nat -> nat -> Io,
    out: nat -> nat -> Io,
    handle: nat -> Bytes -> Bytes)

  class Daemon {
    const limit: nat
    const overflow: Bytes
    var connections: seq<Connection>
    var refusals: nat

    ghost predicate Valid()
      reads this, connections
    {
      && |connections| <= limit && Distinct(connections)
      && forall c :: c in connections ==> c.Live(overflow)
    }

    constructor (limit: nat, overflow: Bytes)
      ensures Valid() && connections == [] && this.limit == limit && this.overflow == overflow
    {
      this.limit, this.overflow := limit, overflow;
      connections, refusals := [], 0;
    }

    /** At most `limit` arrivals a tick; whoever is not let in is counted as refused. */
    method Accept(arrivals: seq<Peer>)
      requires Valid()
      modifies this
      ensures Valid() && old(connections) <= connections
      ensures forall c :: c in connections ==> c in old(connections) || fresh(c)
      ensures var newcomers := connections[|old(connections)|..];
        && Streams(newcomers) == Admitted(arrivals[..Min(limit, |arrivals|)], limit - |old(connections)|)
        && forall c :: c in newcomers ==> fresh(c) && c.visits == 0
      ensures refusals + |connections| == old(refusals) + |old(connections)| + Min(limit, |arrivals|)
    {
      hide Connection.Orderly, Connection.Live, Connection.Reading, Connection.Replying, Streams, Admitted;
      var n := Min(limit, |arrivals|);
      ghost var all, newcomers := Admitted(arrivals[..n], limit - |connections|), [];
      assert arrivals[0..n] == arrivals[..n];
      Nobody(limit - |connections|);
      for i := 0 to n
        invariant Valid() && connections == old(connections) + newcomers
        invariant forall c :: c in newcomers ==> fresh(c) && c.visits == 0
        invariant Streams(newcomers) + Admitted(arrivals[i..n], limit - |connections|) == all
        invariant refusals + |connections| == old(refusals) + |old(connections)| + i
      {
        AdmittedNext(arrivals[i..n], limit - |connections|);
        assert arrivals[i..n][1..] == arrivals[i + 1..n];
        if |connections| >= limit || !arrivals[i].own {
          refusals := refusals + 1;
        } else {
          var c := new Connection(arrivals[i].stream);
          NewIsLive(c);
          connections := connections + [c];
          StreamsNext(newcomers, c);
          newcomers := newcomers + [c];
        }
      }
      assert arrivals[n..n] == [] && connections[|old(connections)|..] == newcomers;
      Nobody(limit - |connections|);
    }

    lemma NewIsLive(c: Connection)
      requires c.Reading() && c.pos == 0 && c.handled == [] && c.replies == [] && c.offers == 0 && !c.late
      ensures c.Live(overflow)
    {
      if Announced(c.stream).Some? {
        c.Incomplete();
      }
    }

    /** Removes the element at the index by moving the last one into its place. */
    method SwapRemove(index: nat) returns (c: Connection)
      requires index < |connections|
      modifies this`connections
      ensures c == old(connections)[index] && connections == Without(old(connections), index)
    {
      var last := |connections| - 1;
      c := connections[index];
      connections := connections[index := connections[last]][..last];
    }

    /**
    The sweep of `tick`, removing from and pushing onto the list it runs down. Every connection there at the start is
    visited once, last first, unless its deadline has passed; those that have more to do stay, in whatever order, and the
    others are let go as they should be.
    */
    method Sweep(w: Surroundings) returns (ghost visited: seq<Connection>)
      requires Valid()
      modifies this, connections
      ensures Valid() && visited == Reversed(old(connections))
      ensures forall c :: c in connections ==> c in visited
      ensures forall c :: c in visited ==> c in connections || c.Gone(overflow)
      ensures forall j :: 0 <= j < |old(connections)| ==> Served(old(connections)[j], w, |old(connections)| - 1 - j)
      ensures forall c :: c in connections ==> !c.late
      ensures refusals == old(refusals) + Passed(w, |visited|)
    {
      hide Connection.Live, Connection.Gone, Reversed, Without, Distinct, Passed;
      PassedNone(w);
      visited := [];
      ghost var start := connections;
      var index: nat := |connections|;
      var n := index;
      while index > 0
        invariant n == |start| <= limit && index <= |connections| <= n && connections[..index] == start[..index]
        invariant Distinct(start) && Distinct(connections) && forall c :: c in connections ==> c in start && c.Live(overflow)
        invariant |visited| == n - index && forall k :: 0 <= k < |visited| ==> visited[k] == start[n - 1 - k]
        invariant forall c :: c in connections[index..] ==> c in visited
        invariant refusals == old(refusals) + Passed(w, n - index)
        invariant forall c :: c in visited ==> c in connections || c.Gone(overflow)
        invariant forall j :: 0 <= j < index ==> unchanged(start[j])
        invariant forall j :: index <= j < n ==> Served(start[j], w, n - 1 - j)
      {
        index := index - 1;
        ghost var before := connections;
        var connection := SwapRemove(index);
        SameBelow(before, start, index);
        PassedNext(w, n - 1 - index);
        WithoutIs(before, index);
        OnlyOnce(start, index);
        var keep := Attend(connection, w, n - 1 - index);
        visited := visited + [connection];
        if keep {
          PushedBack(connections, connection, index);
          connections := connections + [connection];
        }
      }
      ReversedIs(start, visited);
      NobodyLate();
    }

    /**
    A tick: newcomers are let in, then everybody is visited once. Whoever is let go has been served at most one request,
    the one it announced, and before its deadline is let go only with its reply or for not sending a frame. Every arrival
    is let in or counted as refused, and so is every deadline that passes.
    */
    method Tick(w: Surroundings) returns (ghost visited: seq<Connection>)
      requires Valid()
      modifies this, connections
      ensures Valid() && old(connections) <= Reversed(visited)
      ensures var newcomers := Reversed(visited)[|old(connections)|..];
        && Streams(newcomers)
           == (if w.accepting then Admitted(w.arrivals[..Min(limit, |w.arrivals|)], limit - |old(connections)|) else [])
        && forall c :: c in newcomers ==> fresh(c) && (c.late || c.visits == 1)
      ensures forall c :: c in connections || c in old(connections) ==> c in visited
      ensures forall c :: c in visited ==> c in old(connections) || fresh(c)
      ensures forall c :: c in visited ==> c in connections || c.Gone(overflow)
      ensures forall j :: 0 <= j < |old(connections)| ==> Served(old(connections)[j], w, |visited| - 1 - j)
      ensures forall c :: c in old(connections) && c in connections ==> c.visits == old(c.visits) + 1
      ensures refusals + |visited| == old(refusals) + |old(connections)| + Passed(w, |visited|)
                                      + if w.accepting then Min(limit, |w.arrivals|) else 0
    {
      hide Connection.Live, Connection.Gone, Admitted, Streams, Reversed, Distinct;
      if w.accepting {
        Accept(w.arrivals);
      }
      ghost var all := connections;
      assert forall k :: 0 <= k < |connections| ==> connections[k] in old(connections) || fresh(connections[k]);
      visited := Sweep(w);
      ReversedTwice(all);
      Nobody(0);
      assert !w.accepting ==> all[|old(connections)|..] == [];
      assert forall j :: 0 <= j < |old(connections)| ==> all[j] == old(connections)[j];
    }

    /**
    Over any ticks: never more connections than the limit; every connection there ever was is still served or was let
    go as it should be; and whoever is still served has been visited in every tick.
    */
    method Run(ticks: nat, w: nat -> Surroundings) returns (ghost ever: set<Connection>)
      requires Valid()
      modifies this, connections
      ensures Valid() && forall c :: c in old(connections) || c in connections ==> c in ever
      ensures forall c :: c in ever ==> c in connections || c.Gone(overflow)
      ensures forall c :: c in old(connections) && c in connections ==> c.visits == old(c.visits) + ticks
      ensures forall c :: c in ever ==> c in old(connections) || fresh(c)
    {
      hide Connection.Live, Connection.Gone, Admitted, Streams, Reversed;
      ever := set c | c in connections;
      for i := 0 to ticks
        invariant Valid() && forall c :: c in old(connections) || c in connections ==> c in ever
        invariant forall c :: c in ever ==> c in connections || c.Gone(overflow)
        invariant forall c :: c in old(connections) && c in connections ==> c.visits == old(c.visits) + i
        invariant forall c :: c in ever ==> c in old(connections) || fresh(c)
      {
        assert forall k :: 0 <= k < |connections| ==> connections[k] in old(connections) || fresh(connections[k]);
        ghost var visited := Tick(w(i));
        ever := ever + set c | c in visited;
      }
    }

    lemma NobodyLate()
      requires Valid()
      ensures forall c :: c in connections ==> !c.late
    {
    }

    /** One connection's turn, if its deadline has not passed. */
    method Attend(c: Connection, w: Surroundings, k: nat) returns (keep: bool)
      requires c.Live(overflow)
      modifies this`refusals, c
      ensures if keep then c.Live(overflow) else c.Gone(overflow)
      ensures Served(c, w, k)
      ensures refusals == old(refusals) + if w.expired(k) then 1 else 0
    {
      hide Connection.Orderly, Connection.Reading, Connection.Replying, Connection.Gone;
      if w.expired(k) {
        refusals := refusals + 1;
        c.Expire(overflow);
        keep := false;
      } else {
        keep := c.Attend(w.io(k), w.out(k), w.handle(k), overflow);
      }
    }
  }

  /** What the k-th turn does to a connection: one visit, or none when the deadline has passed. */
  twostate predicate Served(c: Connection, w: Surroundings, k: nat)
    reads c
  {
    && (c.late <==> w.expired(k))
    && (w.expired(k) ==>
          c.visits == old(c.visits) && c.offers == old(c.offers) && c.sent == old(c.sent) && c.handled == old(c.handled))
    && (!w.expired(k) ==>
          && c.visits == old(c.visits) + 1 && c.offers == old(c.offers) + (if w.io(k)(0).Gives? then 1 else 0)
          && old(c.sent) <= c.sent && old(c.handled) <= c.handled
          && (c.handled != old(c.handled) ==> c.replies == [w.handle(k)(c.handled[0])]))
  }

  function Without<C>(s: seq<C>, index: nat): seq<C>
    requires index < |s|
  {
    s[index := s[|s| - 1]][..|s| - 1]
  }

  /** What is taken out is gone from a list without repetition; below the index nothing moves, above it all the rest stays. */
  lemma WithoutIs<C>(s: seq<C>, index: nat)
    requires index < |s| && Distinct(s)
    ensures var t := Without(s, index);
      && |t| == |s| - 1 && Distinct(t) && s[index] !in t && t[..index] == s[..index]
      && (forall c :: c in t <==> c in s && c != s[index])
      && (forall c :: c in t[index..] ==> c in s[index + 1..])
  {
    var t := Without(s, index);
    forall c | c in s && c != s[index]
      ensures c in t
    {
      var k :| 0 <= k < |s| && s[k] == c;
      assert t[if k == |s| - 1 then index else k] == c;
    }
  }

  lemma PassedNone(w: Surroundings)
    ensures Passed(w, 0) == 0
  {
  }

  lemma PassedNext(w: Surroundings, n: nat)
    ensures Passed(w, n + 1) == Passed(w, n) + if w.expired(n) then 1 else 0
  {
  }

  lemma SameBelow<C>(a: seq<C>, b: seq<C>, n: nat)
    requires n < |a| && n < |b| && a[..n + 1] == b[..n + 1]
    ensures a[n] == b[n] && a[..n] == b[..n]
  {
    assert a[..n + 1][n] == b[..n + 1][n] && a[..n + 1][..n] == b[..n + 1][..n];
  }

  lemma OnlyOnce<C>(s: seq<C>, index: nat)
    requires index < |s| && Distinct(s)
    ensures forall j :: 0 <= j < |s| && j != index ==> s[j] != s[index]
  {
  }

  lemma PushedBack<C>(s: seq<C>, c: C, index: nat)
    requires index <= |s| && Distinct(s) && c !in s
    ensures var t := s + [c]; Distinct(t) && t[..index] == s[..index] && t[index..] == s[index..] + [c]
  {
  }

  lemma ReversedIs<C>(s: seq<C>, r: seq<C>)
    requires |r| == |s| && forall k :: 0 <= k < |r| ==> r[k] == s[|s| - 1 - k]
    ensures r == Reversed(s)
  {
  }

  lemma ReversedTwice<C>(s: seq<C>)
    ensures |Reversed(s)| == |s| && Reversed(Reversed(s)) == s && forall c :: c in Reversed(s) <==> c in s
  {
    forall c | c in s
      ensures c in Reversed(s)
    {
      var k :| 0 <= k < |s| && s[k] == c;
      assert Reversed(s)[|s| - 1 - k] == c;
    }
  }

  lemma Nobody(room: nat)
    ensures Admitted([], room) == [] && Streams([]) == []
  {
  }

  lemma AdmittedNext(arrivals: seq<Peer>, room: nat)
    requires arrivals != []
    ensures room == 0 || !arrivals[0].own ==> Admitted(arrivals, room) == Admitted(arrivals[1..], room)
    ensures room > 0 && arrivals[0].own ==> Admitted(arrivals, room) == [arrivals[0].stream] + Admitted(arrivals[1..], room - 1)
  {
  }

  lemma StreamsNext(s: seq<Connection>, c: Connection)
    ensures Streams(s + [c]) == Streams(s) + [c.stream]
  {
  }
}
