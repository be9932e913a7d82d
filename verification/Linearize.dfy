/**
The linearizability check of the admission queue's tests, `fifo_witness_exists` of fabric/src/admission/tests.rs: it
answers yes exactly when some total order of the recorded operations respects real time and runs a FIFO queue.
*/
module Linearize {
  import opened Common
  import opened Kahn

  datatype Event = Event(id: nat, start: nat, end: nat, ticket: nat)

  datatype Op = Put(e: Event) | Get(e: Event)

  // ---------------------------------------------------------------- what a witness is

  datatype Queue = Queue(ids: seq<nat>, taken: nat)

  /** Running the operations on a queue: a Get takes the front and is handed the next ticket. */
  function Play(order: seq<Op>): Option<Queue> {
    if order == [] then Some(Queue([], 0))
    else
      var q :- Play(order[..|order| - 1]);
      match order[|order| - 1]
      case Put(e) => Some(Queue(q.ids + [e.id], q.taken))
      case Get(e) => if q.ids != [] && q.ids[0] == e.id && q.taken == e.ticket then Some(Queue(q.ids[1..], q.taken + 1)) else None
  }

  /** No operation is placed after one that began only when it was over. */
  ghost predicate RealTime(order: seq<Op>) {
    forall j, k :: 0 <= j < k < |order| ==> order[k].e.end >= order[j].e.start
  }

  function Ops(enqueues: seq<Event>, dequeues: seq<Event>): seq<Op> {
    seq(|enqueues|, i requires 0 <= i < |enqueues| => Put(enqueues[i]))
    + seq(|dequeues|, i requires 0 <= i < |dequeues| => Get(dequeues[i]))
  }

  ghost predicate IsWitness(enqueues: seq<Event>, dequeues: seq<Event>, order: seq<Op>) {
    multiset(order) == multiset(Ops(enqueues, dequeues)) && RealTime(order) && Play(order).Some?
  }

  /** Unique ids, as many takes as offers, every operation takes time, and some order explains them all. */
  ghost predicate Linearizable(enqueues: seq<Event>, dequeues: seq<Event>) {
    && |enqueues| == |dequeues|
    && DistinctIds(enqueues)
    && (forall e :: e in enqueues + dequeues ==> e.start < e.end)
    && exists order :: IsWitness(enqueues, dequeues, order)
  }

  ghost predicate DistinctIds(events: seq<Event>) {
    forall j, k :: 0 <= j < k < |events| ==> events[j].id != events[k].id
  }

  // ---------------------------------------------------------------- sorting by ticket

  function Insert(e: Event, s: seq<Event>): seq<Event> {
    if s == [] || e.ticket < s[0].ticket then [e] + s else [s[0]] + Insert(e, s[1..])
  }

  /** A stable sort. */
  function SortByTicket(s: seq<Event>): seq<Event> {
    if s == [] then [] else Insert(s[|s| - 1], SortByTicket(s[..|s| - 1]))
  }

  ghost predicate SortedByTicket(s: seq<Event>) {
    forall j, k :: 0 <= j < k < |s| ==> s[j].ticket <= s[k].ticket
  }

  lemma {:induction false} InsertContents(e: Event, s: seq<Event>)
    ensures multiset(Insert(e, s)) == multiset(s) + multiset{e}
    ensures forall x :: x in Insert(e, s) ==> x == e || x in s
  {
    if !(s == [] || e.ticket < s[0].ticket) {
      InsertContents(e, s[1..]);
      assert s == [s[0]] + s[1..];
    }
  }

  lemma {:induction false} InsertSorts(e: Event, s: seq<Event>)
    requires SortedByTicket(s)
    ensures SortedByTicket(Insert(e, s))
  {
    if !(s == [] || e.ticket < s[0].ticket) {
      InsertSorts(e, s[1..]);
      InsertContents(e, s[1..]);
      var r := Insert(e, s[1..]);
      forall k | 0 <= k < |r|
        ensures s[0].ticket <= r[k].ticket
      {
        assert r[k] in r;
        if r[k] in s[1..] {
          var j :| 0 <= j < |s[1..]| && s[1..][j] == r[k];
          assert s[j + 1] == r[k];
        }
      }
    }
  }

  lemma {:induction false} SortHolds(s: seq<Event>)
    ensures SortedByTicket(SortByTicket(s)) && multiset(SortByTicket(s)) == multiset(s)
  {
    if s != [] {
      var init, last := s[..|s| - 1], s[|s| - 1];
      assert s == init + [last];
      SortHolds(init);
      InsertContents(last, SortByTicket(init));
      InsertSorts(last, SortByTicket(init));
    }
  }

  ghost predicate Ticketed(s: seq<Event>) {
    forall k :: 0 <= k < |s| ==> s[k].ticket == k
  }

  /** The last of both is the same. */
  lemma SameLast(a: seq<Event>, b: seq<Event>)
    requires SortedByTicket(a) && Ticketed(b) && multiset(a) == multiset(b) && a != [] && b != []
    ensures a[|a| - 1] == b[|b| - 1]
  {
    var x, y := a[|a| - 1], b[|b| - 1];
    assert x in multiset(b) && y in multiset(a);
    var k :| 0 <= k < |b| && b[k] == x;
    var j :| 0 <= j < |a| && a[j] == y;
    assert a[j].ticket <= x.ticket;
  }

  lemma ButLast(a: seq<Event>)
    requires a != []
    ensures multiset(a) == multiset(a[..|a| - 1]) + multiset{a[|a| - 1]}
    ensures SortedByTicket(a) ==> SortedByTicket(a[..|a| - 1])
    ensures Ticketed(a) ==> Ticketed(a[..|a| - 1])
  {
    assert a == a[..|a| - 1] + [a[|a| - 1]];
  }

  lemma Cancel<T>(a: multiset<T>, b: multiset<T>, x: T)
    requires a + multiset{x} == b + multiset{x}
    ensures a == b
  {
    assert a == a + multiset{x} - multiset{x};
    assert b == b + multiset{x} - multiset{x};
  }

  lemma SameCount(a: seq<Event>, b: seq<Event>)
    requires multiset(a) == multiset(b)
    ensures |a| == |b|
  {
    assert |multiset(a)| == |a| && |multiset(b)| == |b|;
  }

  /** Tickets 0, 1, 2, .. leave one sorted order. */
  lemma {:induction false} SortUnique(a: seq<Event>, b: seq<Event>)
    requires SortedByTicket(a) && Ticketed(b) && multiset(a) == multiset(b)
    ensures a == b
    decreases |a|
  {
    hide SortedByTicket, Ticketed;
    SameCount(a, b);
    if a != [] {
      SameLast(a, b);
      ButLast(a);
      ButLast(b);
      var a', b', x := a[..|a| - 1], b[..|b| - 1], a[|a| - 1];
      Cancel(multiset(a'), multiset(b'), x);
      SortUnique(a', b');
      assert a == a' + [x] && b == b' + [x];
    }
  }

  // ---------------------------------------------------------------- what a queue run looks like

  function Puts(order: seq<Op>): seq<Event> {
    if order == [] then []
    else Puts(order[..|order| - 1]) + if order[|order| - 1].Put? then [order[|order| - 1].e] else []
  }

  function Gets(order: seq<Op>): seq<Event> {
    if order == [] then []
    else Gets(order[..|order| - 1]) + if order[|order| - 1].Get? then [order[|order| - 1].e] else []
  }

  function Ids(events: seq<Event>): seq<nat> {
    seq(|events|, i requires 0 <= i < |events| => events[i].id)
  }

  /** The k-th Get returns the k-th Put under ticket k. */
  ghost predicate Matched(puts: seq<Event>, gets: seq<Event>) {
    |gets| <= |puts| && forall k :: 0 <= k < |gets| ==> gets[k].id == puts[k].id && gets[k].ticket == k
  }

  lemma {:induction false} PlayForm(order: seq<Op>)
    ensures Play(order).Some? ==>
      var puts, gets := Puts(order), Gets(order);
      Matched(puts, gets) && Play(order).value == Queue(Ids(puts)[|gets|..], |gets|)
  {
    if order != [] {
      var init, last := order[..|order| - 1], order[|order| - 1];
      PlayForm(init);
      if Play(order).Some? {
        var puts, gets := Puts(init), Gets(init);
        if last.Put? {
          assert Ids(puts + [last.e]) == Ids(puts) + [last.e.id];
        } else {
          assert Ids(puts)[|gets|] == last.e.id && puts + [] == puts;
        }
      }
    }
  }

  /** And conversely, an order in which every Get finds its match waiting can be played. */
  lemma {:induction false} FormPlays(order: seq<Op>)
    requires forall k :: 0 <= k <= |order| ==> Matched(Puts(order[..k]), Gets(order[..k]))
    ensures Play(order).Some?
  {
    if order != [] {
      var init, last := order[..|order| - 1], order[|order| - 1];
      forall k | 0 <= k <= |init|
        ensures Matched(Puts(init[..k]), Gets(init[..k]))
      {
        assert init[..k] == order[..k];
      }
      FormPlays(init);
      PlayForm(init);
      assert order[..|order|] == order;
      assert Matched(Puts(order), Gets(order));
      var puts, gets := Puts(init), Gets(init);
      if last.Get? {
        assert Gets(order) == gets + [last.e] && Puts(order) == puts;
        assert Gets(order)[|gets|] == last.e;
        assert Ids(puts)[|gets|..][0] == last.e.id;
      }
    }
  }

  lemma {:induction false} CountPuts(order: seq<Op>, e: Event)
    ensures multiset(Puts(order))[e] == multiset(order)[Put(e)]
  {
    if order != [] {
      var init, last := order[..|order| - 1], order[|order| - 1];
      CountPuts(init, e);
      assert order == init + [last];
      assert multiset(order) == multiset(init) + multiset{last};
      assert Puts(init) + [] == Puts(init);
      assert multiset(Puts(init) + [last.e]) == multiset(Puts(init)) + multiset{last.e};
    }
  }

  lemma {:induction false} CountGets(order: seq<Op>, e: Event)
    ensures multiset(Gets(order))[e] == multiset(order)[Get(e)]
  {
    if order != [] {
      var init, last := order[..|order| - 1], order[|order| - 1];
      CountGets(init, e);
      assert order == init + [last];
      assert multiset(order) == multiset(init) + multiset{last};
      assert Gets(init) + [] == Gets(init);
      assert multiset(Gets(init) + [last.e]) == multiset(Gets(init)) + multiset{last.e};
    }
  }

  lemma {:induction false} CountAll(order: seq<Op>)
    ensures |Puts(order)| + |Gets(order)| == |order|
  {
    if order != [] {
      CountAll(order[..|order| - 1]);
    }
  }

  lemma {:induction false} CountList(events: seq<Event>, e: Event)
    ensures multiset(seq(|events|, i requires 0 <= i < |events| => Put(events[i])))[Put(e)] == multiset(events)[e]
    ensures multiset(seq(|events|, i requires 0 <= i < |events| => Put(events[i])))[Get(e)] == 0
    ensures multiset(seq(|events|, i requires 0 <= i < |events| => Get(events[i])))[Get(e)] == multiset(events)[e]
    ensures multiset(seq(|events|, i requires 0 <= i < |events| => Get(events[i])))[Put(e)] == 0
  {
    var puts := seq(|events|, i requires 0 <= i < |events| => Put(events[i]));
    var gets := seq(|events|, i requires 0 <= i < |events| => Get(events[i]));
    if events != [] {
      var init := events[..|events| - 1];
      CountList(init, e);
      assert events == init + [events[|events| - 1]];
      assert puts == seq(|init|, i requires 0 <= i < |init| => Put(init[i])) + [Put(events[|events| - 1])];
      assert gets == seq(|init|, i requires 0 <= i < |init| => Get(init[i])) + [Get(events[|events| - 1])];
    }
  }

  /** The operations of an order are these lists' exactly if its Puts and Gets are. */
  lemma SameOps(order: seq<Op>, enqueues: seq<Event>, dequeues: seq<Event>)
    ensures multiset(order) == multiset(Ops(enqueues, dequeues))
       <==> multiset(Puts(order)) == multiset(enqueues) && multiset(Gets(order)) == multiset(dequeues)
  {
    var all := multiset(Ops(enqueues, dequeues));
    forall e: Event
      ensures multiset(Puts(order))[e] == multiset(order)[Put(e)] && multiset(Gets(order))[e] == multiset(order)[Get(e)]
      ensures multiset(enqueues)[e] == all[Put(e)] && multiset(dequeues)[e] == all[Get(e)]
    {
      CountPuts(order, e);
      CountGets(order, e);
      CountList(enqueues, e);
      CountList(dequeues, e);
    }
    if multiset(Puts(order)) == multiset(enqueues) && multiset(Gets(order)) == multiset(dequeues) {
      forall op: Op
        ensures multiset(order)[op] == all[op]
      {
        assert op == Put(op.e) || op == Get(op.e);
      }
    }
    if multiset(order) == all {
      assert forall e: Event :: multiset(Puts(order))[e] == multiset(enqueues)[e];
      assert forall e: Event :: multiset(Gets(order))[e] == multiset(dequeues)[e];
    }
  }

  // ---------------------------------------------------------------- the graph

  /** Offers and takes paired in ticket order; node k is the k-th offer, node n + k the k-th take. */
  ghost predicate Arranged(offers: seq<Event>, takes: seq<Event>) {
    && |offers| == |takes| && Matched(offers, takes)
    && (forall e :: e in offers + takes ==> e.start < e.end)
  }

  predicate Chain(n: nat, a: nat, b: nat) {
    (a < n && b == a + n) || (a + 1 < n && b == a + 1) || (n <= a && a + 1 < 2 * n && b == a + 1)
  }

  predicate Link(offers: seq<Event>, takes: seq<Event>, a: nat, b: nat)
    requires a < |offers + takes| && b < |offers + takes|
  {
    Chain(|offers|, a, b) || (offers + takes)[a].end < (offers + takes)[b].start
  }

  ghost predicate Drawn(edges: Graph, offers: seq<Event>, takes: seq<Event>) {
    && |edges| == |offers + takes| && Closed(edges)
    && forall a, b :: 0 <= a < |edges| && 0 <= b < |edges| ==> (b in edges[a] <==> Link(offers, takes, a, b))
  }

  function OpAt(offers: seq<Event>, takes: seq<Event>, k: nat): Op
    requires k < |offers + takes|
  {
    if k < |offers| then Put(offers[k]) else Get(takes[k - |offers|])
  }

  // ---------------------------------------------------------------- a topological order is a witness

  ghost function Along(offers: seq<Event>, takes: seq<Event>, nodes: seq<nat>): seq<Op>
    requires forall k :: 0 <= k < |nodes| ==> nodes[k] < |offers + takes|
  {
    seq(|nodes|, k requires 0 <= k < |nodes| => OpAt(offers, takes, nodes[k]))
  }

  /** The first p offers and the first g takes have been visited. */
  ghost predicate Reached(nodes: seq<nat>, n: nat, p: nat, g: nat) {
    forall x :: x in nodes <==> 0 <= x < p || n <= x < n + g
  }

  lemma ReachedNext(nodes: seq<nat>, n: nat, p: nat, g: nat, x: nat)
    requires Reached(nodes, n, p, g) && p <= n
    ensures x == p < n ==> Reached(nodes + [x], n, p + 1, g)
    ensures x == n + g ==> Reached(nodes + [x], n, p, g + 1)
  {
  }

  /** The operations along a topological order of the graph of these offers and takes. */
  ghost predicate Ordered(offers: seq<Event>, takes: seq<Event>, edges: Graph, nodes: seq<nat>, order: seq<Op>) {
    && |offers| == |takes| && Drawn(edges, offers, takes) && Topological(edges, nodes)
    && |order| == |nodes| && order == Along(offers, takes, nodes)
  }

  /** A prefix of a topological order holds the first p offers and the first g takes, g at most p. */
  lemma {:induction false} PrefixForm(offers: seq<Event>, takes: seq<Event>, edges: Graph, nodes: seq<nat>, order: seq<Op>, k: nat)
    returns (p: nat, g: nat)
    requires Ordered(offers, takes, edges, nodes, order) && k <= |nodes| && |order| == |nodes|
    ensures g <= p <= |offers| && g <= |takes| && p + g == k
    ensures Puts(order[..k]) == offers[..p] && Gets(order[..k]) == takes[..g]
    ensures Reached(nodes[..k], |offers|, p, g)
    decreases k
  {
    if k == 0 {
      p, g := 0, 0;
    } else {
      hide *;
      var p', g' := PrefixForm(offers, takes, edges, nodes, order, k - 1);
      p, g := OneMore(offers, takes, edges, nodes, order, k - 1, p', g');
    }
  }

  lemma OneMore(offers: seq<Event>, takes: seq<Event>, edges: Graph, nodes: seq<nat>, order: seq<Op>, k: nat, p: nat, g: nat)
    returns (p': nat, g': nat)
    requires Ordered(offers, takes, edges, nodes, order) && k < |nodes| && |order| == |nodes|
    requires g <= p <= |offers| && g <= |takes| && p + g == k
    requires Puts(order[..k]) == offers[..p] && Gets(order[..k]) == takes[..g] && Reached(nodes[..k], |offers|, p, g)
    ensures g' <= p' <= |offers| && g' <= |takes| && p' + g' == k + 1
    ensures Puts(order[..k + 1]) == offers[..p'] && Gets(order[..k + 1]) == takes[..g']
    ensures Reached(nodes[..k + 1], |offers|, p', g')
  {
    hide *;
    NextOp(offers, takes, edges, nodes, order, k, p, g);
    Longer(order, k + 1);
    TakeOneMore(nodes, k);
    ReachedNext(nodes[..k], |offers|, p, g, nodes[k]);
    if nodes[k] < |offers| {
      TakeOneMore(offers, p);
      p', g' := p + 1, g;
    } else {
      TakeOneMore(takes, g);
      p', g' := p, g + 1;
    }
  }

  lemma TakeOneMore<T>(s: seq<T>, n: nat)
    requires n < |s|
    ensures s[..n + 1] == s[..n] + [s[n]]
  {
  }

  lemma NextOp(offers: seq<Event>, takes: seq<Event>, edges: Graph, nodes: seq<nat>, order: seq<Op>, k: nat, p: nat, g: nat)
    requires Ordered(offers, takes, edges, nodes, order) && k < |nodes| && |order| == |nodes|
    requires Reached(nodes[..k], |offers|, p, g) && g <= p <= |offers|
    ensures |takes| == |offers|
    ensures if nodes[k] < |offers| then nodes[k] == p && order[k] == Put(offers[p])
            else nodes[k] == |offers| + g && g < p && order[k] == Get(takes[g])
  {
    NextNode(offers, takes, edges, nodes, k, p, g);
    hide Drawn, Reached;
  }

  lemma Longer(order: seq<Op>, k: nat)
    requires 0 < k <= |order|
    ensures Puts(order[..k]) == Puts(order[..k - 1]) + if order[k - 1].Put? then [order[k - 1].e] else []
    ensures Gets(order[..k]) == Gets(order[..k - 1]) + if order[k - 1].Get? then [order[k - 1].e] else []
  {
    assert order[..k][..k - 1] == order[..k - 1];
  }

  lemma NextNode(offers: seq<Event>, takes: seq<Event>, edges: Graph, nodes: seq<nat>, k: nat, p: nat, g: nat)
    requires |offers| == |takes| && Drawn(edges, offers, takes) && Topological(edges, nodes) && k < |nodes|
    requires Reached(nodes[..k], |offers|, p, g)
    requires g <= p <= |offers|
    ensures var x := nodes[k]; x == if x < |offers| then p else |offers| + g
    ensures nodes[k] >= |offers| ==> g < p
  {
    var n, x := |offers|, nodes[k];
    assert x !in nodes[..k];
    if x < n {
      if x > 0 {
        assert Link(offers, takes, x - 1, x);
        assert x - 1 in nodes[..k];
      }
    } else {
      assert Link(offers, takes, x - n, x);
      assert x - n in nodes[..k];
      if x > n {
        assert Link(offers, takes, x - 1, x);
        assert x - 1 in nodes[..k];
      }
    }
  }

  lemma OrderPlays(offers: seq<Event>, takes: seq<Event>, edges: Graph, nodes: seq<nat>, order: seq<Op>)
    requires Arranged(offers, takes) && Ordered(offers, takes, edges, nodes, order)
    ensures Play(order).Some?
  {
    hide Puts, Gets, Play, Drawn, Topological;
    forall k | 0 <= k <= |order|
      ensures Matched(Puts(order[..k]), Gets(order[..k]))
    {
      var p, g := PrefixForm(offers, takes, edges, nodes, order, k);
    }
    FormPlays(order);
  }

  lemma OrderComplete(offers: seq<Event>, takes: seq<Event>, edges: Graph, nodes: seq<nat>, order: seq<Op>)
    requires Ordered(offers, takes, edges, nodes, order)
    ensures multiset(order) == multiset(Ops(offers, takes))
  {
    hide Puts, Gets;
    var p, g := PrefixForm(offers, takes, edges, nodes, order, |order|);
    assert order[..|order|] == order && offers[..|offers|] == offers && takes[..|takes|] == takes;
    SameOps(order, offers, takes);
  }

  lemma OrderRealTime(offers: seq<Event>, takes: seq<Event>, edges: Graph, nodes: seq<nat>, order: seq<Op>)
    requires Ordered(offers, takes, edges, nodes, order)
    ensures RealTime(order)
  {
    forall j, k | 0 <= j < k < |order|
      ensures order[k].e.end >= order[j].e.start
    {
      assert nodes[j] in edges[nodes[k]] <==> Link(offers, takes, nodes[k], nodes[j]);
      assert nodes[k] !in nodes[..j];
    }
  }

  lemma TopologicalIsWitness(offers: seq<Event>, takes: seq<Event>, edges: Graph, nodes: seq<nat>, order: seq<Op>)
    requires Arranged(offers, takes) && Ordered(offers, takes, edges, nodes, order)
    ensures IsWitness(offers, takes, order)
  {
    hide Arranged, Ordered, RealTime, Play;
    OrderPlays(offers, takes, edges, nodes, order);
    OrderComplete(offers, takes, edges, nodes, order);
    OrderRealTime(offers, takes, edges, nodes, order);
  }

  // ---------------------------------------------------------------- a witness is a topological order

  ghost function NodesOf(order: seq<Op>, n: nat): seq<nat> {
    seq(|order|, k requires 0 <= k < |order| =>
      if order[k].Put? then |Puts(order[..k])| else n + |Gets(order[..k])|)
  }

  lemma {:induction false} CountsGrow(order: seq<Op>, j: nat, k: nat)
    requires j <= k <= |order|
    ensures Puts(order[..j]) <= Puts(order[..k]) && Gets(order[..j]) <= Gets(order[..k])
    ensures j < k && order[j].Put? ==> |Puts(order[..j])| < |Puts(order[..k])| && Puts(order[..k])[|Puts(order[..j])|] == order[j].e
    ensures j < k && order[j].Get? ==> |Gets(order[..j])| < |Gets(order[..k])| && Gets(order[..k])[|Gets(order[..j])|] == order[j].e
    decreases k
  {
    if j < k {
      assert order[..k][..k - 1] == order[..k - 1] && order[..k][k - 1] == order[k - 1];
      CountsGrow(order, j, k - 1);
    }
  }

  lemma {:induction false} PrefixPlays(order: seq<Op>, k: nat)
    requires Play(order).Some? && k <= |order|
    ensures Play(order[..k]).Some?
    decreases |order|
  {
    if k < |order| {
      PrefixPlays(order[..|order| - 1], k);
      assert order[..|order| - 1][..k] == order[..k];
    } else {
      assert order[..k] == order;
    }
  }

  lemma NodesNamed(order: seq<Op>, offers: seq<Event>, takes: seq<Event>, k: nat)
    requires Puts(order) == offers && Gets(order) == takes && |offers| == |takes| && k < |order|
    ensures var x := NodesOf(order, |offers|)[k];
      x < |offers + takes| && OpAt(offers, takes, x) == order[k] && (offers + takes)[x] == order[k].e
      && (x < |offers| <==> order[k].Put?)
  {
    assert order[..|order|] == order;
    CountsGrow(order, k, |order|);
  }

  lemma NodesDiffer(order: seq<Op>, offers: seq<Event>, takes: seq<Event>, j: nat, k: nat)
    requires Puts(order) == offers && Gets(order) == takes && |offers| == |takes| && j < k < |order|
    ensures var nodes := NodesOf(order, |offers|);
      nodes[j] != nodes[k] && (nodes[j] < |offers| <==> order[j].Put?) && (order[j].Put? == order[k].Put? ==> nodes[j] < nodes[k])
  {
    NodesNamed(order, offers, takes, j);
    NodesNamed(order, offers, takes, k);
    CountsGrow(order, j, k);
  }

  lemma WitnessIsTopological(offers: seq<Event>, takes: seq<Event>, edges: Graph, order: seq<Op>)
    requires Arranged(offers, takes) && Drawn(edges, offers, takes)
    requires Puts(order) == offers && Gets(order) == takes && Play(order).Some? && RealTime(order)
    ensures Topological(edges, NodesOf(order, |offers|))
  {
    hide Puts, Gets, Play;
    var nodes := NodesOf(order, |offers|);
    CountAll(order);
    forall k | 0 <= k < |order|
      ensures nodes[k] < |edges|
    {
      NodesNamed(order, offers, takes, k);
    }
    forall j, k | 0 <= j < k < |nodes|
      ensures nodes[j] != nodes[k]
    {
      NodesDiffer(order, offers, takes, j, k);
    }
    DistinctBelow(nodes, |edges|);
    forall a, k | 0 <= a < |edges| && 0 <= k < |nodes| && nodes[k] in edges[a]
      ensures a in nodes[..k]
    {
      assert a in nodes;
      var j :| 0 <= j < |nodes| && nodes[j] == a;
      LinkForward(offers, takes, order, j, k);
      assert nodes[..k][j] == a;
    }
  }

  /** Every link points forward in a witness. */
  lemma LinkForward(offers: seq<Event>, takes: seq<Event>, order: seq<Op>, j: nat, k: nat)
    requires Arranged(offers, takes)
    requires Puts(order) == offers && Gets(order) == takes && Play(order).Some? && RealTime(order)
    requires j < |order| && k < |order|
    requires var nodes := NodesOf(order, |offers|);
      nodes[j] < |offers + takes| && nodes[k] < |offers + takes| && Link(offers, takes, nodes[j], nodes[k])
    ensures j < k
  {
    var n, nodes := |offers|, NodesOf(order, |offers|);
    NodesNamed(order, offers, takes, j);
    NodesNamed(order, offers, takes, k);
    assert order[k].e in offers + takes;
    if k < j {
      NodesDiffer(order, offers, takes, k, j);
      if nodes[k] == nodes[j] + n {
        GetAfterPut(order, k);
        CountsGrow(order, k, j);
      }
    }
  }

  /** When a Get happens more has been put than taken. */
  lemma GetAfterPut(order: seq<Op>, k: nat)
    requires Play(order).Some? && k < |order| && order[k].Get?
    ensures |Gets(order[..k])| < |Puts(order[..k])|
  {
    PrefixPlays(order, k + 1);
    PlayForm(order[..k + 1]);
    assert order[..k + 1][..k] == order[..k];
  }

  // ---------------------------------------------------------------- what the checks before the graph decide

  /** Any witness puts the offers in ticket order and takes them in ticket order. */
  lemma WitnessArranges(enqueues: seq<Event>, dequeues: seq<Event>, order: seq<Op>)
    requires |enqueues| == |dequeues| && DistinctIds(enqueues) && IsWitness(enqueues, dequeues, order)
    ensures Gets(order) == SortByTicket(dequeues) && Ticketed(Gets(order))
    ensures multiset(Puts(order)) == multiset(enqueues) && |Puts(order)| == |Gets(order)| == |enqueues|
    ensures Matched(Puts(order), Gets(order)) && DistinctIds(Puts(order))
  {
    hide Puts, Gets, Play, SortByTicket;
    SameOps(order, enqueues, dequeues);
    PlayForm(order);
    SortHolds(dequeues);
    SortUnique(SortByTicket(dequeues), Gets(order));
    SameCount(Puts(order), enqueues);
    SameCount(Gets(order), dequeues);
    SameIds(enqueues, Puts(order));
  }

  /** Distinct ids are a matter of contents, not of order. */
  lemma SameIds(a: seq<Event>, b: seq<Event>)
    requires multiset(a) == multiset(b) && DistinctIds(a)
    ensures DistinctIds(b)
  {
    forall j, k | 0 <= j < k < |b|
      ensures b[j].id != b[k].id
    {
      var rest := b[..k] + b[k + 1..];
      assert b == b[..k] + [b[k]] + b[k + 1..];
      assert multiset(b) == multiset(rest) + multiset{b[k]};
      assert rest[j] == b[j] && b[j] in multiset(rest);
      assert b[j] in multiset(a) && b[k] in multiset(a);
      var x :| 0 <= x < |a| && a[x] == b[j];
      var y :| 0 <= y < |a| && a[y] == b[k];
      if b[j] == b[k] {
        assert multiset(a)[b[k]] >= 2;
        OnlyOnce(a, x);
      }
    }
  }

  lemma OnlyOnce(a: seq<Event>, x: nat)
    requires DistinctIds(a) && x < |a|
    ensures multiset(a)[a[x]] == 1
  {
    assert a == a[..x] + [a[x]] + a[x + 1..];
    assert a[x] !in a[..x] && a[x] !in a[x + 1..];
    assert multiset(a) == multiset(a[..x]) + multiset{a[x]} + multiset(a[x + 1..]);
  }

  /** The event of each id; fewer than the list exactly if an id repeats. */
  ghost predicate Indexed(offers: map<nat, Event>, enqueues: seq<Event>) {
    && (forall k :: 0 <= k < |enqueues| ==> enqueues[k].id in offers)
    && (forall id :: id in offers ==> offers[id].id == id && offers[id] in enqueues)
    && |offers| <= |enqueues| && (|offers| == |enqueues| <==> DistinctIds(enqueues))
  }

  lemma IndexedNext(offers: map<nat, Event>, enqueues: seq<Event>, e: Event)
    requires Indexed(offers, enqueues)
    ensures Indexed(offers[e.id := e], enqueues + [e])
  {
    var more, offers' := enqueues + [e], offers[e.id := e];
    if e.id in offers {
      var k :| 0 <= k < |enqueues| && enqueues[k] == offers[e.id];
      assert more[k].id == more[|enqueues|].id;
      assert offers'.Keys == offers.Keys;
      assert |offers'| == |offers'.Keys| && |offers| == |offers.Keys|;
    } else {
      assert offers'.Keys == offers.Keys + {e.id};
      assert |offers'| == |offers'.Keys| == |offers.Keys| + 1;
      assert forall j, k :: 0 <= j < k < |enqueues| ==> more[j] == enqueues[j] && more[k] == enqueues[k];
    }
  }

  lemma IdSetSnoc(init: seq<Event>, last: Event)
    ensures var takes := init + [last];
      (set k | 0 <= k < |takes| :: takes[k].id) == (set k | 0 <= k < |init| :: init[k].id) + {last.id}
    ensures var ids := set k | 0 <= k < |init| :: init[k].id;
      DistinctIds(init + [last]) <==> DistinctIds(init) && last.id !in ids
  {
    var takes := init + [last];
    var ids := set k | 0 <= k < |init| :: init[k].id;
    assert forall k :: 0 <= k < |init| ==> takes[k] == init[k];
    assert takes[|init|] == last;
    if DistinctIds(takes) {
      assert forall j, k :: 0 <= j < k < |init| ==> takes[j].id != takes[k].id;
    }
    if last.id in ids {
      var k :| 0 <= k < |init| && init[k].id == last.id;
      assert takes[k].id == takes[|init|].id;
    }
  }

  lemma {:induction false} IdSet(takes: seq<Event>)
    ensures var ids := set k | 0 <= k < |takes| :: takes[k].id;
      |ids| <= |takes| && (|ids| == |takes| <==> DistinctIds(takes))
  {
    var ids := set k | 0 <= k < |takes| :: takes[k].id;
    if takes != [] {
      var init, last := takes[..|takes| - 1], takes[|takes| - 1];
      IdSet(init);
      var before := set k | 0 <= k < |init| :: init[k].id;
      IdSetSnoc(init, last);
      assert takes == init + [last];
      if last.id in before {
        assert ids == before;
      } else {
        assert |ids| == |before| + 1;
      }
    }
  }

  /** Distinct events, each from a list of as many distinct ones, are that list rearranged. */
  lemma Rearranged(a: seq<Event>, b: seq<Event>)
    requires DistinctIds(a) && |a| == |b| && forall k :: 0 <= k < |a| ==> a[k] in b
    ensures multiset(a) == multiset(b)
  {
    var x, y := multiset(a), multiset(b);
    forall e: Event
      ensures x[e] <= y[e]
    {
      if e in a {
        var k :| 0 <= k < |a| && a[k] == e;
        OnlyOnce(a, k);
        assert e in y;
      }
    }
    hide DistinctIds;
    assert x <= y;
    assert y == x + (y - x) && |y| == |x| + |y - x|;
  }

  // ---------------------------------------------------------------- drawing the graph

  /** What has been drawn so far: chains of the first i pairs, and real-time links before (r, c). */
  ghost predicate Partly(edges: Graph, indegree: seq<nat>, events: seq<Event>, n: nat, i: nat, r: nat, c: nat) {
    && |edges| == |indegree| == |events| == 2 * n && Closed(edges)
    && (forall j :: 0 <= j < |edges| ==> indegree[j] == InDegree(edges, {}, j))
    && forall a, b :: 0 <= a < |edges| && 0 <= b < |edges| ==>
         (b in edges[a] <==> ChainBelow(n, i, a, b) || ((a < r || (a == r && b < c)) && events[a].end < events[b].start))
  }

  predicate ChainBelow(n: nat, i: nat, a: nat, b: nat) {
    Chain(n, a, b) && if a < n then a < i else a - n < i
  }

  /** The links the chain loop draws in its i-th turn. */
  predicate ChainLink(n: nat, i: nat, a: nat, b: nat) {
    (a == i && b == n + i) || (i + 1 < n && ((a == i && b == i + 1) || (a == n + i && b == n + i + 1)))
  }

  /** One call of the closure `edge`. */
  method Draw(edges: Graph, indegree: array<nat>, a: nat, b: nat) returns (edges': Graph)
    requires a < |edges| == indegree.Length && b < |edges| && Closed(edges)
    requires forall j :: 0 <= j < |edges| ==> indegree[j] == InDegree(edges, {}, j)
    modifies indegree
    ensures edges' == edges[a := edges[a] + [b]] && Closed(edges')
    ensures forall j :: 0 <= j < |edges'| ==> indegree[j] == InDegree(edges', {}, j)
    ensures forall x, y :: 0 <= x < |edges'| ==> (y in edges'[x] <==> y in edges[x] || (x == a && y == b))
  {
    edges' := edges[a := edges[a] + [b]];
    indegree[b] := indegree[b] + 1;
    forall j | 0 <= j < |edges'|
      ensures InDegree(edges', {}, j) == InDegree(edges, {}, j) + if j == b then 1 else 0
    {
      EdgeAdded(edges, a, b, j, |edges|);
    }
  }

  method DrawChains(events: seq<Event>, n: nat, indegree: array<nat>) returns (edges: Graph)
    requires |events| == 2 * n == indegree.Length && forall j :: 0 <= j < indegree.Length ==> indegree[j] == 0
    modifies indegree
    ensures Partly(edges, indegree[..], events, n, n, 0, 0)
  {
    hide InDegree;
    edges := seq(2 * n, _ => []);
    NoEdgesYet(edges);
    for i := 0 to n
      invariant Partly(edges, indegree[..], events, n, i, 0, 0)
    {
      assert forall a, b :: ChainBelow(n, i + 1, a, b) <==> ChainBelow(n, i, a, b) || ChainLink(n, i, a, b);
      edges := Draw(edges, indegree, i, n + i);
      if i + 1 < n {
        edges := Draw(edges, indegree, i, i + 1);
        edges := Draw(edges, indegree, n + i, n + i + 1);
      }
      assert |edges| == 2 * n && Closed(edges);
      assert forall j :: 0 <= j < |edges| ==> indegree[..][j] == InDegree(edges, {}, j);
      assert forall a, b :: 0 <= a < |edges| && 0 <= b < |edges| ==> (b in edges[a] <==> ChainBelow(n, i, a, b) || ChainLink(n, i, a, b));
    }
  }

  lemma NoEdgesYet(edges: Graph)
    requires forall a :: 0 <= a < |edges| ==> edges[a] == []
    ensures forall j :: 0 <= j < |edges| ==> InDegree(edges, {}, j) == 0
  {
    forall j | 0 <= j < |edges|
      ensures InDegree(edges, {}, j) == 0
    {
      NoEdges(edges, j, |edges|);
    }
  }

  method DrawTimes(events: seq<Event>, n: nat, indegree: array<nat>, start: Graph) returns (edges: Graph)
    requires indegree.Length == |events| && Partly(start, indegree[..], events, n, n, 0, 0)
    modifies indegree
    ensures Partly(edges, indegree[..], events, n, n, 2 * n, 0)
  {
    hide InDegree, ChainBelow;
    edges := start;
    for r := 0 to |events|
      invariant Partly(edges, indegree[..], events, n, n, r, 0)
    {
      for c := 0 to |events|
        invariant Partly(edges, indegree[..], events, n, n, r, c)
      {
        if events[r].end < events[c].start {
          edges := Draw(edges, indegree, r, c);
        }
      }
    }
  }

  lemma AllDrawn(edges: Graph, indegree: seq<nat>, offers: seq<Event>, takes: seq<Event>)
    requires |offers| == |takes| && Partly(edges, indegree, offers + takes, |offers|, |offers|, 2 * |offers|, 0)
    ensures Drawn(edges, offers, takes)
  {
    hide InDegree;
    var n, events := |offers|, offers + takes;
    forall a, b | 0 <= a < |edges| && 0 <= b < |edges|
      ensures b in edges[a] <==> Link(offers, takes, a, b)
    {
      assert ChainBelow(n, n, a, b) <==> Chain(n, a, b);
      assert a < 2 * n;
    }
  }

  // ---------------------------------------------------------------- the checker

  method FifoWitnessExists(enqueues: seq<Event>, dequeues: seq<Event>) returns (ok: bool)
    ensures ok <==> Linearizable(enqueues, dequeues)
  {
    hide Linearizable, Drawn, Arranged, Topological, SortByTicket, InDegree, Partly, DistinctIds;
    var paired, takes;
    ok, paired, takes := Pair(enqueues, dequeues);
    if !ok {
      return;
    }
    ArrangedSizes(paired, takes);
    var n := |enqueues|;
    var events := paired + takes;
    var indegree := new nat[2 * n](_ => 0);
    var edges := DrawChains(events, n, indegree);
    edges := DrawTimes(events, n, indegree, edges);
    AllDrawn(edges, indegree[..], paired, takes);
    DrawnClosed(edges, indegree[..], paired, takes);
    ghost var order;
    ok, order := Sort(edges, indegree);
    if ok {
      Sound(enqueues, dequeues, paired, takes, edges, order);
    } else {
      Complete(enqueues, dequeues, paired, takes, edges);
    }
  }

  lemma ArrangedSizes(offers: seq<Event>, takes: seq<Event>)
    requires Arranged(offers, takes)
    ensures |offers| == |takes|
  {
  }

  /** Every check before the graph: sizes, ids, tickets, pairing and intervals. */
  method Pair(enqueues: seq<Event>, dequeues: seq<Event>) returns (ok: bool, paired: seq<Event>, takes: seq<Event>)
    ensures !ok ==> !Linearizable(enqueues, dequeues)
    ensures ok ==>
      && |enqueues| == |dequeues| == |paired| && DistinctIds(enqueues) && Arranged(paired, takes)
      && takes == SortByTicket(dequeues) && multiset(takes) == multiset(dequeues) && multiset(paired) == multiset(enqueues)
      && forall e :: e in enqueues + dequeues ==> e.start < e.end
  {
    hide Linearizable, DistinctIds, Matched, SortByTicket;
    paired, takes := [], [];
    var n := |enqueues|;
    if |dequeues| != n {
      Malformed(enqueues, dequeues);
      return false, paired, takes;
    }
    var offers := Index(enqueues);
    if |offers| != n {
      Malformed(enqueues, dequeues);
      return false, paired, takes;
    }
    takes := SortByTicket(dequeues);
    SortHolds(dequeues);
    SameCount(takes, dequeues);
    for i := 0 to n
      invariant forall k :: 0 <= k < i ==> takes[k].ticket == k
    {
      if takes[i].ticket != i {
        NotTicketed(enqueues, dequeues);
        return false, paired, takes;
      }
    }
    for i := 0 to n
      invariant |paired| == i && forall k :: 0 <= k < i ==> takes[k].id in offers && paired[k] == offers[takes[k].id]
    {
      if takes[i].id !in offers {
        NotOffered(enqueues, dequeues, i);
        return false, paired, takes;
      }
      paired := paired + [offers[takes[i].id]];
    }
    IdSet(takes);
    if |set k | 0 <= k < |takes| :: takes[k].id| != n {
      TakenTwice(enqueues, dequeues);
      return false, paired, takes;
    }
    PairedAll(enqueues, paired, takes, offers);
    hide Indexed;
    for i := 0 to |paired + takes|
      invariant forall k :: 0 <= k < i ==> (paired + takes)[k].start < (paired + takes)[k].end
    {
      if (paired + takes)[i].start >= (paired + takes)[i].end {
        Untimely(enqueues, dequeues, paired, takes, i);
        return false, paired, takes;
      }
    }
    Timely(enqueues, dequeues, paired, takes);
    ok := true;
  }

  lemma Malformed(enqueues: seq<Event>, dequeues: seq<Event>)
    requires |enqueues| != |dequeues| || !DistinctIds(enqueues)
    ensures !Linearizable(enqueues, dequeues)
  {
  }

  method Index(enqueues: seq<Event>) returns (offers: map<nat, Event>)
    ensures Indexed(offers, enqueues)
  {
    offers := map[];
    for i := 0 to |enqueues|
      invariant Indexed(offers, enqueues[..i])
    {
      IndexedNext(offers, enqueues[..i], enqueues[i]);
      assert enqueues[..i + 1] == enqueues[..i] + [enqueues[i]];
      offers := offers[enqueues[i].id := enqueues[i]];
    }
    assert enqueues[..|enqueues|] == enqueues;
  }

  lemma NotTicketed(enqueues: seq<Event>, dequeues: seq<Event>)
    requires |enqueues| == |dequeues| && DistinctIds(enqueues) && !Ticketed(SortByTicket(dequeues))
    ensures !Linearizable(enqueues, dequeues)
  {
    hide IsWitness, SortByTicket, Ticketed;
    if order :| IsWitness(enqueues, dequeues, order) {
      WitnessArranges(enqueues, dequeues, order);
    }
  }

  lemma NotOffered(enqueues: seq<Event>, dequeues: seq<Event>, i: nat)
    requires |enqueues| == |dequeues| && DistinctIds(enqueues) && i < |SortByTicket(dequeues)|
    requires forall k :: 0 <= k < |enqueues| ==> enqueues[k].id != SortByTicket(dequeues)[i].id
    ensures !Linearizable(enqueues, dequeues)
  {
    hide IsWitness, SortByTicket;
    if order :| IsWitness(enqueues, dequeues, order) {
      WitnessArranges(enqueues, dequeues, order);
      var k := OfferedId(enqueues, Puts(order), Gets(order), i);
    }
  }

  lemma OfferedId(enqueues: seq<Event>, puts: seq<Event>, gets: seq<Event>, i: nat) returns (k: nat)
    requires multiset(puts) == multiset(enqueues) && Matched(puts, gets) && i < |gets|
    ensures k < |enqueues| && enqueues[k].id == gets[i].id
  {
    assert puts[i] in multiset(enqueues);
    k :| 0 <= k < |enqueues| && enqueues[k] == puts[i];
  }

  lemma TakenTwice(enqueues: seq<Event>, dequeues: seq<Event>)
    requires |enqueues| == |dequeues| && DistinctIds(enqueues) && !DistinctIds(SortByTicket(dequeues))
    ensures !Linearizable(enqueues, dequeues)
  {
    hide IsWitness, SortByTicket, Puts, Gets;
    if order :| IsWitness(enqueues, dequeues, order) {
      WitnessArranges(enqueues, dequeues, order);
    }
  }

  /** The offers found by id are all the enqueues, in ticket order. */
  lemma PairedAll(enqueues: seq<Event>, paired: seq<Event>, takes: seq<Event>, offers: map<nat, Event>)
    requires Indexed(offers, enqueues) && |paired| == |takes| == |enqueues| && Ticketed(takes) && DistinctIds(takes)
    requires forall k :: 0 <= k < |takes| ==> takes[k].id in offers && paired[k] == offers[takes[k].id]
    ensures multiset(paired) == multiset(enqueues) && Matched(paired, takes) && DistinctIds(paired)
  {
    assert forall k :: 0 <= k < |takes| ==> paired[k].id == takes[k].id && paired[k] in enqueues;
    Rearranged(paired, enqueues);
  }

  lemma Untimely(enqueues: seq<Event>, dequeues: seq<Event>, paired: seq<Event>, takes: seq<Event>, i: nat)
    requires multiset(paired) == multiset(enqueues) && multiset(takes) == multiset(dequeues)
    requires i < |paired + takes| && (paired + takes)[i].start >= (paired + takes)[i].end
    ensures !Linearizable(enqueues, dequeues)
  {
    var e := (paired + takes)[i];
    assert multiset(paired + takes) == multiset(enqueues + dequeues);
    assert e in multiset(enqueues + dequeues);
  }

  lemma Timely(enqueues: seq<Event>, dequeues: seq<Event>, paired: seq<Event>, takes: seq<Event>)
    requires multiset(paired) == multiset(enqueues) && multiset(takes) == multiset(dequeues)
    requires forall k :: 0 <= k < |paired + takes| ==> (paired + takes)[k].start < (paired + takes)[k].end
    ensures forall e :: e in enqueues + dequeues ==> e.start < e.end
    ensures forall e :: e in paired + takes ==> e.start < e.end
  {
    forall e | e in enqueues + dequeues
      ensures e.start < e.end
    {
      assert multiset(paired + takes) == multiset(enqueues + dequeues);
      assert e in multiset(paired + takes);
    }
  }

  lemma DrawnClosed(edges: Graph, indegree: seq<nat>, offers: seq<Event>, takes: seq<Event>)
    requires |offers| == |takes| && Partly(edges, indegree, offers + takes, |offers|, |offers|, 2 * |offers|, 0)
    ensures Closed(edges) && |indegree| == |edges| && forall j :: 0 <= j < |edges| ==> indegree[j] == InDegree(edges, {}, j)
  {
    hide InDegree;
  }

  lemma DrawnSize(edges: Graph, offers: seq<Event>, takes: seq<Event>)
    requires Drawn(edges, offers, takes)
    ensures |edges| == |offers + takes|
  {
  }

  lemma Sound(enqueues: seq<Event>, dequeues: seq<Event>, paired: seq<Event>, takes: seq<Event>, edges: Graph, nodes: seq<nat>)
    requires |enqueues| == |dequeues| && DistinctIds(enqueues) && Arranged(paired, takes)
    requires forall e :: e in enqueues + dequeues ==> e.start < e.end
    requires multiset(paired) == multiset(enqueues) && multiset(takes) == multiset(dequeues)
    requires Drawn(edges, paired, takes) && Topological(edges, nodes)
    ensures Linearizable(enqueues, dequeues)
  {
    hide Drawn, Arranged, RealTime, Play;
    DrawnSize(edges, paired, takes);
    var order := Along(paired, takes, nodes);
    ArrangedSizes(paired, takes);
    TopologicalIsWitness(paired, takes, edges, nodes, order);
    SameOps(order, paired, takes);
    SameOps(order, enqueues, dequeues);
    assert IsWitness(enqueues, dequeues, order);
  }

  lemma Complete(enqueues: seq<Event>, dequeues: seq<Event>, paired: seq<Event>, takes: seq<Event>, edges: Graph)
    requires |enqueues| == |dequeues| && DistinctIds(enqueues) && Arranged(paired, takes) && takes == SortByTicket(dequeues)
    requires multiset(paired) == multiset(enqueues) && Drawn(edges, paired, takes)
    requires forall order :: !Topological(edges, order)
    ensures !Linearizable(enqueues, dequeues)
  {
    hide Drawn, Topological, SortByTicket, Puts, Gets, Play;
    if order :| IsWitness(enqueues, dequeues, order) {
      WitnessArranges(enqueues, dequeues, order);
      SamePairs(enqueues, paired, Puts(order), takes);
      WitnessIsTopological(paired, takes, edges, order);
    }
  }

  /** Offers with the same ids out of the same enqueues are the same. */
  lemma SamePairs(enqueues: seq<Event>, a: seq<Event>, b: seq<Event>, takes: seq<Event>)
    requires DistinctIds(enqueues) && multiset(a) == multiset(enqueues) == multiset(b)
    requires Matched(a, takes) && Matched(b, takes) && |a| == |b| == |takes|
    ensures a == b
  {
    forall k | 0 <= k < |a|
      ensures a[k] == b[k]
    {
      assert a[k] in multiset(enqueues) && b[k] in multiset(enqueues);
      var i :| 0 <= i < |enqueues| && enqueues[i] == a[k];
      var j :| 0 <= j < |enqueues| && enqueues[j] == b[k];
      var first, second := Min(i, j), Max(i, j);
      assert takes[k].id == a[k].id == b[k].id;
      assert enqueues[first].id == enqueues[second].id;
    }
  }
}
