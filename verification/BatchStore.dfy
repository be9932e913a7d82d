/**
Native batch custody: frames stored whole, with an index from identity to frame row, xtask/src/representation/custody.rs.
SQL statements are updates of the two tables; a transaction that fails leaves both alone.
*/
module BatchStore {
  import opened Common
  import opened Json
  import opened Observations

  /** The primary key of the records table; sequences are kept as decimal text. */
  datatype Key = Key(origin: Bytes, producer: Bytes, generation: Bytes, s: Bytes)

  /** A row of a stored frame. Batch ids start at one. */
  datatype Place = Place(batch: nat, row: nat)

  datatype Tables = Tables(batches: seq<Bytes>, index: map<Key, Place>)

  type Decoder = Bytes -> Option<seq<Observation>>

  function KeyOf(origin: Bytes, id: Identity): Key {
    Key(origin, id.producer, id.generation, Decimal(id.sequence))
  }

  // ---------------------------------------------------------------- decimal text sorts as numbers

  lemma DecimalSize(n: nat)
    ensures n < 10 <==> |Decimal(n)| == 1
  {
    if n >= 10 {
      assert |Decimal(n / 10)| >= 1;
    }
  }

  lemma {:induction false} DecimalInjective(m: nat, n: nat)
    requires Decimal(m) == Decimal(n)
    ensures m == n
  {
    var a, b := Decimal(m), Decimal(n);
    DecimalSize(m);
    DecimalSize(n);
    if m >= 10 {
      assert a[..|a| - 1] == Decimal(m / 10) && b[..|b| - 1] == Decimal(n / 10);
      assert a[|a| - 1] == 0x30 + m % 10 && b[|b| - 1] == 0x30 + n % 10;
      DecimalInjective(m / 10, n / 10);
    }
  }

  lemma KeyInjective(origin: Bytes, i: Identity, j: Identity)
    requires KeyOf(origin, i) == KeyOf(origin, j)
    ensures i == j
  {
    DecimalInjective(i.sequence, j.sequence);
  }

  /** ORDER BY length(s), s. */
  predicate TextBefore(a: Bytes, b: Bytes) {
    |a| < |b| || (|a| == |b| && Less(a, b))
  }

  lemma {:induction false} LessSnoc(a: Bytes, x: byte, b: Bytes, y: byte)
    requires |a| == |b|
    ensures Less(a + [x], b + [y]) <==> Less(a, b) || (a == b && x < y)
  {
    if a == [] {
      assert a + [x] == [x] && b + [y] == [y] && [x][1..] == [] && [y][1..] == [];
    } else {
      assert (a + [x])[1..] == a[1..] + [x] && (b + [y])[1..] == b[1..] + [y];
      assert a == [a[0]] + a[1..] && b == [b[0]] + b[1..];
      LessSnoc(a[1..], x, b[1..], y);
    }
  }

  lemma {:induction false} DecimalGrows(m: nat, n: nat)
    requires m <= n
    ensures |Decimal(m)| <= |Decimal(n)|
  {
    if m >= 10 {
      DecimalGrows(m / 10, n / 10);
    } else if n >= 10 {
      assert |Decimal(n / 10)| >= 1;
    }
  }

  /** Ordering decimal strings by length, then text, is ordering the numbers. */
  lemma {:induction false} TextOrderIsNumeric(m: nat, n: nat)
    ensures TextBefore(Decimal(m), Decimal(n)) <==> m < n
  {
    if m < 10 && n < 10 {
      assert Decimal(m) == [] + [0x30 + m] && Decimal(n) == [] + [0x30 + n];
      LessSnoc([], 0x30 + m, [], 0x30 + n);
    } else if m < 10 {
      assert |Decimal(n / 10)| >= 1;
    } else if n < 10 {
      assert |Decimal(m / 10)| >= 1;
    } else {
      TextOrderIsNumeric(m / 10, n / 10);
      if |Decimal(m / 10)| == |Decimal(n / 10)| {
        LessSnoc(Decimal(m / 10), 0x30 + m % 10, Decimal(n / 10), 0x30 + n % 10);
        if Decimal(m / 10) == Decimal(n / 10) {
          DecimalInjective(m / 10, n / 10);
        } else {
          LessTotal(Decimal(m / 10), Decimal(n / 10));
        }
      }
    }
  }

  // ---------------------------------------------------------------- what the tables mean

  function Lookup(t: Tables, k: Key, decode: Decoder): Option<Observation> {
    if k !in t.index then None
    else
      var place := t.index[k];
      if place.batch == 0 || place.batch > |t.batches| then None
      else
        var records :- decode(t.batches[place.batch - 1]);
        if place.row < |records| then Some(records[place.row]) else None
  }

  /** Every index entry points at a frame row that decodes and carries that identity. */
  ghost predicate TablesOk(t: Tables, decode: Decoder) {
    forall k :: k in t.index ==> Lookup(t, k, decode).Some? && KeyOf(k.origin, Lookup(t, k, decode).value.identity) == k
  }

  /** The abstract store: a map from identity, in its origin, to observation. */
  ghost function Contents(t: Tables, decode: Decoder): map<Key, Observation>
    requires TablesOk(t, decode)
  {
    map k | k in t.index :: Lookup(t, k, decode).value
  }

  // ---------------------------------------------------------------- the specification of a commit

  /** Publish each record unless its identity is already there. */
  function Publish(m: map<Key, Observation>, origin: Bytes, records: seq<Observation>): map<Key, Observation> {
    if records == [] then m
    else
      var before, o := Publish(m, origin, records[..|records| - 1]), records[|records| - 1];
      var k := KeyOf(origin, o.identity);
      if k in before then before else before[k := o]
  }

  /** What a batch must satisfy to be taken: no conflict with what is stored, no new identity twice, and room. */
  ghost predicate Acceptable(m: map<Key, Observation>, origin: Bytes, records: seq<Observation>, text: Observation -> Bytes, limit: nat) {
    && 0 < |origin| <= 128
    && (forall i :: 0 <= i < |records| ==> Agrees(m, origin, records[i], text))
    && (forall i, j :: 0 <= i < j < |records| ==> !Clash(m, origin, records[i], records[j]))
    && |Publish(m, origin, records)| <= limit
  }

  predicate Agrees(m: map<Key, Observation>, origin: Bytes, o: Observation, text: Observation -> Bytes) {
    var k := KeyOf(origin, o.identity);
    k in m ==> text(m[k]) == text(o)
  }

  predicate Clash(m: map<Key, Observation>, origin: Bytes, a: Observation, b: Observation) {
    KeyOf(origin, a.identity) !in m && a.identity == b.identity
  }

  lemma PublishSnoc(m: map<Key, Observation>, origin: Bytes, records: seq<Observation>, o: Observation)
    ensures Publish(m, origin, records + [o])
         == var before := Publish(m, origin, records);
            var k := KeyOf(origin, o.identity);
            if k in before then before else before[k := o]
  {
    assert (records + [o])[..|records|] == records;
  }

  /** What was there before stays, and every record's identity ends up there. */
  lemma {:induction false} PublishKeeps(m: map<Key, Observation>, origin: Bytes, records: seq<Observation>)
    ensures var r := Publish(m, origin, records);
      && (forall k :: k in m ==> k in r && r[k] == m[k])
      && (forall i :: 0 <= i < |records| ==> KeyOf(origin, records[i].identity) in r)
  {
    hide Decimal;
    if records != [] {
      var init, o := records[..|records| - 1], records[|records| - 1];
      PublishKeeps(m, origin, init);
      assert forall i :: 0 <= i < |init| ==> records[i] == init[i];
    }
  }

  /** And nothing else does. */
  lemma {:induction false} PublishOnly(m: map<Key, Observation>, origin: Bytes, records: seq<Observation>, k: Key) returns (i: nat)
    requires k in Publish(m, origin, records) && k !in m
    ensures i < |records| && KeyOf(origin, records[i].identity) == k && Publish(m, origin, records)[k] == records[i]
  {
    hide Decimal;
    var init, o := records[..|records| - 1], records[|records| - 1];
    if k in Publish(m, origin, init) {
      i := PublishOnly(m, origin, init, k);
      assert records[i] == init[i];
    } else {
      i := |records| - 1;
    }
  }

  /** What is published was there before or is one of the records; what was there stays. */
  lemma PublishHolds(m: map<Key, Observation>, origin: Bytes, records: seq<Observation>)
    ensures var r := Publish(m, origin, records);
      && (forall k :: k in m ==> k in r && r[k] == m[k])
      && (forall k :: k in r && k !in m ==> exists i :: 0 <= i < |records| && KeyOf(origin, records[i].identity) == k && r[k] == records[i])
      && (forall i :: 0 <= i < |records| ==> KeyOf(origin, records[i].identity) in r)
  {
    hide Publish, KeyOf;
    PublishKeeps(m, origin, records);
    var r := Publish(m, origin, records);
    forall k | k in r && k !in m
      ensures exists i :: 0 <= i < |records| && KeyOf(origin, records[i].identity) == k && r[k] == records[i]
    {
      var i := PublishOnly(m, origin, records, k);
    }
  }

  // ---------------------------------------------------------------- the store

  class Store {
    var tables: Tables
    const limit: nat
    const decode: Decoder
    const text: Observation -> Bytes

    ghost predicate Valid()
      reads this
    {
      TablesOk(tables, decode) && |tables.index| <= limit
    }

    ghost function Abs(): map<Key, Observation>
      requires Valid()
      reads this
    {
      Contents(tables, decode)
    }

    constructor (limit: nat, decode: Decoder, text: Observation -> Bytes)
      ensures Valid() && Abs() == map[] && this.limit == limit && this.decode == decode && this.text == text
    {
      this.limit := limit;
      this.decode := decode;
      this.text := text;
      tables := Tables([], map[]);
    }

    /** `commit_validated`: the frame is known to decode to the records. */
    method Commit(origin: Bytes, frame: Bytes, records: seq<Observation>) returns (ok: bool)
      requires Valid() && decode(frame) == Some(records)
      modifies this
      ensures Valid()
      ensures ok <==> Acceptable(old(Abs()), origin, records, text, limit)
      ensures Abs() == if ok then Publish(old(Abs()), origin, records) else old(Abs())
      ensures !ok || AllKnown(old(Abs()), origin, records) ==> tables == old(tables)
      ensures ok && !AllKnown(old(Abs()), origin, records) ==> tables.batches == old(tables.batches) + [frame]
    {
      hide Decimal, Publish, Lookup, TablesOk, Contents, FreshOf, Agrees, Clash, Pick, AllKnown;
      if |origin| == 0 || |origin| > 128 {
        return false;
      }
      ghost var m := Abs();
      SameSize(tables, decode);
      var checked := Check(origin, records);
      if checked == None {
        return false;
      }
      var novel := checked.value;
      NovelMeans(m, origin, records, novel, text);
      assert records[..|records|] == records;
      if |tables.index| + |novel| > limit {
        return false;
      }
      if novel != [] {
        Insert(origin, frame, records, novel);
      } else {
        PublishNothing(m, origin);
        PickNothing(records);
      }
      SameSize(tables, decode);
      ok := true;
    }

    /** The first loop: which records are new; none if one conflicts with the store or repeats a new one. */
    method Check(origin: Bytes, records: seq<Observation>) returns (r: Option<seq<nat>>)
      requires Valid()
      ensures r == None ==>
        || (exists i :: 0 <= i < |records| && !Agrees(Abs(), origin, records[i], text))
        || (exists i, j :: 0 <= i < j < |records| && Clash(Abs(), origin, records[i], records[j]))
      ensures r.Some? ==> Checked(Abs(), origin, records, r.value, |records|, text)
    {
      hide Decimal, Publish, FreshOf, Checked, TablesOk, Pick;
      ghost var m := Abs();
      var novel: seq<nat> := [];
      CheckedNothing(m, origin, records, text);
      for i := 0 to |records|
        invariant Checked(m, origin, records, novel, i, text)
      {
        var o := records[i];
        var k := KeyOf(origin, o.identity);
        if k in tables.index {
          Found(tables, k, decode);
          var place := tables.index[k];
          var stored := decode(tables.batches[place.batch - 1]).value[place.row];
          if text(stored) != text(o) {
            assert !Agrees(m, origin, records[i], text);
            return None;
          }
          CheckedExisting(m, origin, records, novel, i, text);
        } else {
          NovelBelow(m, origin, records, novel, i, text);
          var twice := exists j :: 0 <= j < |novel| && records[novel[j]].identity == o.identity;
          if twice {
            ghost var j :| 0 <= j < |novel| && records[novel[j]].identity == o.identity;
            assert Clash(m, origin, records[novel[j]], records[i]);
            return None;
          }
          CheckedNew(m, origin, records, novel, i, text);
          novel := novel + [i];
        }
      }
      return Some(novel);
    }

    /** The inserts of the transaction: the frame, then one index row for each new identity. */
    method Insert(origin: Bytes, frame: Bytes, records: seq<Observation>, novel: seq<nat>)
      requires TablesOk(tables, decode) && decode(frame) == Some(records)
      requires Checked(Contents(tables, decode), origin, records, novel, |records|, text)
      modifies this
      ensures TablesOk(tables, decode) && tables.batches == old(tables.batches) + [frame]
      ensures Contents(tables, decode) == Publish(old(Contents(tables, decode)), origin, Pick(records, novel))
    {
      hide Decimal, Publish, Lookup, TablesOk, Contents, Pick, Checked, FreshOf;
      ghost var m := Contents(tables, decode);
      NovelBelow(m, origin, records, novel, |records|, text);
      FrameAdded(tables, frame, decode);
      tables := tables.(batches := tables.batches + [frame]);
      var batch := |tables.batches|;
      PublishNothing(m, origin);
      PickNothing(records);
      assert novel[..0] == [];
      for j := 0 to |novel|
        invariant |tables.batches| == batch && tables.batches == old(tables.batches) + [frame]
        invariant TablesOk(tables, decode) && Contents(tables, decode) == Publish(m, origin, Pick(records, novel[..j]))
      {
        var o := records[novel[j]];
        var k := KeyOf(origin, o.identity);
        NotYetPicked(m, origin, records, novel, j, text);
        RowAdded(tables, k, Place(batch, novel[j]), o, decode);
        tables := tables.(index := tables.index[k := Place(batch, novel[j])]);
        assert novel[..j + 1] == novel[..j] + [novel[j]];
        PickSnoc(records, novel[..j], novel[j]);
        PublishSnoc(m, origin, Pick(records, novel[..j]), o);
      }
      assert novel[..|novel|] == novel;
    }

    /** `read`, on the answer of the ordered key query: frames are decoded once each, and every row is taken out once. */
    method Read(origin: Bytes, keys: seq<Key>) returns (r: Option<seq<Observation>>)
      requires Valid() && Answers(tables.index, origin, keys)
      ensures r.Some? && |r.value| == |keys|
      ensures forall i :: 0 <= i < |keys| ==> keys[i] in Abs() && r.value[i] == Abs()[keys[i]]
    {
      hide Decimal, Lookup, TablesOk, Contents, Answers, Grouped, KeyOf;
      assert forall i :: 0 <= i < |keys| ==> keys[i] in tables.index && keys[i] in Abs() by {
        AnswersIndexed(tables, origin, keys, decode);
      }
      var groups: map<nat, seq<(nat, nat)>> := map[];
      GroupedNothing(tables.index, keys);
      for p := 0 to |keys|
        invariant Grouped(tables.index, keys, groups, p)
      {
        var place := tables.index[keys[p]];
        var sofar := if place.batch in groups then groups[place.batch] else [];
        GroupedNext(tables.index, keys, groups, p);
        groups := groups[place.batch := sofar + [(p, place.row)]];
      }
      var output: seq<Option<Observation>> := seq(|keys|, _ => None);
      var todo := groups.Keys;
      assert forall q :: 0 <= q < |keys| ==> tables.index[keys[q]].batch in todo by {
        GroupedAll(tables.index, keys, groups);
      }
      while todo != {}
        invariant todo <= groups.Keys && |output| == |keys|
        invariant forall q :: 0 <= q < |keys| ==> output[q] == Some(Abs()[keys[q]]) || tables.index[keys[q]].batch in todo
        decreases todo
      {
        var batch :| batch in todo;
        var filled := TakeGroup(origin, keys, groups, batch, output);
        if filled == None {
          return None;
        }
        output := filled.value;
        todo := todo - {batch};
      }
      r := Some([]);
      for q := 0 to |keys|
        invariant r.Some? && |r.value| == q && forall i :: 0 <= i < q ==> r.value[i] == Abs()[keys[i]]
      {
        r := if output[q] == None then None else Some(r.value + [output[q].value]);
      }
    }

    /** One frame's rows moved to their places in the output. */
    method TakeGroup(origin: Bytes, keys: seq<Key>, groups: map<nat, seq<(nat, nat)>>, batch: nat, start: seq<Option<Observation>>)
      returns (r: Option<seq<Option<Observation>>>)
      requires Valid() && Answers(tables.index, origin, keys) && Grouped(tables.index, keys, groups, |keys|)
      requires batch in groups && |start| == |keys|
      ensures r.Some? && |r.value| == |keys|
      ensures forall q :: 0 <= q < |keys| ==>
                keys[q] in tables.index && keys[q] in Abs()
                && r.value[q] == if tables.index[keys[q]].batch == batch then Some(Abs()[keys[q]]) else start[q]
    {
      hide Decimal, Lookup, TablesOk, Contents, Answers, Grouped, KeyOf;
      AnswersIndexed(tables, origin, keys, decode);
      GroupIs(tables, origin, keys, groups, batch, decode);
      var group := groups[batch];
      var records := decode(tables.batches[batch - 1]).value;
      var decoded: seq<Option<Observation>> := seq(|records|, i requires 0 <= i < |records| => Some(records[i]));
      var output := start;
      for g := 0 to |group|
        invariant |output| == |keys| && |decoded| == |records|
        invariant forall x :: 0 <= x < |records| ==> decoded[x] == Some(records[x]) || exists h :: 0 <= h < g && group[h].1 == x
        invariant forall h :: 0 <= h < g ==> output[group[h].0] == Some(Abs()[keys[group[h].0]])
        invariant forall q :: 0 <= q < |keys| && tables.index[keys[q]].batch != batch ==> output[q] == start[q]
      {
        var position, row := group[g].0, group[g].1;
        if row >= |decoded| || decoded[row] == None {
          return None;
        }
        output := output[position := decoded[row]];
        decoded := decoded[row := None];
      }
      r := Some(output);
      forall q | 0 <= q < |keys| && tables.index[keys[q]].batch == batch
        ensures output[q] == Some(Abs()[keys[q]])
      {
        var h :| 0 <= h < |group| && group[h].0 == q;
      }
    }

    /** The greatest n with 1..n all stored, found by asking for each in turn. */
    method Frontier(origin: Bytes, p: Bytes, g: Bytes) returns (n: nat)
      requires Valid()
      ensures IsFrontier(Abs(), origin, p, g, n)
    {
      hide Decimal, Lookup, TablesOk;
      n := 0;
      while true
        invariant n <= U64_MAX && forall i :: 1 <= i <= n ==> Key(origin, p, g, Decimal(i)) in tables.index
        decreases |tables.index| - n
      {
        if n == U64_MAX {
          return;
        }
        var next := n + 1;
        if Key(origin, p, g, Decimal(next)) !in tables.index {
          return;
        }
        n := next;
        FrontierBounded(tables.index, origin, p, g, n);
      }
    }
  }

  // ---------------------------------------------------------------- tables and their meaning

  lemma SameSize(t: Tables, decode: Decoder)
    requires TablesOk(t, decode)
    ensures |Contents(t, decode)| == |t.index|
  {
    var m := Contents(t, decode);
    assert m.Keys == t.index.Keys;
    assert |m.Keys| == |m| && |t.index.Keys| == |t.index|;
  }

  lemma Found(t: Tables, k: Key, decode: Decoder)
    requires TablesOk(t, decode)
    ensures k in t.index <==> k in Contents(t, decode)
    ensures k in t.index ==>
      var place := t.index[k];
      && 0 < place.batch <= |t.batches| && decode(t.batches[place.batch - 1]).Some?
      && place.row < |decode(t.batches[place.batch - 1]).value|
      && Contents(t, decode)[k] == decode(t.batches[place.batch - 1]).value[place.row]
  {
    if k in t.index {
      assert Lookup(t, k, decode).Some?;
    }
  }

  lemma FrameAdded(t: Tables, frame: Bytes, decode: Decoder)
    requires TablesOk(t, decode)
    ensures var t' := t.(batches := t.batches + [frame]); TablesOk(t', decode) && Contents(t', decode) == Contents(t, decode)
  {
    var t' := t.(batches := t.batches + [frame]);
    assert forall k :: k in t.index ==> Lookup(t', k, decode) == Lookup(t, k, decode);
  }

  lemma RowAdded(t: Tables, k: Key, place: Place, o: Observation, decode: Decoder)
    requires TablesOk(t, decode) && k !in Contents(t, decode) && KeyOf(k.origin, o.identity) == k
    requires 0 < place.batch <= |t.batches| && decode(t.batches[place.batch - 1]).Some?
    requires place.row < |decode(t.batches[place.batch - 1]).value| && decode(t.batches[place.batch - 1]).value[place.row] == o
    ensures var t' := t.(index := t.index[k := place]);
      TablesOk(t', decode) && Contents(t', decode) == Contents(t, decode)[k := o]
  {
    LookupAdded(t, k, place, o, decode);
    Found(t, k, decode);
    hide Lookup, KeyOf;
    var t' := t.(index := t.index[k := place]);
    assert TablesOk(t', decode);
    assert Contents(t', decode).Keys == Contents(t, decode)[k := o].Keys;
  }

  lemma LookupAdded(t: Tables, k: Key, place: Place, o: Observation, decode: Decoder)
    requires 0 < place.batch <= |t.batches| && decode(t.batches[place.batch - 1]).Some?
    requires place.row < |decode(t.batches[place.batch - 1]).value| && decode(t.batches[place.batch - 1]).value[place.row] == o
    ensures var t' := t.(index := t.index[k := place]);
      Lookup(t', k, decode) == Some(o) && forall k' :: k' in t.index && k' != k ==> Lookup(t', k', decode) == Lookup(t, k', decode)
  {
  }

  // ---------------------------------------------------------------- the new indices

  /** The indices below i whose identity the store lacks, in order. */
  ghost predicate FreshOf(m: map<Key, Observation>, origin: Bytes, records: seq<Observation>, novel: seq<nat>, i: nat) {
    && i <= |records|
    && (forall j :: 0 <= j < |novel| ==> novel[j] < i && KeyOf(origin, records[novel[j]].identity) !in m)
    && (forall j, k :: 0 <= j < k < |novel| ==> novel[j] < novel[k])
    && (forall j :: 0 <= j < i && KeyOf(origin, records[j].identity) !in m ==> j in novel)
  }

  /** The first i records neither conflict nor repeat, and publishing them is publishing the new ones. */
  ghost predicate Checked(
    m: map<Key, Observation>, origin: Bytes, records: seq<Observation>, novel: seq<nat>, i: nat, text: Observation -> Bytes)
  {
    && FreshOf(m, origin, records, novel, i)
    && (forall j :: 0 <= j < i ==> Agrees(m, origin, records[j], text))
    && (forall j, k :: 0 <= j < k < i ==> !Clash(m, origin, records[j], records[k]))
    && Publish(m, origin, records[..i]) == Publish(m, origin, Pick(records, novel))
    && |Publish(m, origin, records[..i])| == |m| + |novel|
  }

  /** Every identity of the batch is stored already. */
  ghost predicate AllKnown(m: map<Key, Observation>, origin: Bytes, records: seq<Observation>) {
    forall i :: 0 <= i < |records| ==> KeyOf(origin, records[i].identity) in m
  }

  lemma NovelMeans(m: map<Key, Observation>, origin: Bytes, records: seq<Observation>, novel: seq<nat>, text: Observation -> Bytes)
    requires Checked(m, origin, records, novel, |records|, text)
    ensures novel == [] <==> AllKnown(m, origin, records)
  {
    hide KeyOf, Publish;
    if novel != [] {
      assert KeyOf(origin, records[novel[0]].identity) !in m;
    }
  }

  ghost function Pick(records: seq<Observation>, at: seq<nat>): seq<Observation> {
    seq(|at|, i requires 0 <= i < |at| => if at[i] < |records| then records[at[i]] else Nobody())
  }

  ghost function Nobody(): Observation {
    Observation(0, [], Identity([], [], 0), 0, [], Gap([], []))
  }

  lemma PickNothing(records: seq<Observation>)
    ensures Pick(records, []) == []
  {
  }

  lemma PickSnoc(records: seq<Observation>, at: seq<nat>, i: nat)
    requires i < |records|
    ensures Pick(records, at + [i]) == Pick(records, at) + [records[i]]
  {
  }

  lemma PublishNothing(m: map<Key, Observation>, origin: Bytes)
    ensures Publish(m, origin, []) == m
  {
  }

  lemma CheckedNothing(m: map<Key, Observation>, origin: Bytes, records: seq<Observation>, text: Observation -> Bytes)
    ensures Checked(m, origin, records, [], 0, text)
  {
    assert records[..0] == [];
    PickNothing(records);
  }

  lemma NovelBelow(
    m: map<Key, Observation>, origin: Bytes, records: seq<Observation>, novel: seq<nat>, i: nat, text: Observation -> Bytes)
    requires Checked(m, origin, records, novel, i, text)
    ensures forall j :: 0 <= j < |novel| ==> novel[j] < i <= |records| && KeyOf(origin, records[novel[j]].identity) !in m
  {
    hide Publish, KeyOf;
  }

  lemma CheckedExisting(
    m: map<Key, Observation>, origin: Bytes, records: seq<Observation>, novel: seq<nat>, i: nat, text: Observation -> Bytes)
    requires Checked(m, origin, records, novel, i, text) && i < |records|
    requires KeyOf(origin, records[i].identity) in m && Agrees(m, origin, records[i], text)
    ensures Checked(m, origin, records, novel, i + 1, text)
  {
    hide Decimal, Pick;
    assert records[..i + 1] == records[..i] + [records[i]];
    PublishSnoc(m, origin, records[..i], records[i]);
    PublishHolds(m, origin, records[..i]);
    hide Publish, Agrees;
    FreshSkip(m, origin, records, novel, i);
    hide FreshOf;
  }

  lemma FreshSkip(m: map<Key, Observation>, origin: Bytes, records: seq<Observation>, novel: seq<nat>, i: nat)
    requires FreshOf(m, origin, records, novel, i) && i < |records| && KeyOf(origin, records[i].identity) in m
    ensures FreshOf(m, origin, records, novel, i + 1)
  {
    hide KeyOf;
  }

  lemma CheckedNew(
    m: map<Key, Observation>, origin: Bytes, records: seq<Observation>, novel: seq<nat>, i: nat, text: Observation -> Bytes)
    requires Checked(m, origin, records, novel, i, text) && i < |records|
    requires KeyOf(origin, records[i].identity) !in m
    requires forall j :: 0 <= j < |novel| ==> records[novel[j]].identity != records[i].identity
    ensures Checked(m, origin, records, novel + [i], i + 1, text)
  {
    hide Decimal, Pick, Publish;
    NotYet(m, origin, records, novel, i);
    assert records[..i + 1] == records[..i] + [records[i]];
    PublishSnoc(m, origin, records[..i], records[i]);
    PickSnoc(records, novel, i);
    PublishSnoc(m, origin, Pick(records, novel), records[i]);
    FreshNext(m, origin, records, novel, i);
    hide FreshOf;
  }

  lemma NotYet(m: map<Key, Observation>, origin: Bytes, records: seq<Observation>, novel: seq<nat>, i: nat)
    requires FreshOf(m, origin, records, novel, i) && i < |records|
    requires KeyOf(origin, records[i].identity) !in m
    requires forall j :: 0 <= j < |novel| ==> records[novel[j]].identity != records[i].identity
    ensures KeyOf(origin, records[i].identity) !in Publish(m, origin, records[..i])
    ensures forall j :: 0 <= j < i ==> !Clash(m, origin, records[j], records[i])
  {
    hide Decimal;
    var k := KeyOf(origin, records[i].identity);
    PublishHolds(m, origin, records[..i]);
    hide Publish;
    forall j | 0 <= j < i
      ensures records[j].identity != records[i].identity && KeyOf(origin, records[..i][j].identity) != k
    {
      if KeyOf(origin, records[j].identity) !in m {
        assert j in novel;
        var x :| 0 <= x < |novel| && novel[x] == j;
      }
      if KeyOf(origin, records[j].identity) == k {
        KeyInjective(origin, records[j].identity, records[i].identity);
      }
    }
  }

  lemma FreshNext(m: map<Key, Observation>, origin: Bytes, records: seq<Observation>, novel: seq<nat>, i: nat)
    requires FreshOf(m, origin, records, novel, i) && i < |records| && KeyOf(origin, records[i].identity) !in m
    ensures FreshOf(m, origin, records, novel + [i], i + 1)
  {
    hide KeyOf;
  }

  lemma NotYetPicked(
    m: map<Key, Observation>, origin: Bytes, records: seq<Observation>, novel: seq<nat>, j: nat, text: Observation -> Bytes)
    requires Checked(m, origin, records, novel, |records|, text) && j < |novel|
    ensures KeyOf(origin, records[novel[j]].identity) !in Publish(m, origin, Pick(records, novel[..j]))
  {
    hide Decimal;
    var k := KeyOf(origin, records[novel[j]].identity);
    PublishHolds(m, origin, Pick(records, novel[..j]));
    hide Publish;
    forall i | 0 <= i < j
      ensures KeyOf(origin, Pick(records, novel[..j])[i].identity) != k
    {
      assert !Clash(m, origin, records[novel[i]], records[novel[j]]);
      if KeyOf(origin, records[novel[i]].identity) == k {
        KeyInjective(origin, records[novel[i]].identity, records[novel[j]].identity);
      }
    }
  }

  // ---------------------------------------------------------------- reading

  /** The answer to the key query: this origin's rows, each once, by length of s and then s. */
  ghost predicate Answers(index: map<Key, Place>, origin: Bytes, keys: seq<Key>) {
    && (forall k :: k in keys <==> k in index && k.origin == origin)
    && (forall i, j :: 0 <= i < j < |keys| ==> keys[i] != keys[j])
    && (forall i, j :: 0 <= i < j < |keys| ==> !TextBefore(keys[j].s, keys[i].s))
  }

  lemma AnswersIndexed(t: Tables, origin: Bytes, keys: seq<Key>, decode: Decoder)
    requires TablesOk(t, decode) && Answers(t.index, origin, keys)
    ensures forall i :: 0 <= i < |keys| ==> keys[i] in t.index && keys[i] in Contents(t, decode)
  {
    hide TextBefore, Decimal;
    forall i | 0 <= i < |keys|
      ensures keys[i] in t.index
    {
      assert keys[i] in keys;
    }
  }

  /** Each of the first p positions is in the group of its batch, with its row; groups list positions in order. */
  ghost predicate Grouped(index: map<Key, Place>, keys: seq<Key>, groups: map<nat, seq<(nat, nat)>>, p: nat) {
    && p <= |keys|
    && (forall q :: 0 <= q < |keys| ==> keys[q] in index)
    && (forall b :: b in groups ==> groups[b] != [] && InGroup(index, keys, groups[b], b, p))
    && (forall q :: 0 <= q < p ==> index[keys[q]].batch in groups && (q, index[keys[q]].row) in groups[index[keys[q]].batch])
  }

  ghost predicate InGroup(index: map<Key, Place>, keys: seq<Key>, group: seq<(nat, nat)>, b: nat, p: nat)
    requires p <= |keys| && forall q :: 0 <= q < |keys| ==> keys[q] in index
  {
    && (forall g :: 0 <= g < |group| ==> group[g].0 < p && index[keys[group[g].0]] == Place(b, group[g].1))
    && (forall g, h :: 0 <= g < h < |group| ==> group[g].0 < group[h].0)
  }

  lemma GroupedNothing(index: map<Key, Place>, keys: seq<Key>)
    requires forall q :: 0 <= q < |keys| ==> keys[q] in index
    ensures Grouped(index, keys, map[], 0)
  {
  }

  lemma GroupGrows(index: map<Key, Place>, keys: seq<Key>, group: seq<(nat, nat)>, b: nat, p: nat)
    requires p < |keys| && (forall q :: 0 <= q < |keys| ==> keys[q] in index) && InGroup(index, keys, group, b, p)
    ensures InGroup(index, keys, group, b, p + 1)
    ensures index[keys[p]].batch == b ==> InGroup(index, keys, group + [(p, index[keys[p]].row)], b, p + 1)
  {
  }

  lemma GroupedNext(index: map<Key, Place>, keys: seq<Key>, groups: map<nat, seq<(nat, nat)>>, p: nat)
    requires Grouped(index, keys, groups, p) && p < |keys|
    ensures var place := index[keys[p]];
      var sofar := if place.batch in groups then groups[place.batch] else [];
      Grouped(index, keys, groups[place.batch := sofar + [(p, place.row)]], p + 1)
  {
    hide InGroup;
    var place := index[keys[p]];
    var sofar := if place.batch in groups then groups[place.batch] else [];
    var groups' := groups[place.batch := sofar + [(p, place.row)]];
    assert InGroup(index, keys, sofar, place.batch, p) by {
      NoGroup(index, keys, place.batch, p);
    }
    forall b | b in groups'
      ensures groups'[b] != [] && InGroup(index, keys, groups'[b], b, p + 1)
    {
      GroupGrows(index, keys, if b == place.batch then sofar else groups[b], b, p);
    }
    forall q | 0 <= q < p + 1
      ensures index[keys[q]].batch in groups' && (q, index[keys[q]].row) in groups'[index[keys[q]].batch]
    {
      if q == p {
        assert groups'[place.batch][|sofar|] == (p, place.row);
      } else if index[keys[q]].batch == place.batch {
        assert (q, index[keys[q]].row) in sofar;
      }
    }
  }

  lemma NoGroup(index: map<Key, Place>, keys: seq<Key>, b: nat, p: nat)
    requires p <= |keys| && forall q :: 0 <= q < |keys| ==> keys[q] in index
    ensures InGroup(index, keys, [], b, p)
  {
  }

  lemma GroupedAll(index: map<Key, Place>, keys: seq<Key>, groups: map<nat, seq<(nat, nat)>>)
    requires Grouped(index, keys, groups, |keys|)
    ensures forall q :: 0 <= q < |keys| ==> keys[q] in index && index[keys[q]].batch in groups
  {
  }

  /** A group's rows exist, hold the records wanted, and are all different. */
  lemma GroupIs(t: Tables, origin: Bytes, keys: seq<Key>, groups: map<nat, seq<(nat, nat)>>, batch: nat, decode: Decoder)
    requires TablesOk(t, decode) && Answers(t.index, origin, keys) && Grouped(t.index, keys, groups, |keys|) && batch in groups
    ensures var group := groups[batch];
      && (forall q :: 0 <= q < |keys| ==> keys[q] in t.index && keys[q] in Contents(t, decode))
      && 0 < batch <= |t.batches| && decode(t.batches[batch - 1]).Some?
      && (forall g :: 0 <= g < |group| ==>
            && group[g].0 < |keys| && t.index[keys[group[g].0]].batch == batch
            && group[g].1 < |decode(t.batches[batch - 1]).value|
            && Contents(t, decode)[keys[group[g].0]] == decode(t.batches[batch - 1]).value[group[g].1])
      && (forall g, h :: 0 <= g < h < |group| ==> group[g].0 != group[h].0 && group[g].1 != group[h].1)
      && (forall q :: 0 <= q < |keys| && t.index[keys[q]].batch == batch ==> exists h :: 0 <= h < |group| && group[h].0 == q)
  {
    hide TextBefore, Decimal;
    var group := groups[batch];
    AnswersIndexed(t, origin, keys, decode);
    forall g | 0 <= g < |group|
      ensures Found'(t, keys[group[g].0], batch, group[g].1, decode)
    {
      Found(t, keys[group[g].0], decode);
    }
    assert Found'(t, keys[group[0].0], batch, group[0].1, decode);
    forall g, h | 0 <= g < h < |group|
      ensures group[g].1 != group[h].1
    {
      var k, k' := keys[group[g].0], keys[group[h].0];
      assert k in keys && k' in keys && k != k';
      assert Found'(t, k, batch, group[g].1, decode) && Found'(t, k', batch, group[h].1, decode);
      Identified(t, k, decode);
      Identified(t, k', decode);
    }
    forall q | 0 <= q < |keys| && t.index[keys[q]].batch == batch
      ensures exists h :: 0 <= h < |group| && group[h].0 == q
    {
      assert (q, t.index[keys[q]].row) in group;
    }
  }

  ghost predicate Found'(t: Tables, k: Key, batch: nat, row: nat, decode: Decoder)
    requires TablesOk(t, decode)
  {
    && k in t.index && t.index[k] == Place(batch, row)
    && 0 < batch <= |t.batches| && decode(t.batches[batch - 1]).Some?
    && row < |decode(t.batches[batch - 1]).value|
    && k in Contents(t, decode) && Contents(t, decode)[k] == decode(t.batches[batch - 1]).value[row]
  }

  lemma Identified(t: Tables, k: Key, decode: Decoder)
    requires TablesOk(t, decode) && k in t.index
    ensures k in Contents(t, decode) && KeyOf(k.origin, Contents(t, decode)[k].identity) == k
  {
    hide Decimal;
  }

  /** What is read back comes in numeric order of sequence, and is exactly what the origin has stored, each once. */
  lemma ReadInOrder(t: Tables, origin: Bytes, keys: seq<Key>, decode: Decoder)
    requires TablesOk(t, decode) && Answers(t.index, origin, keys)
    ensures var m := Contents(t, decode);
      && (forall i, j :: 0 <= i < j < |keys| ==> keys[i] in m && keys[j] in m && m[keys[i]].identity.sequence <= m[keys[j]].identity.sequence)
      && (forall i, j :: 0 <= i < j < |keys| ==> m[keys[i]].identity != m[keys[j]].identity)
      && (forall k :: k in m && k.origin == origin ==> exists i :: 0 <= i < |keys| && keys[i] == k)
  {
    hide Decimal, TextBefore, Lookup;
    var m := Contents(t, decode);
    AnswersIndexed(t, origin, keys, decode);
    forall i, j | 0 <= i < j < |keys|
      ensures m[keys[i]].identity.sequence <= m[keys[j]].identity.sequence && m[keys[i]].identity != m[keys[j]].identity
    {
      assert keys[i] in keys && keys[j] in keys;
      Identified(t, keys[i], decode);
      Identified(t, keys[j], decode);
      TextOrderIsNumeric(m[keys[j]].identity.sequence, m[keys[i]].identity.sequence);
    }
  }

  // ---------------------------------------------------------------- the frontier

  /** 1..n are stored and n+1 is not. */
  ghost predicate IsFrontier(m: map<Key, Observation>, origin: Bytes, p: Bytes, g: Bytes, n: nat) {
    && n <= U64_MAX
    && (forall i :: 1 <= i <= n ==> Key(origin, p, g, Decimal(i)) in m)
    && (n < U64_MAX ==> Key(origin, p, g, Decimal(n + 1)) !in m)
  }

  lemma {:induction false} FrontierBounded(index: map<Key, Place>, origin: Bytes, p: Bytes, g: Bytes, n: nat)
    requires forall i :: 1 <= i <= n ==> Key(origin, p, g, Decimal(i)) in index
    ensures n <= |index|
  {
    if n > 0 {
      var k := Key(origin, p, g, Decimal(n));
      var rest := index - {k};
      assert rest.Keys == index.Keys - {k};
      assert |rest.Keys| == |index.Keys| - 1 && |rest| == |rest.Keys| && |index| == |index.Keys|;
      forall i | 1 <= i <= n - 1
        ensures Key(origin, p, g, Decimal(i)) in rest
      {
        if Decimal(i) == Decimal(n) {
          DecimalInjective(i, n);
        }
      }
      FrontierBounded(rest, origin, p, g, n - 1);
    }
  }

  lemma FrontierUnique(m: map<Key, Observation>, origin: Bytes, p: Bytes, g: Bytes, a: nat, b: nat)
    requires IsFrontier(m, origin, p, g, a) && IsFrontier(m, origin, p, g, b)
    ensures a == b
  {
  }

  /** A commit, taken or refused, never lowers a frontier. */
  lemma FrontierRises(
    m: map<Key, Observation>, o: Bytes, records: seq<Observation>, text: Observation -> Bytes, limit: nat,
    origin: Bytes, p: Bytes, g: Bytes, before: nat, after: nat)
    requires IsFrontier(m, origin, p, g, before) && IsFrontier(Delivered(m, o, records, text, limit), origin, p, g, after)
    ensures before <= after
  {
    hide Decimal, Publish;
    PublishHolds(m, o, records);
    assert after < before ==> Key(origin, p, g, Decimal(after + 1)) in m;
  }

  /** A commit as a whole. */
  ghost function Delivered(m: map<Key, Observation>, origin: Bytes, records: seq<Observation>, text: Observation -> Bytes, limit: nat)
    : map<Key, Observation>
  {
    if Acceptable(m, origin, records, text, limit) then Publish(m, origin, records) else m
  }

  /** Committing again what was committed is accepted and changes nothing. */
  lemma RecommitIsNoop(m: map<Key, Observation>, origin: Bytes, records: seq<Observation>, text: Observation -> Bytes, limit: nat)
    requires Acceptable(m, origin, records, text, limit)
    ensures var after := Publish(m, origin, records);
      Acceptable(after, origin, records, text, limit) && Publish(after, origin, records) == after
  {
    hide Decimal, Agrees;
    var after := Publish(m, origin, records);
    PublishHolds(m, origin, records);
    PublishAgain(after, origin, records);
    hide Publish;
    forall i | 0 <= i < |records|
      ensures Agrees(after, origin, records[i], text)
    {
      hide Acceptable;
      AgreesAfter(m, origin, records, text, limit, i);
    }
  }

  lemma AgreesAfter(m: map<Key, Observation>, origin: Bytes, records: seq<Observation>, text: Observation -> Bytes, limit: nat, i: nat)
    requires Acceptable(m, origin, records, text, limit) && i < |records|
    ensures Agrees(Publish(m, origin, records), origin, records[i], text)
  {
    hide Decimal;
    var after := Publish(m, origin, records);
    PublishHolds(m, origin, records);
    hide Publish;
    var k := KeyOf(origin, records[i].identity);
    assert Agrees(m, origin, records[i], text);
    if k !in m {
      var j :| 0 <= j < |records| && KeyOf(origin, records[j].identity) == k && after[k] == records[j];
      KeyInjective(origin, records[i].identity, records[j].identity);
      var clash := Clash(m, origin, records[Min(i, j)], records[Max(i, j)]);
    }
  }

  lemma {:induction false} PublishAgain(m: map<Key, Observation>, origin: Bytes, records: seq<Observation>)
    requires forall i :: 0 <= i < |records| ==> KeyOf(origin, records[i].identity) in m
    ensures Publish(m, origin, records) == m
  {
    hide Decimal;
    if records != [] {
      assert forall i :: 0 <= i < |records| - 1 ==> records[..|records| - 1][i] == records[i];
      PublishAgain(m, origin, records[..|records| - 1]);
    }
  }

  // ---------------------------------------------------------------- order does not matter

  /** A single record brought by one origin. */
  datatype Delivery = Delivery(origin: Bytes, record: Observation)

  function KeyFor(d: Delivery): Key {
    KeyOf(d.origin, d.record.identity)
  }

  /** Deliveries, one commit each, one after another. */
  ghost function DeliverEach(m: map<Key, Observation>, ds: seq<Delivery>, text: Observation -> Bytes, limit: nat): map<Key, Observation> {
    if ds == [] then m
    else
      var d := ds[|ds| - 1];
      Delivered(DeliverEach(m, ds[..|ds| - 1], text, limit), d.origin, [d.record], text, limit)
  }

  /** What there would be if all were simply put where nothing is yet. */
  function Together(m: map<Key, Observation>, ds: seq<Delivery>): map<Key, Observation> {
    if ds == [] then m
    else
      var before, d := Together(m, ds[..|ds| - 1]), ds[|ds| - 1];
      if KeyFor(d) in before then before else before[KeyFor(d) := d.record]
  }

  /** Deliveries that contradict neither the store nor each other, and fit together. */
  ghost predicate Peaceful(m: map<Key, Observation>, ds: seq<Delivery>, text: Observation -> Bytes, limit: nat) {
    && (forall i :: 0 <= i < |ds| ==> 0 < |ds[i].origin| <= 128 && Agrees(m, ds[i].origin, ds[i].record, text))
    && (forall i, j :: 0 <= i < |ds| && 0 <= j < |ds| && KeyFor(ds[i]) == KeyFor(ds[j]) ==> ds[i] == ds[j])
    && |Together(m, ds)| <= limit
  }

  /** What was there stays; every delivery ends up there. */
  lemma {:induction false} TogetherKeeps(m: map<Key, Observation>, ds: seq<Delivery>)
    ensures var r := Together(m, ds);
      && (forall k :: k in m ==> k in r && r[k] == m[k])
      && (forall i :: 0 <= i < |ds| ==> KeyFor(ds[i]) in r)
  {
    hide KeyFor;
    if ds != [] {
      var init := ds[..|ds| - 1];
      TogetherKeeps(m, init);
      assert forall i :: 0 <= i < |init| ==> ds[i] == init[i];
    }
  }

  /** And nothing else does. */
  lemma {:induction false} TogetherOnly(m: map<Key, Observation>, ds: seq<Delivery>, k: Key) returns (i: nat)
    requires k in Together(m, ds) && k !in m
    ensures i < |ds| && KeyFor(ds[i]) == k && Together(m, ds)[k] == ds[i].record
  {
    hide KeyFor;
    var init := ds[..|ds| - 1];
    if k in Together(m, init) {
      i := TogetherOnly(m, init, k);
      assert ds[i] == init[i];
    } else {
      i := |ds| - 1;
    }
  }

  lemma PublishOne(m: map<Key, Observation>, origin: Bytes, o: Observation)
    ensures var k := KeyOf(origin, o.identity); Publish(m, origin, [o]) == if k in m then m else m[k := o]
  {
    assert [o][..0] == [];
    PublishNothing(m, origin);
  }

  lemma InitPeaceful(m: map<Key, Observation>, ds: seq<Delivery>, text: Observation -> Bytes, limit: nat)
    requires Peaceful(m, ds, text, limit) && ds != []
    ensures Peaceful(m, ds[..|ds| - 1], text, limit)
  {
    hide KeyFor, Agrees;
    var init, d := ds[..|ds| - 1], ds[|ds| - 1];
    assert forall i :: 0 <= i < |init| ==> init[i] == ds[i];
    var before := Together(m, init);
    if KeyFor(d) !in before {
      assert |before[KeyFor(d) := d.record]| == |before| + 1;
    }
  }

  /** The last of peaceful deliveries finds either itself or room. */
  lemma LastAccepted(m: map<Key, Observation>, ds: seq<Delivery>, text: Observation -> Bytes, limit: nat)
    requires Peaceful(m, ds, text, limit) && ds != []
    ensures var d := ds[|ds| - 1];
      Delivered(Together(m, ds[..|ds| - 1]), d.origin, [d.record], text, limit) == Together(m, ds)
  {
    hide Decimal;
    var init, d := ds[..|ds| - 1], ds[|ds| - 1];
    var before := Together(m, init);
    PublishOne(before, d.origin, d.record);
    TogetherKeeps(m, init);
    hide Publish;
    if KeyFor(d) in before && KeyFor(d) !in m {
      var i := TogetherOnly(m, init, KeyFor(d));
      assert ds[i] == init[i];
      assert KeyFor(ds[i]) == KeyFor(ds[|ds| - 1]);
    }
    assert Agrees(m, ds[|ds| - 1].origin, ds[|ds| - 1].record, text);
    assert Agrees(before, d.origin, d.record, text);
  }

  /** Peaceful deliveries are all taken, whatever is already stored: the store ends up with that and what arrived. */
  lemma {:induction false} PeacefulDeliveries(m: map<Key, Observation>, ds: seq<Delivery>, text: Observation -> Bytes, limit: nat)
    requires Peaceful(m, ds, text, limit)
    ensures DeliverEach(m, ds, text, limit) == Together(m, ds)
    decreases |ds|
  {
    hide Delivered, Peaceful;
    if ds != [] {
      InitPeaceful(m, ds, text, limit);
      PeacefulDeliveries(m, ds[..|ds| - 1], text, limit);
      LastAccepted(m, ds, text, limit);
    }
  }

  /** So what is stored then depends only on which deliveries arrived, not on order or repetition. */
  lemma OrderDoesNotMatter(m: map<Key, Observation>, a: seq<Delivery>, b: seq<Delivery>, text: Observation -> Bytes, limit: nat)
    requires Peaceful(m, a, text, limit) && Peaceful(m, b, text, limit)
    requires forall d :: d in a <==> d in b
    ensures DeliverEach(m, a, text, limit) == DeliverEach(m, b, text, limit)
  {
    hide *;
    PeacefulDeliveries(m, a, text, limit);
    PeacefulDeliveries(m, b, text, limit);
    TogetherSame(m, a, b, text, limit);
    TogetherSame(m, b, a, text, limit);
    var x, y := Together(m, a), Together(m, b);
    assert x.Keys == y.Keys;
    assert x == y;
  }

  lemma TogetherSame(m: map<Key, Observation>, a: seq<Delivery>, b: seq<Delivery>, text: Observation -> Bytes, limit: nat)
    requires Peaceful(m, b, text, limit) && forall d :: d in a ==> d in b
    ensures var x, y := Together(m, a), Together(m, b);
      forall k :: k in x ==> k in y && x[k] == y[k]
  {
    hide KeyFor, Agrees;
    var x, y := Together(m, a), Together(m, b);
    TogetherKeeps(m, a);
    TogetherKeeps(m, b);
    forall k | k in x
      ensures k in y && x[k] == y[k]
    {
      if k !in m {
        var i := TogetherOnly(m, a, k);
        assert a[i] in a && a[i] in b;
        var j :| 0 <= j < |b| && b[j] == a[i];
        var h := TogetherOnly(m, b, k);
        assert KeyFor(b[h]) == KeyFor(b[j]);
      }
    }
  }

  /** And so does every frontier. */
  lemma FrontierOrderFree(
    m: map<Key, Observation>, a: seq<Delivery>, b: seq<Delivery>, text: Observation -> Bytes, limit: nat,
    origin: Bytes, p: Bytes, g: Bytes, x: nat, y: nat)
    requires Peaceful(m, a, text, limit) && Peaceful(m, b, text, limit) && forall d :: d in a <==> d in b
    requires IsFrontier(DeliverEach(m, a, text, limit), origin, p, g, x) && IsFrontier(DeliverEach(m, b, text, limit), origin, p, g, y)
    ensures x == y
  {
    hide *;
    OrderDoesNotMatter(m, a, b, text, limit);
    FrontierUnique(DeliverEach(m, a, text, limit), origin, p, g, x, y);
  }
}
